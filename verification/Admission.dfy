/**
 Admission of Ocular resources: how references resolve (internal/resources/references.go), what the
 validators demand (internal/validators) and when the webhooks let an object be changed or deleted
 (internal/webhook/v1beta1). What the API server stores is a value here; the validators only read it.
 */
module Admission {
  import opened Wrappers
  import P = Parameters
  import C = Containers

  /** The text of a reference's kind, with the texts that the program distinguishes as cases. */
  datatype Kind =
    | NoKind | ProfileKind
    | DownloaderKind | ClusterDownloaderKind
    | CrawlerKind | ClusterCrawlerKind
    | UploaderKind | ClusterUploaderKind
    | OtherKind(text: string)

  datatype Reference = Reference(name: string, kind: Kind, parameters: seq<P.Setting>)

  /** Cluster-scoped objects have the empty namespace. */
  datatype Key = Key(namespace: string, name: string)

  /** The identity of a downloader, crawler or uploader of either scope. */
  datatype Id = Id(kind: Kind, key: Key)

  datatype Resource = Resource(container: C.Container, parameters: seq<P.Definition>, volumes: seq<string>)

  datatype Profile = Profile(
    parameters: seq<P.Definition>, scanners: seq<P.Conditional<C.Container>>, volumes: seq<string>,
    uploaderRefs: seq<Reference>)

  datatype Pipeline = Pipeline(profileRef: Reference, downloaderRef: Reference, serviceAccount: string)

  datatype Search = Search(crawlerRef: Reference, serviceAccount: string)

  /** A cron search is kept as the crawler reference of its template. */
  datatype Store = Store(
    resources: map<Id, Resource>, profiles: map<Key, Profile>, pipelines: map<Key, Pipeline>,
    searches: map<Key, Search>, cronSearches: map<Key, Reference>, serviceAccounts: set<Key>)

  const MAX_PIPELINE_NAME_LENGTH := 54

  // ----- references -----

  function ClusterKind(kind: Kind): Kind {
    match kind
    case DownloaderKind => ClusterDownloaderKind
    case CrawlerKind => ClusterCrawlerKind
    case UploaderKind => ClusterUploaderKind
    case _ => OtherKind("")
  }

  /** The object that a reference from `namespace` stands for; none if its kind is invalid. */
  function Target(kind: Kind, namespace: string, ref: Reference): Option<Id> {
    if ref.kind == kind || ref.kind == NoKind then Some(Id(kind, Key(namespace, ref.name)))
    else if ref.kind == ClusterKind(kind) then Some(Id(ClusterKind(kind), Key("", ref.name)))
    else None
  }

  datatype LookupError = InvalidKind | NotFound

  function FromReference(s: Store, kind: Kind, namespace: string, ref: Reference): Result<Resource, LookupError> {
    match Target(kind, namespace, ref)
    case None => Err(InvalidKind)
    case Some(id) => if id in s.resources then Ok(s.resources[id]) else Err(NotFound)
  }

  function ProfileFromReference(s: Store, namespace: string, ref: Reference): Result<Profile, LookupError> {
    if ref.kind != ProfileKind && ref.kind != NoKind then Err(InvalidKind)
    else if Key(namespace, ref.name) in s.profiles then Ok(s.profiles[Key(namespace, ref.name)])
    else Err(NotFound)
  }

  /** What a reference finds: the object of its own namespace if it states that kind or none, the object of the
      cluster if it states the cluster's kind, and nothing if it states another. */
  lemma FromReferenceIs(s: Store, namespace: string, ref: Reference, kind: Kind, clusterKind: Kind)
    requires (kind, clusterKind) in {(DownloaderKind, ClusterDownloaderKind), (CrawlerKind, ClusterCrawlerKind),
                                     (UploaderKind, ClusterUploaderKind)}
    ensures var found := FromReference(s, kind, namespace, ref);
            var own, shared := Id(kind, Key(namespace, ref.name)), Id(clusterKind, Key("", ref.name));
            && (found == Err(InvalidKind) <==> ref.kind !in {NoKind, kind, clusterKind})
            && (ref.kind in {NoKind, kind} ==>
                 found == if own in s.resources then Ok(s.resources[own]) else Err(NotFound))
            && (ref.kind == clusterKind ==>
                 found == if shared in s.resources then Ok(s.resources[shared]) else Err(NotFound))
  {
  }

  /** Profiles are looked up in the namespace of the reference, which states their kind or none. */
  lemma ProfileFromReferenceIs(s: Store, namespace: string, ref: Reference, p: Profile)
    ensures ProfileFromReference(s, namespace, ref) == Ok(p) <==>
      && ref.kind in {NoKind, ProfileKind}
      && Key(namespace, ref.name) in s.profiles && s.profiles[Key(namespace, ref.name)] == p
    ensures ProfileFromReference(s, namespace, ref) == Err(InvalidKind) <==> ref.kind !in {NoKind, ProfileKind}
    ensures ProfileFromReference(s, namespace, ref) == Err(NotFound) <==>
      ref.kind in {NoKind, ProfileKind} && Key(namespace, ref.name) !in s.profiles
  {
  }

  function DefaultKind(ref: Reference, kind: Kind): Reference {
    if ref.kind == NoKind then ref.(kind := kind) else ref
  }

  predicate RefMatches(ref: Reference, id: Id) { ref.name == id.key.name && ref.kind == id.kind }

  /** The defaulter of a reference does not change what it stands for, and afterwards the reference
      matches exactly the object it stands for. */
  lemma DefaultKeepsTarget(kind: Kind, namespace: string, ref: Reference, id: Id)
    requires kind in {DownloaderKind, CrawlerKind, UploaderKind}
    ensures Target(kind, namespace, DefaultKind(ref, kind)) == Target(kind, namespace, ref)
    ensures Target(kind, namespace, ref) == Some(id) <==>
      && RefMatches(DefaultKind(ref, kind), id)
      && ((id.kind == kind && id.key.namespace == namespace)
        || (id.kind == ClusterKind(kind) && id.key.namespace == ""))
  {
  }

  // ----- defaulting -----

  function DefaultedPipeline(p: Pipeline): Pipeline {
    Pipeline(
      DefaultKind(p.profileRef, ProfileKind), DefaultKind(p.downloaderRef, DownloaderKind),
      if p.serviceAccount == "" then "default" else p.serviceAccount)
  }

  function DefaultedSearch(s: Search): Search { s.(crawlerRef := DefaultKind(s.crawlerRef, CrawlerKind)) }

  datatype Phase = Unstarted | Pending | Running | Succeeded | Failed

  datatype StageStatus = NoStatus | NotStarted | InProgress | Completed

  class PipelineObject {
    var profileRef: Reference
    var downloaderRef: Reference
    var serviceAccount: string
    var phase: Phase
    var downloadStatus: StageStatus
    var scanStatus: StageStatus
    var uploadStatus: StageStatus

    function Spec(): Pipeline
      reads this
    {
      Pipeline(profileRef, downloaderRef, serviceAccount)
    }

    /** Every later reader finds the kinds and the service account set. */
    method Default()
      modifies this
      ensures Spec() == DefaultedPipeline(old(Spec()))
      ensures profileRef.kind != NoKind && downloaderRef.kind != NoKind && serviceAccount != ""
      ensures profileRef == old(profileRef).(kind := profileRef.kind)
        && downloaderRef == old(downloaderRef).(kind := downloaderRef.kind)
      ensures profileRef.kind == if old(profileRef).kind == NoKind then ProfileKind else old(profileRef).kind
      ensures downloaderRef.kind ==
        if old(downloaderRef).kind == NoKind then DownloaderKind else old(downloaderRef).kind
      ensures serviceAccount == if old(serviceAccount) == "" then "default" else old(serviceAccount)
      ensures phase == Pending && downloadStatus == scanStatus == uploadStatus == NotStarted
    {
      if serviceAccount == "" {
        serviceAccount := "default";
      }
      phase := Pending;
      downloadStatus, scanStatus, uploadStatus := NotStarted, NotStarted, NotStarted;
      downloaderRef := DefaultKind(downloaderRef, DownloaderKind);
      profileRef := DefaultKind(profileRef, ProfileKind);
    }
  }

  class SearchObject {
    var crawlerRef: Reference
    var serviceAccount: string

    function Spec(): Search
      reads this
    {
      Search(crawlerRef, serviceAccount)
    }

    method Default()
      modifies this
      ensures Spec() == DefaultedSearch(old(Spec())) && crawlerRef.kind != NoKind
      ensures serviceAccount == old(serviceAccount) && crawlerRef == old(crawlerRef).(kind := crawlerRef.kind)
      ensures crawlerRef.kind == if old(crawlerRef).kind == NoKind then CrawlerKind else old(crawlerRef).kind
    {
      crawlerRef := DefaultKind(crawlerRef, CrawlerKind);
    }
  }

  /** The defaulter of profiles, on the list of uploader references in place. */
  method DefaultUploaderRefs(refs: array<Reference>)
    modifies refs
    ensures forall k :: 0 <= k < refs.Length ==> refs[k] == DefaultKind(old(refs[k]), UploaderKind)
    ensures forall k :: 0 <= k < refs.Length ==> refs[k].kind != NoKind
    ensures forall k :: 0 <= k < refs.Length ==>
      refs[k] == old(refs[k]).(kind := if old(refs[k]).kind == NoKind then UploaderKind else old(refs[k]).kind)
  {
    for i := 0 to refs.Length
      invariant forall k :: 0 <= k < i ==> refs[k] == DefaultKind(old(refs[k]), UploaderKind)
      invariant forall k :: i <= k < refs.Length ==> refs[k] == old(refs[k])
    {
      refs[i] := DefaultKind(refs[i], UploaderKind);
    }
  }

  // ----- pipelines -----

  predicate NoParents(settings: seq<P.Setting>) { forall s :: s in settings ==> s.valueFrom.None? }

  predicate Disjoint(a: seq<string>, b: seq<string>) { forall x :: x in a ==> x !in b }

  /** What an admitted pipeline satisfies at the moment of its admission. */
  predicate ValidPipeline(s: Store, key: Key, p: Pipeline) {
    && |key.name| <= MAX_PIPELINE_NAME_LENGTH
    && Key(key.namespace, p.serviceAccount) in s.serviceAccounts
    && var profile := ProfileFromReference(s, key.namespace, p.profileRef);
    && var downloader := FromReference(s, DownloaderKind, key.namespace, p.downloaderRef);
    && profile.Ok? && downloader.Ok?
    && P.Satisfies(p.profileRef.parameters, profile.value.parameters) && NoParents(p.profileRef.parameters)
    && P.Satisfies(p.downloaderRef.parameters, downloader.value.parameters) && NoParents(p.downloaderRef.parameters)
    && P.Selected(profile.value.scanners, profile.value.parameters, p.profileRef.parameters) != []
    && Disjoint(downloader.value.volumes, profile.value.volumes)
  }

  datatype PipelineProblem =
    | NameTooLong | ProfileInvalidKind | ProfileNotFound | ProfileParameterMissing(name: string)
    | ProfileParameterFromParent(index: nat) | NoScanners
    | DownloaderInvalidKind | DownloaderNotFound | DownloaderParameterMissing(name: string)
    | DownloaderParameterFromParent(index: nat) | VolumeConflict(name: string) | ServiceAccountNotFound

  function EmptyProfile(): Profile { Profile([], [], [], []) }

  /** A required parameter that is not set. */
  ghost predicate LacksParameter(settings: seq<P.Setting>, defs: seq<P.Definition>, name: string) {
    && (exists d :: d in defs && d.name == name && d.default.None?)
    && forall t :: t in settings ==> t.name != name
  }

  ghost predicate AsksParent(settings: seq<P.Setting>, i: nat) { i < |settings| && settings[i].valueFrom.Some? }

  function FoundProfile(s: Store, namespace: string, ref: Reference): Profile {
    match ProfileFromReference(s, namespace, ref) case Ok(p) => p case Err(_) => EmptyProfile()
  }

  function FoundDownloader(s: Store, namespace: string, ref: Reference): Resource {
    match FromReference(s, DownloaderKind, namespace, ref) case Ok(d) => d case Err(_) => EMPTY_RESOURCE
  }

  const EMPTY_RESOURCE := Resource(C.Container("", [], [], [], "", []), [], [])

  /** When a problem with the profile reference is reported. */
  ghost predicate ProfileTrouble(s: Store, namespace: string, ref: Reference, x: PipelineProblem) {
    var profile := FoundProfile(s, namespace, ref);
    match x
    case ProfileInvalidKind => ref.kind !in {NoKind, ProfileKind}
    case ProfileNotFound => ref.kind in {NoKind, ProfileKind} && Key(namespace, ref.name) !in s.profiles
    case ProfileParameterMissing(name) => LacksParameter(ref.parameters, profile.parameters, name)
    case ProfileParameterFromParent(i) => AsksParent(ref.parameters, i)
    case NoScanners => P.Selected(profile.scanners, profile.parameters, ref.parameters) == []
    case _ => false
  }

  /** When a problem with the downloader reference is reported. */
  ghost predicate DownloaderTrouble(s: Store, namespace: string, ref: Reference, x: PipelineProblem) {
    match x
    case DownloaderInvalidKind => ref.kind !in {NoKind, DownloaderKind, ClusterDownloaderKind}
    case DownloaderNotFound =>
      || (ref.kind in {NoKind, DownloaderKind} && Id(DownloaderKind, Key(namespace, ref.name)) !in s.resources)
      || (ref.kind == ClusterDownloaderKind && Id(ClusterDownloaderKind, Key("", ref.name)) !in s.resources)
    case DownloaderParameterMissing(name) =>
      LacksParameter(ref.parameters, FoundDownloader(s, namespace, ref).parameters, name)
    case DownloaderParameterFromParent(i) => AsksParent(ref.parameters, i)
    case _ => false
  }

  /** When a problem with a pipeline is reported. */
  ghost predicate PipelineTrouble(s: Store, key: Key, p: Pipeline, x: PipelineProblem) {
    || (x == NameTooLong && |key.name| > 54)
    || ProfileTrouble(s, key.namespace, p.profileRef, x)
    || DownloaderTrouble(s, key.namespace, p.downloaderRef, x)
    || (x.VolumeConflict?
        && x.name in FoundDownloader(s, key.namespace, p.downloaderRef).volumes
        && x.name in FoundProfile(s, key.namespace, p.profileRef).volumes)
    || (x == ServiceAccountNotFound && Key(key.namespace, p.serviceAccount) !in s.serviceAccounts)
  }

  /** The problems with the profile reference; the profile is empty if it cannot be read. */
  method ProfileProblems(s: Store, namespace: string, ref: Reference)
    returns (problems: seq<PipelineProblem>, profile: Profile)
    ensures problems == [] <==>
      && ProfileFromReference(s, namespace, ref).Ok?
      && var found := ProfileFromReference(s, namespace, ref).value;
      && P.Satisfies(ref.parameters, found.parameters) && NoParents(ref.parameters)
      && P.Selected(found.scanners, found.parameters, ref.parameters) != []
    ensures ProfileFromReference(s, namespace, ref).Ok? ==> profile == ProfileFromReference(s, namespace, ref).value
    ensures ProfileNotFound in problems <==> ProfileFromReference(s, namespace, ref) == Err(NotFound)
    ensures ProfileInvalidKind in problems <==> ProfileFromReference(s, namespace, ref) == Err(InvalidKind)
    ensures profile == FoundProfile(s, namespace, ref)
    ensures forall x :: x in problems <==> ProfileTrouble(s, namespace, ref, x)
  {
    problems, profile := [], EmptyProfile();
    match ProfileFromReference(s, namespace, ref) {
      case Err(InvalidKind) => problems := problems + [ProfileInvalidKind];
      case Err(NotFound) => problems := problems + [ProfileNotFound];
      case Ok(found) => profile := found;
    }
    var missing := P.ValidateParameterReference(ref.parameters, profile.parameters);
    var unset := seq(|missing|, k requires 0 <= k < |missing| => ProfileParameterMissing(missing[k]));
    forall n ensures ProfileParameterMissing(n) in unset <==> n in missing {
      if k :| 0 <= k < |missing| && missing[k] == n { assert unset[k] == ProfileParameterMissing(n); }
    }
    var fromParent := P.ValidateNoParentParameters(ref.parameters);
    var asked := seq(|fromParent|, k requires 0 <= k < |fromParent| => ProfileParameterFromParent(fromParent[k]));
    forall n ensures ProfileParameterFromParent(n) in asked <==> n in fromParent {
      if k :| 0 <= k < |fromParent| && fromParent[k] == n { assert asked[k] == ProfileParameterFromParent(n); }
    }
    problems := problems + unset + asked;
    var scanners := P.FilterConditionalContainers(profile.scanners, profile.parameters, ref.parameters);
    if |scanners| == 0 {
      problems := problems + [NoScanners];
    }
  }

  method DownloaderProblems(s: Store, namespace: string, ref: Reference)
    returns (problems: seq<PipelineProblem>, downloader: Resource)
    ensures problems == [] <==>
      && FromReference(s, DownloaderKind, namespace, ref).Ok?
      && P.Satisfies(ref.parameters, FromReference(s, DownloaderKind, namespace, ref).value.parameters)
      && NoParents(ref.parameters)
    ensures FromReference(s, DownloaderKind, namespace, ref).Ok? ==>
      downloader == FromReference(s, DownloaderKind, namespace, ref).value
    ensures DownloaderNotFound in problems <==> FromReference(s, DownloaderKind, namespace, ref) == Err(NotFound)
    ensures DownloaderInvalidKind in problems <==> FromReference(s, DownloaderKind, namespace, ref) == Err(InvalidKind)
    ensures downloader == FoundDownloader(s, namespace, ref)
    ensures forall x :: x in problems <==> DownloaderTrouble(s, namespace, ref, x)
  {
    problems, downloader := [], EMPTY_RESOURCE;
    match FromReference(s, DownloaderKind, namespace, ref) {
      case Err(InvalidKind) => problems := problems + [DownloaderInvalidKind];
      case Err(NotFound) => problems := problems + [DownloaderNotFound];
      case Ok(found) => downloader := found;
    }
    var missing := P.ValidateParameterReference(ref.parameters, downloader.parameters);
    var unset := seq(|missing|, k requires 0 <= k < |missing| => DownloaderParameterMissing(missing[k]));
    forall n ensures DownloaderParameterMissing(n) in unset <==> n in missing {
      if k :| 0 <= k < |missing| && missing[k] == n { assert unset[k] == DownloaderParameterMissing(n); }
    }
    var fromParent := P.ValidateNoParentParameters(ref.parameters);
    var asked := seq(|fromParent|, k requires 0 <= k < |fromParent| => DownloaderParameterFromParent(fromParent[k]));
    forall n ensures DownloaderParameterFromParent(n) in asked <==> n in fromParent {
      if k :| 0 <= k < |fromParent| && fromParent[k] == n { assert asked[k] == DownloaderParameterFromParent(n); }
    }
    problems := problems + unset + asked;
  }

  method VolumeConflicts(volumes: seq<string>, taken: seq<string>) returns (problems: seq<PipelineProblem>)
    ensures forall x :: VolumeConflict(x) in problems <==> x in volumes && x in taken
    ensures problems == [] <==> Disjoint(volumes, taken)
    ensures forall x :: x in problems ==> x.VolumeConflict?
  {
    var names: set<string> := {};
    for i := 0 to |taken|
      invariant forall x :: x in names <==> x in taken[..i]
    {
      names := names + {taken[i]};
    }
    assert taken[..|taken|] == taken;
    problems := [];
    for i := 0 to |volumes|
      invariant forall x :: VolumeConflict(x) in problems <==> x in volumes[..i] && x in taken
      invariant problems == [] <==> Disjoint(volumes[..i], taken)
      invariant forall x :: x in problems ==> x.VolumeConflict?
    {
      assert volumes[..i + 1] == volumes[..i] + [volumes[i]];
      if volumes[i] in names {
        problems := problems + [VolumeConflict(volumes[i])];
        assert volumes[i] in volumes[..i + 1];
      }
    }
    assert volumes[..|volumes|] == volumes;
  }

  /** A pipeline is admitted if and only if it is valid in the store at that moment. */
  method ValidatePipeline(s: Store, key: Key, p: Pipeline) returns (problems: seq<PipelineProblem>)
    ensures problems == [] <==> ValidPipeline(s, key, p)
    ensures forall x :: x in problems <==> PipelineTrouble(s, key, p, x)
  {
    problems := [];
    if |key.name| > MAX_PIPELINE_NAME_LENGTH {
      problems := problems + [NameTooLong];
    }
    var withProfile, profile := ProfileProblems(s, key.namespace, p.profileRef);
    problems := problems + withProfile;
    var withDownloader, downloader := DownloaderProblems(s, key.namespace, p.downloaderRef);
    problems := problems + withDownloader;
    var conflicts := VolumeConflicts(downloader.volumes, profile.volumes);
    problems := problems + conflicts;
    if Key(key.namespace, p.serviceAccount) !in s.serviceAccounts {
      problems := problems + [ServiceAccountNotFound];
    }
  }

  // ----- profiles -----

  predicate ValidContainer(c: C.Container) { |c.name| <= MAX_PIPELINE_NAME_LENGTH && c.command != [] }

  datatype ContainerProblem = ContainerNameTooLong | NoCommand

  method ValidateContainerDefinition(c: C.Container) returns (problems: seq<ContainerProblem>)
    ensures problems == [] <==> ValidContainer(c)
    ensures NoCommand in problems <==> c.command == []
    ensures ContainerNameTooLong in problems <==> |c.name| > 54
  {
    problems := [];
    if |c.name| > MAX_PIPELINE_NAME_LENGTH {
      problems := problems + [ContainerNameTooLong];
    }
    if |c.command| == 0 {
      problems := problems + [NoCommand];
    }
  }

  predicate Distinct(names: seq<string>) { forall i, j :: 0 <= i < j < |names| ==> names[i] != names[j] }

  /** What a valid uploader reference of a profile satisfies. */
  predicate ValidUploaderRef(s: Store, namespace: string, ref: Reference, parentDefs: seq<P.Definition>) {
    && FromReference(s, UploaderKind, namespace, ref).Ok?
    && P.Satisfies(ref.parameters, FromReference(s, UploaderKind, namespace, ref).value.parameters)
    && forall t :: t in ref.parameters ==> !P.BadSource(t, parentDefs)
  }

  predicate ValidUploaderRefs(s: Store, namespace: string, refs: seq<Reference>, parentDefs: seq<P.Definition>) {
    forall ref :: ref in refs ==> ValidUploaderRef(s, namespace, ref, parentDefs)
  }

  /** The volumes of the uploaders that can be read, in order. */
  function UploaderVolumes(s: Store, namespace: string, refs: seq<Reference>): seq<string> {
    if refs == [] then []
    else
      var k := |refs| - 1;
      UploaderVolumes(s, namespace, refs[..k])
      + (match FromReference(s, UploaderKind, namespace, refs[k]) case Ok(u) => u.volumes case Err(_) => [])
  }

  /** The volumes of an uploader count if its reference can be resolved. */
  lemma UploaderVolumesAppend(s: Store, namespace: string, refs: seq<Reference>, ref: Reference)
    ensures UploaderVolumes(s, namespace, []) == []
    ensures UploaderVolumes(s, namespace, refs + [ref]) == UploaderVolumes(s, namespace, refs) +
      var found := FromReference(s, UploaderKind, namespace, ref); if found.Ok? then found.value.volumes else []
  {
    assert (refs + [ref])[..|refs|] == refs;
  }

  predicate ValidProfile(s: Store, namespace: string, p: Profile) {
    && ValidUploaderRefs(s, namespace, p.uploaderRefs, p.parameters)
    && (forall c :: c in p.scanners ==> ValidContainer(c.container))
    && Distinct(p.volumes + UploaderVolumes(s, namespace, p.uploaderRefs))
  }

  datatype ProfileProblem =
    | UploaderInvalidKind(ref: nat) | UploaderNotFound(ref: nat) | UploaderParameterMissing(ref: nat)
    | UploaderBadSource(ref: nat) | DuplicateVolume(name: string) | BadContainer(index: nat)

  /** The volume occurs in `all` at `from` or later, and before that already. */
  ghost predicate RepeatedFrom(all: seq<string>, from: nat, v: string) {
    exists j :: from <= j < |all| && all[j] == v && v in all[..j]
  }

  lemma RepeatedAppend(all: seq<string>, from: nat, v: string)
    requires from <= |all|
    ensures forall x :: RepeatedFrom(all + [v], from, x) <==> RepeatedFrom(all, from, x) || (x == v && v in all)
  {
    var more := all + [v];
    forall x ensures RepeatedFrom(more, from, x) <==> RepeatedFrom(all, from, x) || (x == v && v in all) {
      assert forall j :: 0 <= j <= |all| ==> more[..j] == all[..j];
      if v in all && x == v { assert more[|all|] == v && v in more[..|all|]; }
      if j :| from <= j < |all| && all[j] == x && x in all[..j] { assert more[j] == x && x in more[..j]; }
    }
  }

  /** Adds volumes to those seen; a duplicate is reported, not added again. */
  method AddVolumes(volumes: seq<string>, names: set<string>, ghost seen: seq<string>)
    returns (after: set<string>, problems: seq<ProfileProblem>)
    requires names == set x | x in seen
    ensures after == set x | x in seen + volumes
    ensures Distinct(seen) ==> (problems == [] <==> Distinct(seen + volumes))
    ensures forall x :: x in problems <==> x.DuplicateVolume? && RepeatedFrom(seen + volumes, |seen|, x.name)
  {
    after, problems := names, [];
    assert seen + volumes[..0] == seen;
    for i := 0 to |volumes|
      invariant after == set x | x in seen + volumes[..i]
      invariant Distinct(seen) ==> (problems == [] <==> Distinct(seen + volumes[..i]))
      invariant forall x ::
        x in problems <==> x.DuplicateVolume? && RepeatedFrom(seen + volumes[..i], |seen|, x.name)
    {
      ghost var before := seen + volumes[..i];
      assert seen + volumes[..i + 1] == before + [volumes[i]];
      RepeatedAppend(before, |seen|, volumes[i]);
      if volumes[i] in after {
        problems := problems + [DuplicateVolume(volumes[i])];
        ghost var j :| 0 <= j < |before| && before[j] == volumes[i];
        assert (before + [volumes[i]])[j] == (before + [volumes[i]])[|before|];
      } else {
        after := after + {volumes[i]};
        if Distinct(before + [volumes[i]]) { PrefixDistinct(before, [volumes[i]]); }
      }
    }
    assert volumes[..|volumes|] == volumes;
  }

  lemma PrefixDistinct(a: seq<string>, b: seq<string>)
    requires Distinct(a + b)
    ensures Distinct(a)
  {
    forall i, j | 0 <= i < j < |a| ensures a[i] != a[j] {
      assert (a + b)[i] == a[i] && (a + b)[j] == a[j];
    }
  }

  /** When a problem with an uploader reference is reported. */
  ghost predicate UploaderTrouble(s: Store, namespace: string, ref: Reference, index: nat,
    parentDefs: seq<P.Definition>, x: ProfileProblem)
  {
    var found := FromReference(s, UploaderKind, namespace, ref);
    || (x == UploaderInvalidKind(index) && ref.kind !in {NoKind, UploaderKind, ClusterUploaderKind})
    || (x == UploaderNotFound(index) &&
        if ref.kind == ClusterUploaderKind then Id(ClusterUploaderKind, Key("", ref.name)) !in s.resources
        else ref.kind in {NoKind, UploaderKind} && Id(UploaderKind, Key(namespace, ref.name)) !in s.resources)
    || (x == UploaderParameterMissing(index) && found.Ok? &&
        exists n :: LacksParameter(ref.parameters, found.value.parameters, n))
    || (x == UploaderBadSource(index) && found.Ok? &&
        exists t :: t in ref.parameters && t.valueFrom.Some? &&
          (t.value != "" || forall d :: d in parentDefs ==> d.name != t.valueFrom.value))
  }

  /** The problems of one uploader reference and the volumes of the uploader, if it can be read. */
  method UploaderProblems(s: Store, namespace: string, ref: Reference, index: nat, parentDefs: seq<P.Definition>)
    returns (problems: seq<ProfileProblem>, volumes: seq<string>)
    ensures problems == [] <==> ValidUploaderRef(s, namespace, ref, parentDefs)
    ensures forall x :: x in problems <==> UploaderTrouble(s, namespace, ref, index, parentDefs, x)
    ensures volumes == match FromReference(s, UploaderKind, namespace, ref) case Ok(u) => u.volumes case Err(_) => []
  {
    match FromReference(s, UploaderKind, namespace, ref) {
      case Err(InvalidKind) => return [UploaderInvalidKind(index)], [];
      case Err(NotFound) => return [UploaderNotFound(index)], [];
      case Ok(uploader) =>
        var missing := P.ValidateParameterReference(ref.parameters, uploader.parameters);
        var badSources := P.ValidateParentParameters(ref.parameters, parentDefs);
        var unset := seq(|missing|, _ => UploaderParameterMissing(index));
        var wrong := seq(|badSources|, _ => UploaderBadSource(index));
        if missing != [] {
          assert unset[0] == UploaderParameterMissing(index) && missing[0] in missing;
          assert LacksParameter(ref.parameters, uploader.parameters, missing[0]);
        }
        if badSources != [] {
          assert wrong[0] == UploaderBadSource(index) && badSources[0] in badSources;
          assert ref.parameters[badSources[0]] in ref.parameters;
        }
        assert missing == [] ==> forall n :: LacksParameter(ref.parameters, uploader.parameters, n) ==> n in missing;
        assert forall t :: t in ref.parameters && t.valueFrom.Some? && P.BadSource(t, parentDefs) ==>
          t.value != "" || forall d :: d in parentDefs ==> d.name != t.valueFrom.value;
        problems := unset + wrong;
        volumes := uploader.volumes;
    }
  }

  ghost predicate ScannerTrouble(scanners: seq<P.Conditional<C.Container>>, x: ProfileProblem) {
    x.BadContainer? && x.index < |scanners| &&
    (|scanners[x.index].container.name| > 54 || scanners[x.index].container.command == [])
  }

  method ScannerProblems(scanners: seq<P.Conditional<C.Container>>) returns (problems: seq<ProfileProblem>)
    ensures problems == [] <==> forall c :: c in scanners ==> ValidContainer(c.container)
    ensures forall x :: x in problems <==> ScannerTrouble(scanners, x)
  {
    problems := [];
    for i := 0 to |scanners|
      invariant forall x :: x in problems <==> ScannerTrouble(scanners[..i], x)
      invariant problems == [] <==> forall c :: c in scanners[..i] ==> ValidContainer(c.container)
    {
      assert scanners[..i + 1] == scanners[..i] + [scanners[i]];
      var wrong := ValidateContainerDefinition(scanners[i].container);
      var bad := seq(|wrong|, _ => BadContainer(i));
      if wrong != [] { assert bad[0] == BadContainer(i); }
      problems := problems + bad;
    }
    assert scanners[..|scanners|] == scanners;
  }

  /** The volumes that the names refer to and the problems found so far, up to reference `i`. */
  ghost predicate CheckedUpTo(s: Store, namespace: string, p: Profile, i: nat, seen: seq<string>, names: set<string>,
    clean: bool)
    requires i <= |p.uploaderRefs|
  {
    && seen == p.volumes + UploaderVolumes(s, namespace, p.uploaderRefs[..i])
    && names == (set x | x in seen)
    && (clean <==> ValidUploaderRefs(s, namespace, p.uploaderRefs[..i], p.parameters) && Distinct(seen))
  }

  lemma CheckedStart(s: Store, namespace: string, p: Profile, names: set<string>)
    requires names == set x | x in p.volumes
    ensures CheckedUpTo(s, namespace, p, 0, p.volumes, names, Distinct(p.volumes))
  {
    assert p.volumes + UploaderVolumes(s, namespace, []) == p.volumes;
  }

  lemma CheckedStep(s: Store, namespace: string, p: Profile, i: nat, seen: seq<string>, names: set<string>, clean: bool,
                    volumes: seq<string>, after: set<string>, refClean: bool, volumesClean: bool)
    requires i < |p.uploaderRefs| && CheckedUpTo(s, namespace, p, i, seen, names, clean)
    requires volumes ==
      match FromReference(s, UploaderKind, namespace, p.uploaderRefs[i]) case Ok(u) => u.volumes case Err(_) => []
    requires after == set x | x in seen + volumes
    requires refClean <==> ValidUploaderRef(s, namespace, p.uploaderRefs[i], p.parameters)
    requires Distinct(seen) ==> (volumesClean <==> Distinct(seen + volumes))
    ensures CheckedUpTo(s, namespace, p, i + 1, seen + volumes, after, clean && refClean && volumesClean)
  {
    var refs := p.uploaderRefs;
    assert refs[..i + 1][..i] == refs[..i] && refs[..i + 1] == refs[..i] + [refs[i]];
    assert seen + volumes == p.volumes + UploaderVolumes(s, namespace, refs[..i + 1]);
    if Distinct(seen + volumes) { PrefixDistinct(seen, volumes); }
  }

  /** When a problem with a profile is reported. */
  ghost predicate ProfileIssue(s: Store, namespace: string, p: Profile, x: ProfileProblem) {
    || (exists j :: 0 <= j < |p.uploaderRefs| && UploaderTrouble(s, namespace, p.uploaderRefs[j], j, p.parameters, x))
    || (x.DuplicateVolume? && RepeatedFrom(p.volumes + UploaderVolumes(s, namespace, p.uploaderRefs), 0, x.name))
    || ScannerTrouble(p.scanners, x)
  }

  /** The problems reported before the scanners are looked at, up to reference `i`. */
  ghost predicate ReportedUpTo(s: Store, namespace: string, p: Profile, i: nat, seen: seq<string>, x: ProfileProblem)
    requires i <= |p.uploaderRefs|
  {
    || (exists j :: 0 <= j < i && UploaderTrouble(s, namespace, p.uploaderRefs[j], j, p.parameters, x))
    || (x.DuplicateVolume? && RepeatedFrom(seen, 0, x.name))
  }

  lemma ReportedStep(s: Store, namespace: string, p: Profile, i: nat, seen: seq<string>, volumes: seq<string>,
    x: ProfileProblem)
    requires i < |p.uploaderRefs|
    ensures ReportedUpTo(s, namespace, p, i + 1, seen + volumes, x) <==>
      || ReportedUpTo(s, namespace, p, i, seen, x)
      || UploaderTrouble(s, namespace, p.uploaderRefs[i], i, p.parameters, x)
      || (x.DuplicateVolume? && RepeatedFrom(seen + volumes, |seen|, x.name))
  {
    if x.DuplicateVolume? { RepeatedSplit(seen, volumes, x.name); }
  }

  lemma AllReported(s: Store, namespace: string, p: Profile, i: nat, seen: seq<string>, volumes: seq<string>,
    problems: seq<ProfileProblem>, found: seq<ProfileProblem>, duplicates: seq<ProfileProblem>)
    requires i < |p.uploaderRefs|
    requires forall x :: x in problems <==> ReportedUpTo(s, namespace, p, i, seen, x)
    requires forall x :: x in found <==> UploaderTrouble(s, namespace, p.uploaderRefs[i], i, p.parameters, x)
    requires forall x :: x in duplicates <==> x.DuplicateVolume? && RepeatedFrom(seen + volumes, |seen|, x.name)
    ensures forall x ::
      x in problems + found + duplicates <==> ReportedUpTo(s, namespace, p, i + 1, seen + volumes, x)
  {
    forall x ensures x in problems + found + duplicates <==> ReportedUpTo(s, namespace, p, i + 1, seen + volumes, x) {
      ReportedStep(s, namespace, p, i, seen, volumes, x);
    }
  }

  lemma RepeatedSplit(a: seq<string>, b: seq<string>, v: string)
    ensures RepeatedFrom(a + b, 0, v) <==> RepeatedFrom(a, 0, v) || RepeatedFrom(a + b, |a|, v)
  {
    assert forall j :: 0 <= j <= |a| ==> (a + b)[..j] == a[..j];
    if j :| 0 <= j < |a| && a[j] == v && v in a[..j] { assert (a + b)[j] == v && v in (a + b)[..j]; }
  }

  /** A profile is admitted if and only if it is valid in the store at that moment. */
  method ValidateProfile(s: Store, namespace: string, p: Profile) returns (problems: seq<ProfileProblem>)
    ensures problems == [] <==> ValidProfile(s, namespace, p)
    ensures forall x :: x in problems <==> ProfileIssue(s, namespace, p, x)
  {
    var names, duplicates := AddVolumes(p.volumes, {}, []);
    assert [] + p.volumes == p.volumes;
    problems := duplicates;
    ghost var seen := p.volumes;
    CheckedStart(s, namespace, p, names);
    for i := 0 to |p.uploaderRefs|
      invariant CheckedUpTo(s, namespace, p, i, seen, names, problems == [])
      invariant forall x :: x in problems <==> ReportedUpTo(s, namespace, p, i, seen, x)
    {
      var found, volumes := UploaderProblems(s, namespace, p.uploaderRefs[i], i, p.parameters);
      ghost var before, clean := names, problems == [];
      names, duplicates := AddVolumes(volumes, names, seen);
      ghost var reported := problems;
      problems := problems + found + duplicates;
      AllReported(s, namespace, p, i, seen, volumes, reported, found, duplicates);
      CheckedStep(s, namespace, p, i, seen, before, clean, volumes, names, found == [], duplicates == []);
      seen := seen + volumes;
    }
    assert p.uploaderRefs[..|p.uploaderRefs|] == p.uploaderRefs;
    assert forall x :: x in problems <==> ReportedUpTo(s, namespace, p, |p.uploaderRefs|, seen, x);
    var wrong := ScannerProblems(p.scanners);
    problems := problems + wrong;
  }

  // ----- searches -----

  predicate ValidSearch(s: Store, namespace: string, x: Search) {
    && FromReference(s, CrawlerKind, namespace, x.crawlerRef).Ok?
    && P.Satisfies(x.crawlerRef.parameters, FromReference(s, CrawlerKind, namespace, x.crawlerRef).value.parameters)
    && NoParents(x.crawlerRef.parameters)
  }

  datatype SearchProblem =
    | CrawlerInvalidKind | CrawlerNotFound
    | CrawlerParameterMissing(name: string) | CrawlerParameterFromParent(index: nat)

  function FoundCrawler(s: Store, namespace: string, ref: Reference): Resource {
    match FromReference(s, CrawlerKind, namespace, ref) case Ok(d) => d case Err(_) => EMPTY_RESOURCE
  }

  /** When a problem with a search is reported. */
  ghost predicate SearchTrouble(s: Store, namespace: string, ref: Reference, y: SearchProblem) {
    match y
    case CrawlerInvalidKind => ref.kind !in {NoKind, CrawlerKind, ClusterCrawlerKind}
    case CrawlerNotFound =>
      || (ref.kind in {NoKind, CrawlerKind} && Id(CrawlerKind, Key(namespace, ref.name)) !in s.resources)
      || (ref.kind == ClusterCrawlerKind && Id(ClusterCrawlerKind, Key("", ref.name)) !in s.resources)
    case CrawlerParameterMissing(name) =>
      LacksParameter(ref.parameters, FoundCrawler(s, namespace, ref).parameters, name)
    case CrawlerParameterFromParent(i) => AsksParent(ref.parameters, i)
  }

  method ValidateSearch(s: Store, namespace: string, x: Search) returns (problems: seq<SearchProblem>)
    ensures problems == [] <==> ValidSearch(s, namespace, x)
    ensures forall y :: y in problems <==> SearchTrouble(s, namespace, x.crawlerRef, y)
    ensures CrawlerNotFound in problems <==> FromReference(s, CrawlerKind, namespace, x.crawlerRef) == Err(NotFound)
    ensures CrawlerInvalidKind in problems
        <==> FromReference(s, CrawlerKind, namespace, x.crawlerRef) == Err(InvalidKind)
  {
    problems := [];
    var defs: seq<P.Definition> := [];
    match FromReference(s, CrawlerKind, namespace, x.crawlerRef) {
      case Err(InvalidKind) => problems := problems + [CrawlerInvalidKind];
      case Err(NotFound) => problems := problems + [CrawlerNotFound];
      case Ok(crawler) => defs := crawler.parameters;
    }
    var missing := P.ValidateParameterReference(x.crawlerRef.parameters, defs);
    var unset := seq(|missing|, k requires 0 <= k < |missing| => CrawlerParameterMissing(missing[k]));
    forall n ensures CrawlerParameterMissing(n) in unset <==> n in missing {
      if k :| 0 <= k < |missing| && missing[k] == n { assert unset[k] == CrawlerParameterMissing(n); }
    }
    var fromParent := P.ValidateNoParentParameters(x.crawlerRef.parameters);
    var asked := seq(|fromParent|, k requires 0 <= k < |fromParent| => CrawlerParameterFromParent(fromParent[k]));
    forall n ensures CrawlerParameterFromParent(n) in asked <==> n in fromParent {
      if k :| 0 <= k < |fromParent| && fromParent[k] == n { assert asked[k] == CrawlerParameterFromParent(n); }
    }
    problems := problems + unset + asked;
  }

  /** Once set, the service account of a search cannot change. */
  predicate ServiceAccountKept(before: Search, after: Search) {
    before.serviceAccount == "" || before.serviceAccount == after.serviceAccount
  }

  /** An update is allowed if the service account is kept and the new search is valid. */
  method ValidateUpdateSearch(s: Store, namespace: string, before: Search, after: Search) returns (allowed: bool)
    ensures allowed <==> ServiceAccountKept(before, after) && ValidSearch(s, namespace, after)
    ensures before.serviceAccount != "" && before.serviceAccount != after.serviceAccount ==> !allowed
    ensures before.serviceAccount == "" || before.serviceAccount == after.serviceAccount ==>
      (allowed <==> forall y :: !SearchTrouble(s, namespace, after.crawlerRef, y))
  {
    if before.serviceAccount != "" && before.serviceAccount != after.serviceAccount {
      return false;
    }
    var problems := ValidateSearch(s, namespace, after);
    allowed := problems == [];
    if problems != [] { assert problems[0] in problems; }
  }

  // ----- listing -----

  /** The empty namespace lists every namespace. */
  predicate Lists(key: Key, namespace: string) { namespace == "" || key.namespace == namespace }

  /** The listed objects, in any order. */
  method List<T>(stored: map<Key, T>, namespace: string) returns (items: seq<(Key, T)>)
    ensures forall k, t :: (k, t) in items <==> k in stored && stored[k] == t && Lists(k, namespace)
  {
    items := [];
    var rest := stored.Keys;
    while rest != {}
      invariant rest <= stored.Keys
      invariant forall k, t :: (k, t) in items <==> k in stored && k !in rest && stored[k] == t && Lists(k, namespace)
      decreases |rest|
    {
      var k :| k in rest;
      if namespace == "" || k.namespace == namespace {
        items := items + [(k, stored[k])];
      }
      rest := rest - {k};
    }
  }

  // ----- deletion -----

  /** Some pipeline that the deletion check of a downloader can see refers to it. */
  predicate DownloaderInUse(s: Store, id: Id) {
    exists k :: k in s.pipelines && Lists(k, id.key.namespace) && RefMatches(s.pipelines[k].downloaderRef, id)
  }

  /** The lookup of dependants ends with the first one, which is enough to refuse a deletion. */
  method DependantPipelines(s: Store, id: Id) returns (dependants: seq<Key>)
    ensures dependants != [] <==> DownloaderInUse(s, id)
    ensures forall k :: k in dependants ==> k in s.pipelines && RefMatches(s.pipelines[k].downloaderRef, id)
  {
    var items := List(s.pipelines, id.key.namespace);
    dependants := [];
    for i := 0 to |items|
      invariant dependants == []
      invariant forall j :: 0 <= j < i ==> !RefMatches(items[j].1.downloaderRef, id)
    {
      if RefMatches(items[i].1.downloaderRef, id) {
        assert (items[i].0, items[i].1) in items;
        return [items[i].0];
      }
    }
    forall k | k in s.pipelines && Lists(k, id.key.namespace) ensures !RefMatches(s.pipelines[k].downloaderRef, id) {
      assert (k, s.pipelines[k]) in items;
    }
  }

  predicate SearchUses(s: Store, id: Id) {
    exists k :: k in s.searches && Lists(k, id.key.namespace) && RefMatches(s.searches[k].crawlerRef, id)
  }

  predicate CronSearchUses(s: Store, id: Id) {
    exists k :: k in s.cronSearches && Lists(k, id.key.namespace) && RefMatches(s.cronSearches[k], id)
  }

  predicate CrawlerInUse(s: Store, id: Id) { SearchUses(s, id) || CronSearchUses(s, id) }

  method DependantSearches(s: Store, id: Id) returns (dependants: seq<Key>)
    ensures dependants != [] <==> SearchUses(s, id)
    ensures forall k :: k in dependants ==> k in s.searches && RefMatches(s.searches[k].crawlerRef, id)
  {
    var items := List(s.searches, id.key.namespace);
    dependants := [];
    for i := 0 to |items|
      invariant dependants == []
      invariant forall j :: 0 <= j < i ==> !RefMatches(items[j].1.crawlerRef, id)
    {
      if RefMatches(items[i].1.crawlerRef, id) {
        assert (items[i].0, items[i].1) in items;
        return [items[i].0];
      }
    }
    forall k | k in s.searches && Lists(k, id.key.namespace) ensures !RefMatches(s.searches[k].crawlerRef, id) {
      assert (k, s.searches[k]) in items;
    }
  }

  method DependantCronSearches(s: Store, id: Id) returns (dependants: seq<Key>)
    ensures dependants != [] <==> CronSearchUses(s, id)
    ensures forall k :: k in dependants ==> k in s.cronSearches && RefMatches(s.cronSearches[k], id)
  {
    var items := List(s.cronSearches, id.key.namespace);
    dependants := [];
    for i := 0 to |items|
      invariant dependants == []
      invariant forall j :: 0 <= j < i ==> !RefMatches(items[j].1, id)
    {
      if RefMatches(items[i].1, id) {
        assert (items[i].0, items[i].1) in items;
        return [items[i].0];
      }
    }
    forall k | k in s.cronSearches && Lists(k, id.key.namespace) ensures !RefMatches(s.cronSearches[k], id) {
      assert (k, s.cronSearches[k]) in items;
    }
  }

  method ValidateDeleteDownloader(s: Store, id: Id) returns (allowed: bool)
    ensures allowed <==> !DownloaderInUse(s, id)
    ensures allowed <==> forall k :: k in s.pipelines && (id.key.namespace == "" || k.namespace == id.key.namespace) ==>
      s.pipelines[k].downloaderRef.name != id.key.name || s.pipelines[k].downloaderRef.kind != id.kind
  {
    var pipelines := DependantPipelines(s, id);
    allowed := |pipelines| == 0;
  }

  method ValidateDeleteCrawler(s: Store, id: Id) returns (allowed: bool)
    ensures allowed <==> !CrawlerInUse(s, id)
    ensures allowed <==>
      && (forall k :: k in s.searches && (id.key.namespace == "" || k.namespace == id.key.namespace) ==>
        s.searches[k].crawlerRef.name != id.key.name || s.searches[k].crawlerRef.kind != id.kind)
      && (forall k :: k in s.cronSearches && (id.key.namespace == "" || k.namespace == id.key.namespace) ==>
        s.cronSearches[k].name != id.key.name || s.cronSearches[k].kind != id.kind)
  {
    var searches := DependantSearches(s, id);
    if |searches| > 0 {
      return false;
    }
    var cronSearches := DependantCronSearches(s, id);
    allowed := |cronSearches| == 0;
  }

  predicate RefersToUploader(p: Profile, id: Id) { exists ref :: ref in p.uploaderRefs && RefMatches(ref, id) }

  predicate UploaderInUse(s: Store, id: Id) {
    exists k :: k in s.profiles && Lists(k, id.key.namespace) && RefersToUploader(s.profiles[k], id)
  }

  /** All profiles that refer to an uploader, each once. */
  method DependantProfiles(s: Store, id: Id) returns (profiles: seq<(Key, Profile)>)
    ensures forall k, p :: (k, p) in profiles <==>
      k in s.profiles && s.profiles[k] == p && Lists(k, id.key.namespace) && RefersToUploader(p, id)
    ensures profiles != [] <==> UploaderInUse(s, id)
  {
    var items := List(s.profiles, id.key.namespace);
    profiles := [];
    for i := 0 to |items|
      invariant forall x :: x in profiles <==> x in items[..i] && RefersToUploader(x.1, id)
    {
      assert items[..i + 1] == items[..i] + [items[i]];
      var refs := items[i].1.uploaderRefs;
      var matched := false;
      for j := 0 to |refs|
        invariant !matched && forall ref :: ref in refs[..j] ==> !RefMatches(ref, id)
      {
        assert refs[..j + 1] == refs[..j] + [refs[j]];
        if RefMatches(refs[j], id) {
          matched := true;
          break;
        }
      }
      assert refs[..|refs|] == refs;
      if matched {
        profiles := profiles + [items[i]];
      }
    }
    assert items[..|items|] == items;
    if profiles != [] {
      assert (profiles[0].0, profiles[0].1) in profiles;
    }
    if UploaderInUse(s, id) {
      var k :| k in s.profiles && Lists(k, id.key.namespace) && RefersToUploader(s.profiles[k], id);
      assert (k, s.profiles[k]) in profiles;
    }
  }

  method ValidateDeleteUploader(s: Store, id: Id) returns (allowed: bool)
    ensures allowed <==> !UploaderInUse(s, id)
    ensures allowed <==> forall k, ref ::
      && k in s.profiles && (id.key.namespace == "" || k.namespace == id.key.namespace)
      && ref in s.profiles[k].uploaderRefs ==>
      ref.name != id.key.name || ref.kind != id.kind
  {
    var profiles := DependantProfiles(s, id);
    allowed := |profiles| == 0;
  }

  /** Some pipeline of the profile's namespace refers to it by name, whatever the kind it states. */
  predicate ProfileInUse(s: Store, key: Key) {
    exists k :: k in s.pipelines && k.namespace == key.namespace && s.pipelines[k].profileRef.name == key.name
  }

  /** All pipelines that refer to a profile. */
  method PipelineReferences(s: Store, key: Key) returns (pipelines: seq<(Key, Pipeline)>)
    ensures forall k, p :: (k, p) in pipelines <==>
      k in s.pipelines && s.pipelines[k] == p && k.namespace == key.namespace && p.profileRef.name == key.name
    ensures pipelines != [] <==> ProfileInUse(s, key)
  {
    var items := List(s.pipelines, key.namespace);
    pipelines := [];
    for i := 0 to |items|
      invariant forall x :: x in pipelines <==>
        x in items[..i] && x.1.profileRef.name == key.name && x.0.namespace == key.namespace
    {
      assert items[..i + 1] == items[..i] + [items[i]];
      if items[i].1.profileRef.name == key.name && items[i].0.namespace == key.namespace {
        pipelines := pipelines + [items[i]];
      }
    }
    assert items[..|items|] == items;
    if pipelines != [] {
      assert (pipelines[0].0, pipelines[0].1) in pipelines;
    }
    if ProfileInUse(s, key) {
      var k :| k in s.pipelines && k.namespace == key.namespace && s.pipelines[k].profileRef.name == key.name;
      assert (k, s.pipelines[k]) in pipelines;
    }
  }

  method ValidateDeleteProfile(s: Store, key: Key) returns (allowed: bool)
    ensures allowed <==> !ProfileInUse(s, key)
  {
    var pipelines := PipelineReferences(s, key);
    allowed := |pipelines| == 0;
  }

  /** The identity of an object of the given kind or its cluster kind; only the latter has no namespace. */
  ghost predicate ProperId(id: Id, kind: Kind, clusterKind: Kind) {
    (id.kind == kind && id.key.namespace != "") || (id.kind == clusterKind && id.key.namespace == "")
  }

  /** For references that state their kind, a deletion is refused exactly if some stored reference finds the
      very object. */
  lemma RefusedIffReferred(s: Store, id: Id)
    requires ProperId(id, DownloaderKind, ClusterDownloaderKind)
    requires forall k :: k in s.pipelines ==> s.pipelines[k].downloaderRef.kind != NoKind
    ensures DownloaderInUse(s, id) <==>
      exists k :: k in s.pipelines && Target(DownloaderKind, k.namespace, s.pipelines[k].downloaderRef) == Some(id)
  {
  }

  lemma CrawlerRefusedIffReferred(s: Store, id: Id)
    requires ProperId(id, CrawlerKind, ClusterCrawlerKind)
    requires forall k :: k in s.searches ==> s.searches[k].crawlerRef.kind != NoKind
    requires forall k :: k in s.cronSearches ==> s.cronSearches[k].kind != NoKind
    ensures CrawlerInUse(s, id) <==>
      || (exists k :: k in s.searches && Target(CrawlerKind, k.namespace, s.searches[k].crawlerRef) == Some(id))
      || (exists k :: k in s.cronSearches && Target(CrawlerKind, k.namespace, s.cronSearches[k]) == Some(id))
  {
  }

  lemma UploaderRefusedIffReferred(s: Store, id: Id)
    requires ProperId(id, UploaderKind, ClusterUploaderKind)
    requires forall k, ref :: k in s.profiles && ref in s.profiles[k].uploaderRefs ==> ref.kind != NoKind
    ensures UploaderInUse(s, id) <==>
      exists k, ref :: k in s.profiles && ref in s.profiles[k].uploaderRefs
        && Target(UploaderKind, k.namespace, ref) == Some(id)
  {
    if UploaderInUse(s, id) {
      var k :| k in s.profiles && Lists(k, id.key.namespace) && RefersToUploader(s.profiles[k], id);
      var ref :| ref in s.profiles[k].uploaderRefs && RefMatches(ref, id);
      assert Target(UploaderKind, k.namespace, ref) == Some(id);
    }
  }

  // ----- update -----

  /** Whether settings give a value to every parameter that becomes newly required. */
  predicate SetsNew(settings: seq<P.Setting>, before: seq<P.Definition>, after: seq<P.Definition>) {
    forall d :: d in P.NewlyRequired(before, after) ==> P.Sets(settings, d.name)
  }

  /** Whether settings leave none of the required parameters unset. */
  method SetsAll(settings: seq<P.Setting>, required: seq<P.Definition>) returns (complete: bool)
    ensures complete <==> forall d :: d in required ==> P.Sets(settings, d.name)
  {
    var given, unset := P.ParseSetParameters(settings, required);
    complete := |unset| == 0;
    if |unset| > 0 { assert unset[0] in unset; }
    assert complete ==> forall d :: d in required ==> d !in unset;
  }

  /** The pipelines of a profile set all its newly required parameters. */
  predicate PipelinesSetNew(s: Store, key: Key, before: Profile, after: Profile) {
    forall k :: k in s.pipelines && k.namespace == key.namespace && s.pipelines[k].profileRef.name == key.name ==>
      SetsNew(s.pipelines[k].profileRef.parameters, before.parameters, after.parameters)
  }

  lemma PipelinesSetNewIff(s: Store, key: Key, before: Profile, after: Profile)
    ensures PipelinesSetNew(s, key, before, after) <==> forall k, d ::
      k in s.pipelines && k.namespace == key.namespace && s.pipelines[k].profileRef.name == key.name
      && d in after.parameters && d.default.None? && (forall b :: b in before.parameters ==> b.name != d.name) ==>
      exists t :: t in s.pipelines[k].profileRef.parameters && t.name == d.name
  {
    forall d { P.NewlyRequiredMember(before.parameters, after.parameters, d); }
  }

  method ValidateUpdateProfile(s: Store, key: Key, before: Profile, after: Profile) returns (allowed: bool)
    ensures allowed <==> ValidProfile(s, key.namespace, after) && PipelinesSetNew(s, key, before, after)
  {
    var problems := ValidateProfile(s, key.namespace, after);
    if problems != [] {
      return false;
    }
    var required := P.ParseNewRequiredParameters(before.parameters, after.parameters);
    var dependants := PipelineReferences(s, key);
    for i := 0 to |dependants|
      invariant forall j :: 0 <= j < i ==>
        SetsNew(dependants[j].1.profileRef.parameters, before.parameters, after.parameters)
    {
      assert (dependants[i].0, dependants[i].1) in dependants;
      var complete := SetsAll(dependants[i].1.profileRef.parameters, required);
      if !complete {
        return false;
      }
    }
    forall k | k in s.pipelines && k.namespace == key.namespace && s.pipelines[k].profileRef.name == key.name
      ensures SetsNew(s.pipelines[k].profileRef.parameters, before.parameters, after.parameters)
    {
      assert (k, s.pipelines[k]) in dependants;
    }
    allowed := true;
  }

  /** The references of profiles to an uploader set all its newly required parameters. */
  predicate ProfilesSetNew(s: Store, id: Id, before: Resource, after: Resource) {
    forall k, ref ::
      k in s.profiles && Lists(k, id.key.namespace) && ref in s.profiles[k].uploaderRefs && RefMatches(ref, id) ==>
      SetsNew(ref.parameters, before.parameters, after.parameters)
  }

  method ValidateUpdateUploader(s: Store, id: Id, before: Resource, after: Resource) returns (allowed: bool)
    ensures allowed <==> ProfilesSetNew(s, id, before, after) && ValidContainer(after.container)
    ensures allowed <==> |after.container.name| <= 54 && after.container.command != [] && forall k, ref, d ::
      k in s.profiles && (id.key.namespace == "" || k.namespace == id.key.namespace)
      && ref in s.profiles[k].uploaderRefs && ref.name == id.key.name && ref.kind == id.kind
      && d in after.parameters && d.default.None? && (forall b :: b in before.parameters ==> b.name != d.name) ==>
      exists t :: t in ref.parameters && t.name == d.name
  {
    var required := P.ParseNewRequiredParameters(before.parameters, after.parameters);
    var dependants := DependantProfiles(s, id);
    for i := 0 to |dependants|
      invariant forall j, ref :: 0 <= j < i && ref in dependants[j].1.uploaderRefs && RefMatches(ref, id) ==>
        SetsNew(ref.parameters, before.parameters, after.parameters)
    {
      var refs := dependants[i].1.uploaderRefs;
      assert (dependants[i].0, dependants[i].1) in dependants;
      for j := 0 to |refs|
        invariant forall m :: 0 <= m < j && RefMatches(refs[m], id) ==>
          SetsNew(refs[m].parameters, before.parameters, after.parameters)
      {
        if !RefMatches(refs[j], id) {
          continue;
        }
        var complete := SetsAll(refs[j].parameters, required);
        if !complete {
          assert refs[j] in refs;
          return false;
        }
      }
    }
    forall k, ref | k in s.profiles && Lists(k, id.key.namespace) && ref in s.profiles[k].uploaderRefs
      && RefMatches(ref, id)
      ensures SetsNew(ref.parameters, before.parameters, after.parameters)
    {
      assert RefersToUploader(s.profiles[k], id);
      assert (k, s.profiles[k]) in dependants;
    }
    var problems := ValidateContainerDefinition(after.container);
    allowed := |problems| == 0;
  }
}
