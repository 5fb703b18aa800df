/**
 Runs of admitted requests: the API server asks the webhooks about one request at a time, stores the
 object or forgets the request, and goes on. The validators' verdicts are those that the methods of
 Admission compute.
 */
module AdmissionRuns {
  import opened Wrappers
  import opened Admission
  import P = Parameters
  import C = Containers
  import ScanPod
  import Barrier

  /** A put creates the object or replaces the stored one. */
  datatype Request =
    | PutResource(id: Id, resource: Resource) | DeleteResource(id: Id)
    | PutProfile(key: Key, profile: Profile) | DeleteProfile(key: Key)
    | PutPipeline(key: Key, pipeline: Pipeline) | DeletePipeline(key: Key)
    | PutSearch(key: Key, search: Search) | DeleteSearch(key: Key)
    | PutCronSearch(key: Key, crawlerRef: Reference) | DeleteCronSearch(key: Key)
    | PutServiceAccount(key: Key) | DeleteServiceAccount(key: Key)

  /** The kinds and scopes that the API server knows. */
  predicate WellFormed(id: Id) {
    || id.kind in {DownloaderKind, CrawlerKind, UploaderKind}
    || (id.kind in {ClusterDownloaderKind, ClusterCrawlerKind, ClusterUploaderKind} && id.key.namespace == "")
  }

  predicate IsUploader(id: Id) { id.kind == UploaderKind || id.kind == ClusterUploaderKind }

  predicate InUse(s: Store, id: Id) {
    match id.kind
    case DownloaderKind | ClusterDownloaderKind => DownloaderInUse(s, id)
    case CrawlerKind | ClusterCrawlerKind => CrawlerInUse(s, id)
    case UploaderKind | ClusterUploaderKind => UploaderInUse(s, id)
    case _ => false
  }

  /** Whether the request passes admission. Updates of downloaders and crawlers are let through more
      often than the webhooks let them: those check the parameters of the first dependant they find. */
  predicate Admits(s: Store, r: Request) {
    match r
    case PutResource(id, after) =>
      WellFormed(id) && ValidContainer(after.container)
      && (IsUploader(id) && id in s.resources ==> ProfilesSetNew(s, id, s.resources[id], after))
    case DeleteResource(id) => id in s.resources && !InUse(s, id)
    case PutProfile(key, after) =>
      ValidProfile(s, key.namespace, after)
      && (key in s.profiles ==> PipelinesSetNew(s, key, s.profiles[key], after))
    case DeleteProfile(key) => key in s.profiles && !ProfileInUse(s, key)
    case PutPipeline(key, pipeline) => ValidPipeline(s, key, DefaultedPipeline(pipeline))
    case PutSearch(key, search) =>
      ValidSearch(s, key.namespace, DefaultedSearch(search))
      && (key in s.searches ==> ServiceAccountKept(s.searches[key], search))
    case _ => true
  }

  function Stored(s: Store, r: Request): Store {
    match r
    case PutResource(id, resource) => s.(resources := s.resources[id := resource])
    case DeleteResource(id) => s.(resources := s.resources - {id})
    case PutProfile(key, profile) => s.(profiles := s.profiles[key := profile])
    case DeleteProfile(key) => s.(profiles := s.profiles - {key})
    case PutPipeline(key, pipeline) => s.(pipelines := s.pipelines[key := DefaultedPipeline(pipeline)])
    case DeletePipeline(key) => s.(pipelines := s.pipelines - {key})
    case PutSearch(key, search) => s.(searches := s.searches[key := DefaultedSearch(search)])
    case DeleteSearch(key) => s.(searches := s.searches - {key})
    case PutCronSearch(key, ref) => s.(cronSearches := s.cronSearches[key := DefaultKind(ref, CrawlerKind)])
    case DeleteCronSearch(key) => s.(cronSearches := s.cronSearches - {key})
    case PutServiceAccount(key) => s.(serviceAccounts := s.serviceAccounts + {key})
    case DeleteServiceAccount(key) => s.(serviceAccounts := s.serviceAccounts - {key})
  }

  function Next(s: Store, r: Request): Store { if Admits(s, r) then Stored(s, r) else s }

  function Exec(s: Store, requests: seq<Request>): Store {
    if requests == [] then s
    else Next(Exec(s, requests[..|requests| - 1]), requests[|requests| - 1])
  }

  const EMPTY := Store(map[], map[], map[], map[], map[], {})

  // ----- what holds of every stored object -----

  /** The reference has a definite kind and stands for a stored object. */
  predicate Resolves(s: Store, kind: Kind, namespace: string, ref: Reference) {
    ref.kind != NoKind && FromReference(s, kind, namespace, ref).Ok?
  }

  predicate PipelineResolves(s: Store, namespace: string, p: Pipeline) {
    && p.profileRef.kind != NoKind && ProfileFromReference(s, namespace, p.profileRef).Ok?
    && Resolves(s, DownloaderKind, namespace, p.downloaderRef)
  }

  predicate PipelinesResolve(s: Store) {
    forall k :: k in s.pipelines ==> PipelineResolves(s, k.namespace, s.pipelines[k])
  }

  predicate SearchesResolve(s: Store) {
    forall k :: k in s.searches ==> Resolves(s, CrawlerKind, k.namespace, s.searches[k].crawlerRef)
  }

  /** Uploader references of definite kind stand for stored uploaders; profiles are not defaulted. */
  predicate UploadersResolve(s: Store) {
    forall k, ref :: k in s.profiles && ref in s.profiles[k].uploaderRefs && ref.kind != NoKind ==>
      Resolves(s, UploaderKind, k.namespace, ref)
  }

  predicate IdsWellFormed(s: Store) { forall id :: id in s.resources ==> WellFormed(id) }

  predicate ScannersHaveCommands(s: Store) {
    forall k, c :: k in s.profiles && c in s.profiles[k].scanners ==> c.container.command != []
  }

  predicate Inv(s: Store) {
    PipelinesResolve(s) && SearchesResolve(s) && UploadersResolve(s) && IdsWellFormed(s) && ScannersHaveCommands(s)
  }

  /** A search keeps the service account that it once has, as long as it is not deleted: over any history, an
      update cannot change it. */
  lemma {:induction false} ServiceAccountStays(s: Store, requests: seq<Request>, key: Key)
    requires key in s.searches && s.searches[key].serviceAccount != "" && DeleteSearch(key) !in requests
    ensures var after := Exec(s, requests);
      key in after.searches && after.searches[key].serviceAccount == s.searches[key].serviceAccount
  {
    if requests != [] {
      var k := |requests| - 1;
      assert requests == requests[..k] + [requests[k]];
      ServiceAccountStays(s, requests[..k], key);
      UpdateKeepsServiceAccount(Exec(s, requests[..k]), requests[k], key);
    }
  }

  lemma UpdateKeepsServiceAccount(s: Store, r: Request, key: Key)
    requires key in s.searches && s.searches[key].serviceAccount != "" && r != DeleteSearch(key)
    ensures key in Next(s, r).searches && Next(s, r).searches[key].serviceAccount == s.searches[key].serviceAccount
  {
  }

  // ----- every request keeps it -----

  /** A reference of definite kind survives the deletion of anything it does not match. */
  lemma DeletionSpares(s: Store, id: Id, kind: Kind, namespace: string, ref: Reference)
    requires Resolves(s, kind, namespace, ref) && IdsWellFormed(s)
    requires kind in {DownloaderKind, CrawlerKind, UploaderKind}
    requires id in s.resources
    requires Lists(Key(namespace, ref.name), id.key.namespace) ==> !RefMatches(ref, id)
    ensures Resolves(Stored(s, DeleteResource(id)), kind, namespace, ref)
  {
    if Target(kind, namespace, ref) == Some(id) {
      DefaultKeepsTarget(kind, namespace, ref, id);
      assert false;
    }
  }

  lemma DeletionKeepsUploaders(s: Store, id: Id)
    requires Inv(s) && id in s.resources && !InUse(s, id)
    ensures UploadersResolve(Stored(s, DeleteResource(id)))
  {
    var s' := Stored(s, DeleteResource(id));
    forall k, ref | k in s'.profiles && ref in s'.profiles[k].uploaderRefs && ref.kind != NoKind
      ensures Resolves(s', UploaderKind, k.namespace, ref)
    {
      if Lists(k, id.key.namespace) && RefMatches(ref, id) {
        assert RefersToUploader(s.profiles[k], id);
        DefaultKeepsTarget(UploaderKind, k.namespace, ref, id);
      }
      DeletionSpares(s, id, UploaderKind, k.namespace, ref);
    }
  }

  /** Only a deletion can take a resource away from a reference. */
  lemma OthersSpare(s: Store, r: Request, kind: Kind, namespace: string, ref: Reference)
    requires Resolves(s, kind, namespace, ref) && !r.DeleteResource?
    ensures Resolves(Stored(s, r), kind, namespace, ref)
  {
  }

  lemma ProfileKept(s: Store, r: Request, k: Key)
    requires k in s.pipelines && PipelineResolves(s, k.namespace, s.pipelines[k]) && Admits(s, r)
    ensures ProfileFromReference(Stored(s, r), k.namespace, s.pipelines[k].profileRef).Ok?
  {
    if r.DeleteProfile? {
      assert Key(k.namespace, s.pipelines[k].profileRef.name) != r.key;
    }
  }

  /** A pipeline that the request does not put keeps its references. */
  lemma PipelineKept(s: Store, r: Request, k: Key)
    requires Inv(s) && Admits(s, r) && k in s.pipelines && !(r.PutPipeline? && r.key == k)
    ensures PipelineResolves(Stored(s, r), k.namespace, s.pipelines[k])
  {
    assert PipelineResolves(s, k.namespace, s.pipelines[k]);
    ProfileKept(s, r, k);
    if r.DeleteResource? {
      DeletionSpares(s, r.id, DownloaderKind, k.namespace, s.pipelines[k].downloaderRef);
    } else {
      OthersSpare(s, r, DownloaderKind, k.namespace, s.pipelines[k].downloaderRef);
    }
  }

  lemma AdmittedPipelineResolves(s: Store, key: Key, pipeline: Pipeline)
    requires Admits(s, PutPipeline(key, pipeline))
    ensures PipelineResolves(Stored(s, PutPipeline(key, pipeline)), key.namespace, DefaultedPipeline(pipeline))
  {
  }

  lemma StepKeepsPipelines(s: Store, r: Request)
    requires Inv(s) && Admits(s, r)
    ensures PipelinesResolve(Stored(s, r))
  {
    var s' := Stored(s, r);
    forall k | k in s'.pipelines ensures PipelineResolves(s', k.namespace, s'.pipelines[k]) {
      if r.PutPipeline? && r.key == k {
        AdmittedPipelineResolves(s, k, r.pipeline);
      } else {
        PipelineKept(s, r, k);
      }
    }
  }

  /** A search that the request does not put keeps its reference. */
  lemma SearchKept(s: Store, r: Request, k: Key)
    requires Inv(s) && Admits(s, r) && k in s.searches && !(r.PutSearch? && r.key == k)
    ensures Resolves(Stored(s, r), CrawlerKind, k.namespace, s.searches[k].crawlerRef)
  {
    if r.DeleteResource? {
      DeletionSpares(s, r.id, CrawlerKind, k.namespace, s.searches[k].crawlerRef);
    } else {
      OthersSpare(s, r, CrawlerKind, k.namespace, s.searches[k].crawlerRef);
    }
  }

  lemma StepKeepsSearches(s: Store, r: Request)
    requires Inv(s) && Admits(s, r)
    ensures SearchesResolve(Stored(s, r))
  {
    var s' := Stored(s, r);
    forall k | k in s'.searches ensures Resolves(s', CrawlerKind, k.namespace, s'.searches[k].crawlerRef) {
      if !(r.PutSearch? && r.key == k) {
        SearchKept(s, r, k);
      }
    }
  }

  lemma StepKeepsUploaders(s: Store, r: Request)
    requires Inv(s) && Admits(s, r)
    ensures UploadersResolve(Stored(s, r))
  {
    if r.DeleteResource? {
      DeletionKeepsUploaders(s, r.id);
    } else {
      var s' := Stored(s, r);
      forall k, ref | k in s'.profiles && ref in s'.profiles[k].uploaderRefs && ref.kind != NoKind
        ensures Resolves(s', UploaderKind, k.namespace, ref)
      {
        if r.PutProfile? && r.key == k {
          assert ValidUploaderRef(s, k.namespace, ref, r.profile.parameters);
        } else {
          OthersSpare(s, r, UploaderKind, k.namespace, ref);
        }
      }
    }
  }

  lemma InvStep(s: Store, r: Request)
    requires Inv(s)
    ensures Inv(Next(s, r))
  {
    if Admits(s, r) {
      StepKeepsPipelines(s, r);
      StepKeepsSearches(s, r);
      StepKeepsUploaders(s, r);
    }
  }

  lemma {:induction false} InvExec(s: Store, requests: seq<Request>)
    requires Inv(s)
    ensures Inv(Exec(s, requests))
  {
    if requests != [] {
      var k := |requests| - 1;
      InvExec(s, requests[..k]);
      InvStep(Exec(s, requests[..k]), requests[k]);
    }
  }

  /** Referential integrity: over any history of requests, no stored pipeline's profile or downloader
      reference and no stored search's crawler reference ever dangles, for both scopes; nor does a
      profile's uploader reference that states its kind. */
  lemma ReferencesNeverDangle(requests: seq<Request>)
    ensures PipelinesResolve(Exec(EMPTY, requests))
    ensures SearchesResolve(Exec(EMPTY, requests))
    ensures UploadersResolve(Exec(EMPTY, requests))
  {
    InvExec(EMPTY, requests);
  }

  // ----- uploader references without a kind -----

  /** A profile refers to the uploader without stating the kind. */
  predicate HasUnstatedRef(s: Store, id: Id) {
    exists k, ref :: k in s.profiles && ref in s.profiles[k].uploaderRefs
      && ref.kind == NoKind && id == Id(UploaderKind, Key(k.namespace, ref.name))
  }

  /** Some reference that stood for a stored uploader no longer does. */
  predicate Breaks(s: Store, s': Store) {
    exists k, ref :: k in s.profiles && ref in s.profiles[k].uploaderRefs
      && FromReference(s, UploaderKind, k.namespace, ref).Ok? && FromReference(s', UploaderKind, k.namespace, ref).Err?
  }

  lemma UnstatedRefBreaks(s: Store, id: Id)
    requires id in s.resources && HasUnstatedRef(s, id)
    ensures Breaks(s, Stored(s, DeleteResource(id)))
  {
    var s' := Stored(s, DeleteResource(id));
    var k, ref :| k in s.profiles && ref in s.profiles[k].uploaderRefs
      && ref.kind == NoKind && id == Id(UploaderKind, Key(k.namespace, ref.name));
    assert Target(UploaderKind, k.namespace, ref) == Some(id);
    assert FromReference(s, UploaderKind, k.namespace, ref).Ok?
      && FromReference(s', UploaderKind, k.namespace, ref).Err?;
  }

  /** An admitted deletion of an uploader breaks a profile if and only if some profile refers to the
      uploader without stating the kind: the deletion check compares kinds literally, and the manifest
      registers the profile defaulter, which would state it, for a resource that does not exist. */
  lemma UploaderDeletionBreaksIff(s: Store, id: Id)
    requires Inv(s) && IsUploader(id) && Admits(s, DeleteResource(id))
    ensures Breaks(s, Next(s, DeleteResource(id))) <==> HasUnstatedRef(s, id)
  {
    var s' := Stored(s, DeleteResource(id));
    if HasUnstatedRef(s, id) {
      UnstatedRefBreaks(s, id);
    } else if Breaks(s, s') {
      var k, ref :| k in s.profiles && ref in s.profiles[k].uploaderRefs
        && FromReference(s, UploaderKind, k.namespace, ref).Ok?
        && FromReference(s', UploaderKind, k.namespace, ref).Err?;
      DeletionKeepsUploaders(s, id);
      assert false;
    }
  }

  /** A history from the empty store: an uploader, a profile that refers to it without stating the kind, and
      the deletion of the uploader. All three are admitted, and the profile's reference dangles. */
  lemma UnstatedKindDangles(id: Id, uploader: Resource, key: Key, parameters: seq<P.Definition>)
    requires id.kind == UploaderKind && id.key.namespace == key.namespace && ValidContainer(uploader.container)
    requires uploader.parameters == [] && uploader.volumes == []
    ensures var ref := Reference(id.key.name, NoKind, []);
            var profile := Profile(parameters, [], [], [ref]);
            var s := Exec(EMPTY, [PutResource(id, uploader), PutProfile(key, profile)]);
            && Admits(EMPTY, PutResource(id, uploader)) && key in s.profiles && HasUnstatedRef(s, id)
            && Admits(s, DeleteResource(id))
            && FromReference(s, UploaderKind, key.namespace, ref).Ok?
            && FromReference(Next(s, DeleteResource(id)), UploaderKind, key.namespace, ref) == Err(NotFound)
  {
    var ref := Reference(id.key.name, NoKind, []);
    var profile := Profile(parameters, [], [], [ref]);
    var r1, r2 := PutResource(id, uploader), PutProfile(key, profile);
    var s1 := Stored(EMPTY, r1);
    assert [r1, r2][..1] == [r1] && [r1][..0] == [] && Exec(EMPTY, []) == EMPTY;
    assert Exec(EMPTY, [r1]) == s1;
    assert UploaderVolumes(s1, key.namespace, [ref]) == [] by { assert [ref][..0] == []; }
    assert ValidUploaderRef(s1, key.namespace, ref, parameters);
    assert ValidProfile(s1, key.namespace, profile);
    var s := Stored(s1, r2);
    assert Exec(EMPTY, [r1, r2]) == s;
    assert ref in s.profiles[key].uploaderRefs;
    assert s.profiles == map[key := profile];
  }

  // ----- required parameters -----

  /** The stored pipelines of a profile set its required parameters. */
  predicate PipelinesSatisfy(s: Store) {
    forall k :: k in s.pipelines && ProfileFromReference(s, k.namespace, s.pipelines[k].profileRef).Ok? ==>
      P.Satisfies(s.pipelines[k].profileRef.parameters,
                  ProfileFromReference(s, k.namespace, s.pipelines[k].profileRef).value.parameters)
  }

  /** The uploader references of definite kind set the required parameters of their uploaders. */
  predicate UploaderRefsSatisfy(s: Store) {
    forall k, ref ::
      (k in s.profiles && ref in s.profiles[k].uploaderRefs && ref.kind != NoKind
       && FromReference(s, UploaderKind, k.namespace, ref).Ok?)
      ==> P.Satisfies(ref.parameters, FromReference(s, UploaderKind, k.namespace, ref).value.parameters)
  }

  /** The request takes the default from no parameter of a stored profile or uploader. */
  ghost predicate KeepsDefaults(s: Store, r: Request) {
    match r
    case PutProfile(key, after) => key in s.profiles ==>
      forall n :: !P.LostDefault(s.profiles[key].parameters, after.parameters, n)
    case PutResource(id, after) => IsUploader(id) && id in s.resources ==>
      forall n :: !P.LostDefault(s.resources[id].parameters, after.parameters, n)
    case _ => true
  }

  ghost predicate AllKeepDefaults(s: Store, requests: seq<Request>) {
    forall i :: 0 <= i < |requests| ==> KeepsDefaults(Exec(s, requests[..i]), requests[i])
  }

  /** After an admitted update of a profile, a pipeline that refers to it still sets all required
      parameters if and only if it sets those that lost their default. */
  lemma ProfileUpdateKeepsIff(s: Store, key: Key, after: Profile, k: Key)
    requires Inv(s) && PipelinesSatisfy(s)
    requires key in s.profiles && Admits(s, PutProfile(key, after))
    requires k in s.pipelines && k.namespace == key.namespace && s.pipelines[k].profileRef.name == key.name
    ensures var settings := s.pipelines[k].profileRef.parameters;
            P.Satisfies(settings, after.parameters) <==>
              forall n :: P.LostDefault(s.profiles[key].parameters, after.parameters, n) ==> P.Sets(settings, n)
  {
    assert PipelineResolves(s, k.namespace, s.pipelines[k]);
    assert Key(k.namespace, s.pipelines[k].profileRef.name) == key;
    assert SetsNew(s.pipelines[k].profileRef.parameters, s.profiles[key].parameters, after.parameters);
    P.UpdateKeepsReferences(s.profiles[key].parameters, after.parameters, s.pipelines[k].profileRef.parameters);
  }

  /** The same for an update of an uploader and the references to it that state its kind. */
  lemma UploaderUpdateKeepsIff(s: Store, id: Id, after: Resource, k: Key, ref: Reference)
    requires Inv(s) && UploaderRefsSatisfy(s)
    requires IsUploader(id) && id in s.resources && Admits(s, PutResource(id, after))
    requires k in s.profiles && ref in s.profiles[k].uploaderRefs && ref.kind != NoKind
    requires Target(UploaderKind, k.namespace, ref) == Some(id)
    ensures P.Satisfies(ref.parameters, after.parameters) <==>
      forall n :: P.LostDefault(s.resources[id].parameters, after.parameters, n) ==> P.Sets(ref.parameters, n)
  {
    DefaultKeepsTarget(UploaderKind, k.namespace, ref, id);
    assert Lists(k, id.key.namespace) && RefMatches(ref, id);
    assert SetsNew(ref.parameters, s.resources[id].parameters, after.parameters);
    P.UpdateKeepsReferences(s.resources[id].parameters, after.parameters, ref.parameters);
  }

  lemma ProfileUntouched(s: Store, r: Request, namespace: string, ref: Reference)
    requires !(r.PutProfile? && r.key == Key(namespace, ref.name))
        && ProfileFromReference(Stored(s, r), namespace, ref).Ok?
    ensures ProfileFromReference(Stored(s, r), namespace, ref) == ProfileFromReference(s, namespace, ref)
  {
  }

  /** A pipeline that the request does not put still sets the required parameters of its profile. */
  lemma PipelineStillSatisfies(s: Store, r: Request, k: Key)
    requires Inv(s) && PipelinesSatisfy(s) && KeepsDefaults(s, r) && Admits(s, r)
    requires k in s.pipelines && !(r.PutPipeline? && r.key == k)
    requires ProfileFromReference(Stored(s, r), k.namespace, s.pipelines[k].profileRef).Ok?
    ensures P.Satisfies(s.pipelines[k].profileRef.parameters,
                        ProfileFromReference(Stored(s, r), k.namespace, s.pipelines[k].profileRef).value.parameters)
  {
    assert PipelineResolves(s, k.namespace, s.pipelines[k]);
    if r.PutProfile? && r.key == Key(k.namespace, s.pipelines[k].profileRef.name) {
      ProfileUpdateKeepsIff(s, r.key, r.profile, k);
    } else {
      ProfileUntouched(s, r, k.namespace, s.pipelines[k].profileRef);
    }
  }

  lemma PipelinesSatisfyStep(s: Store, r: Request)
    requires Inv(s) && PipelinesSatisfy(s) && KeepsDefaults(s, r) && Admits(s, r)
    ensures PipelinesSatisfy(Stored(s, r))
  {
    var s' := Stored(s, r);
    forall k | k in s'.pipelines && ProfileFromReference(s', k.namespace, s'.pipelines[k].profileRef).Ok?
      ensures P.Satisfies(s'.pipelines[k].profileRef.parameters,
                          ProfileFromReference(s', k.namespace, s'.pipelines[k].profileRef).value.parameters)
    {
      if !(r.PutPipeline? && r.key == k) {
        PipelineStillSatisfies(s, r, k);
      }
    }
  }

  lemma UploaderRefsSatisfyStep(s: Store, r: Request)
    requires Inv(s) && UploaderRefsSatisfy(s) && KeepsDefaults(s, r) && Admits(s, r)
    ensures UploaderRefsSatisfy(Stored(s, r))
  {
    var s' := Stored(s, r);
    forall k, ref | k in s'.profiles && ref in s'.profiles[k].uploaderRefs && ref.kind != NoKind
      && FromReference(s', UploaderKind, k.namespace, ref).Ok?
      ensures P.Satisfies(ref.parameters, FromReference(s', UploaderKind, k.namespace, ref).value.parameters)
    {
      if r.PutProfile? && r.key == k {
        assert ValidUploaderRef(s, k.namespace, ref, r.profile.parameters);
      } else {
        assert Resolves(s, UploaderKind, k.namespace, ref);
        if r.PutResource? && Target(UploaderKind, k.namespace, ref) == Some(r.id) {
          assert IsUploader(r.id);
          UploaderUpdateKeepsIff(s, r.id, r.resource, k, ref);
        }
      }
    }
  }

  /** Over any history in which no parameter of a profile or uploader loses its default, every stored
      pipeline sets all required parameters of its profile, and every uploader reference that states
      its kind sets all required parameters of its uploader. */
  lemma {:induction false} ParametersStaySet(requests: seq<Request>)
    requires AllKeepDefaults(EMPTY, requests)
    ensures PipelinesSatisfy(Exec(EMPTY, requests)) && UploaderRefsSatisfy(Exec(EMPTY, requests))
  {
    if requests != [] {
      var k := |requests| - 1;
      forall i | 0 <= i < k ensures KeepsDefaults(Exec(EMPTY, requests[..k][..i]), requests[..k][i]) {
        assert requests[..k][..i] == requests[..i];
      }
      ParametersStaySet(requests[..k]);
      InvExec(EMPTY, requests[..k]);
      var s := Exec(EMPTY, requests[..k]);
      if Admits(s, requests[k]) {
        PipelinesSatisfyStep(s, requests[k]);
        UploaderRefsSatisfyStep(s, requests[k]);
      }
    }
  }

  // ----- from admission to the running pod -----

  /** The scanners that the controller includes for a stored pipeline whose profile it can read. */
  function ScannersOf(s: Store, key: Key): seq<C.Container>
    requires key in s.pipelines && ProfileFromReference(s, key.namespace, s.pipelines[key].profileRef).Ok?
  {
    var profile := ProfileFromReference(s, key.namespace, s.pipelines[key].profileRef).value;
    P.Selected(profile.scanners, profile.parameters, s.pipelines[key].profileRef.parameters)
  }

  /** What the controller builds from a pipeline when it has been admitted has at least one scanner,
      and each of them has a command. */
  lemma AdmittedPipelineHasScanners(requests: seq<Request>, key: Key, pipeline: Pipeline)
    requires Admits(Exec(EMPTY, requests), PutPipeline(key, pipeline))
    ensures var s := Next(Exec(EMPTY, requests), PutPipeline(key, pipeline));
            && key in s.pipelines && ProfileFromReference(s, key.namespace, s.pipelines[key].profileRef).Ok?
            && ScannersOf(s, key) != [] && forall c :: c in ScannersOf(s, key) ==> c.command != []
  {
    InvExec(EMPTY, requests);
    var s := Next(Exec(EMPTY, requests), PutPipeline(key, pipeline));
    var profile := ProfileFromReference(s, key.namespace, s.pipelines[key].profileRef).value;
    forall c | c in ScannersOf(s, key) ensures c.command != [] {
      P.SelectedMember(profile.scanners, profile.parameters, s.pipelines[key].profileRef.parameters, c);
    }
  }

  /** So the barrier of a pod built from an admitted pipeline opens: a run of the pod in which marks can
      be written and no wrapper is killed, continued until nothing ordinary is left to happen, has
      released every uploader. */
  lemma AdmittedBarrierOpens(requests: seq<Request>, key: Key, pipeline: Pipeline, i: ScanPod.Input,
    steps: seq<Barrier.Step>)
    requires Admits(Exec(EMPTY, requests), PutPipeline(key, pipeline))
    requires var s := Next(Exec(EMPTY, requests), PutPipeline(key, pipeline));
      && key in s.pipelines && ProfileFromReference(s, key.namespace, s.pipelines[key].profileRef).Ok?
      && i.scanners == ScannersOf(s, key)
    requires Barrier.KubernetesNames(i)
    requires var c := Barrier.ConfigOf(i);
      Barrier.GoodSteps(steps) && Barrier.Exec(c, Barrier.Start(c), steps).Some?
    requires var c := Barrier.ConfigOf(i); Barrier.Exhausted(c, Barrier.Exec(c, Barrier.Start(c), steps).value)
    ensures var c := Barrier.ConfigOf(i); Barrier.AllDone(Barrier.Exec(c, Barrier.Start(c), steps).value)
  {
    AdmittedPipelineHasScanners(requests, key, pipeline);
    Barrier.PodBarrierOpens(i, steps);
  }
}
