/**
 The life of pipelines and of the metrics finalizer (internal/controller/pipeline_controller.go).

 A reconcile reads the pipeline, then works with that copy: it may remove or add the metrics
 finalizer, create the scan pod, patch the status, or delete the pipeline. Between its read and
 its writes users, other controllers, the kubelet and the clock may act. The module models any
 number of pipelines in this way; patches are JSON merge patches computed from the copy that was
 read, addressed by name, and may fail.
 */
module PipelineLifecycle {
  import opened Wrappers
  import Tally

  datatype PodPhase = PodPending | PodRunning | PodSucceeded | PodFailed | PodUnknown

  datatype Phase = Unset | Downloading | Scanning | Uploading | Succeeded | Failed

  /** The conditions the controller writes, one per condition type. */
  datatype Condition = ScanPodCreated | CompletedSuccessfully | CompletedWithFailure

  datatype Status = Status(start: Option<int>, completion: Option<int>, phase: Phase, conditions: seq<Condition>)

  const NEW_STATUS := Status(None, None, Unset, [])

  datatype Finalizer = Metrics | Foreign

  datatype Labels = Labels(profile: string, downloader: string)

  datatype Spec = Spec(labels: Labels, maxLifetime: Option<int>, ttl: Option<int>)

  datatype Object = Object(
    uid: nat, spec: Spec, created: int, deleting: bool, finalizers: set<Finalizer>, status: Status)

  datatype Pod = Pod(phase: PodPhase, created: int)

  /** What a reconcile in flight holds. */
  datatype Progress =
    | Fetched(obj: Object)
    | HavePod(obj: Object, pod: Pod)
    | Recorded(obj: Object)         // post-completion metrics are up to date

  datatype Cluster = Cluster(
    objects: map<string, Object>,
    pods: map<string, Pod>,                    // keyed by the name of the pipeline
    reconciles: map<string, Progress>,         // at most one reconcile per pipeline name at a time
    now: int,
    nextUid: nat,
    running: Tally.Gauge<Labels>,              // pipelines_active
    completed: Tally.Gauge<(Labels, Phase)>,   // pipelines_completed_total
    // the history of metric updates, by pipeline
    increments: nat, incremented: set<nat>,
    counted: set<nat>,
    earlyDecrements: nat, dropped: set<nat>
  )

  const EMPTY: Cluster := Cluster(map[], map[], map[], 0, 0, map[], map[], 0, {}, {}, 0, {})

  // ----- the API server -----

  /** Removes the object once it is being deleted and no finalizer is left. */
  function Store(objects: map<string, Object>, name: string, obj: Object): map<string, Object> {
    if obj.deleting && obj.finalizers == {} then objects - {name} else objects[name := obj]
  }

  /** Deletion request: the object goes at once or is marked and waits for its finalizers. */
  function Delete(objects: map<string, Object>, name: string): map<string, Object> {
    if name in objects then Store(objects, name, objects[name].(deleting := true)) else objects
  }

  /** A patch of the finalizer list is refused when it adds one to an object being deleted. */
  predicate AcceptsFinalizers(objects: map<string, Object>, name: string, finalizers: set<Finalizer>) {
    name in objects && (objects[name].deleting ==> finalizers <= objects[name].finalizers)
  }

  function PatchFinalizers(objects: map<string, Object>, name: string, finalizers: set<Finalizer>): map<string, Object>
    requires AcceptsFinalizers(objects, name, finalizers)
  {
    Store(objects, name, objects[name].(finalizers := finalizers))
  }

  /** A JSON merge patch carries the fields that the caller changed. */
  function MergePatch(stored: Status, before: Status, after: Status): Status {
    Status(
      if before.start != after.start then after.start else stored.start,
      if before.completion != after.completion then after.completion else stored.completion,
      if before.phase != after.phase then after.phase else stored.phase,
      if before.conditions != after.conditions then after.conditions else stored.conditions)
  }

  // ----- the controller's decisions -----

  datatype Branch = DropMetrics | DeleteExpired | AfterCompletion | NeedPod

  /** The first half of Reconcile, before the pod is looked at. */
  function BranchOf(obj: Object, now: int): Branch {
    if obj.deleting && Metrics in obj.finalizers then DropMetrics
    else if obj.spec.maxLifetime.Some? && now - obj.created > obj.spec.maxLifetime.value then DeleteExpired
    else if obj.status.completion.Some? then AfterCompletion
    else NeedPod
  }

  datatype Stages = Stages(downloading: bool, scanning: bool, uploadSkipped: bool)

  function RunningPhase(phase: Phase, stages: Stages): Phase {
    if stages.downloading then Downloading
    else if stages.scanning then Scanning
    else if !stages.uploadSkipped then Uploading
    else phase
  }

  /** The status handleCompletion patches in; `None` when the pod's phase is unknown. A pending pod
      sets the phase to Succeeded, as the source does. */
  function StatusForPod(status: Status, phase: PodPhase, stages: Stages, now: int): Option<Status> {
    match phase
    case PodSucceeded =>
      Some(status.(phase := Succeeded, completion := Some(now),
        conditions := status.conditions + [CompletedSuccessfully]))
    case PodFailed =>
      Some(status.(phase := Failed, completion := Some(now), conditions := status.conditions + [CompletedWithFailure]))
    case PodRunning => Some(status.(phase := RunningPhase(status.phase, stages)))
    case PodPending => Some(status.(phase := Succeeded))
    case PodUnknown => None
  }

  function StartedStatus(status: Status, podCreated: int): Status {
    status.(start := Some(podCreated), phase := Downloading, conditions := status.conditions + [ScanPodCreated])
  }

  predicate Expired(obj: Object, now: int) {
    obj.spec.ttl.Some? && obj.status.completion.Some? && now >= obj.status.completion.value + obj.spec.ttl.value
  }

  // ----- steps -----

  datatype Step =
    // the pipeline controller
    | Fetch(name: string)
    | DropOnDelete(name: string)
    | DeleteByLifetime(name: string)
    | RecordCompletion(name: string)
    | DeleteByTtl(name: string)
    | GetOrCreatePod(name: string)
    | AddFinalizer(name: string)
    | WriteStart(name: string)
    | WriteProgress(name: string, stages: Stages)
    | Abandon(name: string)           // failed patch or request, or nothing left to do
    // everybody else
    | Create(name: string, spec: Spec, finalizers: set<Finalizer>)
    | UserDelete(name: string)
    | UpdateSpec(name: string, spec: Spec)
    | ForeignFinalizer(name: string, add: bool)
    | PodAdvances(name: string, phase: PodPhase)
    | PodDeleted(name: string)
    | ClockAdvances(seconds: nat)

  predicate TerminalPod(phase: PodPhase) { phase == PodSucceeded || phase == PodFailed }

  function Idle(c: Cluster, name: string): Cluster { c.(reconciles := c.reconciles - {name}) }

  predicate IsFetched(c: Cluster, name: string, branch: Branch) {
    name in c.reconciles && c.reconciles[name].Fetched? && BranchOf(c.reconciles[name].obj, c.now) == branch
  }

  /** Early removal of the finalizer from a pipeline that is being deleted. */
  function NextDropOnDelete(c: Cluster, name: string): Option<Cluster> {
    if !IsFetched(c, name, DropMetrics) then None
    else
      var kept := c.reconciles[name].obj.finalizers - {Metrics};
      if !AcceptsFinalizers(c.objects, name, kept) then None
      else
        var stored := c.objects[name];
        Some(Idle(c.(objects := PatchFinalizers(c.objects, name, kept),
                     running := Tally.Add(c.running, stored.spec.labels, -1),
                     earlyDecrements := c.earlyDecrements + 1, dropped := c.dropped + {stored.uid}), name))
  }

  /** handlePostCompletion, first part. */
  function NextRecordCompletion(c: Cluster, name: string): Option<Cluster> {
    if !IsFetched(c, name, AfterCompletion) then None
    else
      var obj := c.reconciles[name].obj;
      if Metrics !in obj.finalizers then Some(c.(reconciles := c.reconciles[name := Recorded(obj)]))
      else
        var kept := obj.finalizers - {Metrics};
        if !AcceptsFinalizers(c.objects, name, kept) then None
        else
          var stored := c.objects[name];
          Some(c.(objects := PatchFinalizers(c.objects, name, kept),
                  running := Tally.Add(c.running, stored.spec.labels, -1),
                  completed := Tally.Add(c.completed, (stored.spec.labels, stored.status.phase), 1),
                  counted := c.counted + {stored.uid},
                  reconciles := c.reconciles[name := Recorded(obj)]))
  }

  function NextAddFinalizer(c: Cluster, name: string): Option<Cluster> {
    if name !in c.reconciles || !c.reconciles[name].HavePod? then None
    else
      var obj := c.reconciles[name].obj;
      var wanted := obj.finalizers + {Metrics};
      if obj.status.start.None? || Metrics in obj.finalizers || !AcceptsFinalizers(c.objects, name, wanted) then None
      else
        var stored := c.objects[name];
        Some(Idle(c.(objects := PatchFinalizers(c.objects, name, wanted),
                     running := Tally.Add(c.running, stored.spec.labels, 1),
                     increments := c.increments + 1, incremented := c.incremented + {stored.uid}), name))
  }

  function PatchStatus(c: Cluster, name: string, before: Status, after: Status): Option<Cluster> {
    if name !in c.objects then None
    else
      var stored := c.objects[name];
      Some(Idle(c.(objects := c.objects[name := stored.(status := MergePatch(stored.status, before, after))]), name))
  }

  function NextController(c: Cluster, step: Step): Option<Cluster>
    requires !step.ClockAdvances?
  {
    var name := step.name;
    match step
    case Fetch(_) =>
      if name in c.objects && name !in c.reconciles then
        Some(c.(reconciles := c.reconciles[name := Fetched(c.objects[name])]))
      else None
    case DropOnDelete(_) => NextDropOnDelete(c, name)
    case DeleteByLifetime(_) =>
      if IsFetched(c, name, DeleteExpired) then Some(Idle(c.(objects := Delete(c.objects, name)), name)) else None
    case RecordCompletion(_) => NextRecordCompletion(c, name)
    case DeleteByTtl(_) =>
      if name in c.reconciles && c.reconciles[name].Recorded? && Expired(c.reconciles[name].obj, c.now) then
        Some(Idle(c.(objects := Delete(c.objects, name)), name))
      else None
    case GetOrCreatePod(_) =>
      if !IsFetched(c, name, NeedPod) then None
      else
        var pod := if name in c.pods then c.pods[name] else Pod(PodPending, c.now);
        Some(c.(pods := c.pods[name := pod], reconciles := c.reconciles[name := HavePod(c.reconciles[name].obj, pod)]))
    case AddFinalizer(_) => NextAddFinalizer(c, name)
    case WriteStart(_) =>
      if name !in c.reconciles || !c.reconciles[name].HavePod? || c.reconciles[name].obj.status.start.Some? then None
      else
        var r := c.reconciles[name];
        PatchStatus(c, name, r.obj.status, StartedStatus(r.obj.status, r.pod.created))
    case WriteProgress(_, stages) =>
      if name !in c.reconciles || !c.reconciles[name].HavePod? then None
      else
        var r := c.reconciles[name];
        if r.obj.status.start.None? || Metrics !in r.obj.finalizers then None
        else
          (match StatusForPod(r.obj.status, r.pod.phase, stages, c.now)
           case None => None
           case Some(after) => PatchStatus(c, name, r.obj.status, after))
    case _ =>
      if name in c.reconciles then Some(Idle(c, name)) else None
  }

  function NextOther(c: Cluster, step: Step): Option<Cluster> {
    match step
    case Create(name, spec, finalizers) =>
      if name in c.objects || Metrics in finalizers then None
      else Some(c.(objects := c.objects[name := Object(c.nextUid, spec, c.now, false, finalizers, NEW_STATUS)],
                   nextUid := c.nextUid + 1))
    case UserDelete(name) => Some(c.(objects := Delete(c.objects, name)))
    case UpdateSpec(name, spec) =>
      if name in c.objects then Some(c.(objects := c.objects[name := c.objects[name].(spec := spec)])) else None
    case ForeignFinalizer(name, add) =>
      if name !in c.objects then None
      else
        var stored := c.objects[name];
        var wanted := if add then stored.finalizers + {Foreign} else stored.finalizers - {Foreign};
        if AcceptsFinalizers(c.objects, name, wanted) then Some(c.(objects := PatchFinalizers(c.objects, name, wanted)))
        else None
    case PodAdvances(name, phase) =>
      if name in c.pods && !TerminalPod(c.pods[name].phase) then
        Some(c.(pods := c.pods[name := c.pods[name].(phase := phase)]))
      else None
    case PodDeleted(name) => Some(c.(pods := c.pods - {name}))
    case ClockAdvances(seconds) => Some(c.(now := c.now + seconds))
    case _ => None
  }

  predicate IsControllerStep(step: Step) {
    || step.Fetch? || step.DropOnDelete? || step.DeleteByLifetime? || step.RecordCompletion? || step.DeleteByTtl?
    || step.GetOrCreatePod? || step.AddFinalizer? || step.WriteStart? || step.WriteProgress? || step.Abandon?
  }

  function Next(c: Cluster, step: Step): Option<Cluster> {
    if IsControllerStep(step) then NextController(c, step) else NextOther(c, step)
  }

  function Exec(c: Cluster, steps: seq<Step>): Option<Cluster>
    decreases |steps|
  {
    if steps == [] then Some(c)
    else match Next(c, steps[0])
      case Some(c') => Exec(c', steps[1..])
      case None => None
  }

  // ----- invariants -----

  /** The pipelines that hold the metrics finalizer. */
  function Holders(objects: map<string, Object>): set<string> {
    set n | n in objects && Metrics in objects[n].finalizers
  }

  ghost predicate Identities(c: Cluster) {
    && (forall n :: n in c.objects ==> c.objects[n].uid < c.nextUid)
    && (forall n, m :: n in c.objects && m in c.objects && c.objects[n].uid == c.objects[m].uid ==> n == m)
    && (forall u :: u in c.incremented ==> u < c.nextUid)
  }

  /** Gauge and counters agree with the finalizers and with the history. */
  ghost predicate Books(c: Cluster) {
    && Tally.Total(c.running) == |Holders(c.objects)|
    && c.increments == |c.incremented|
    && Tally.Total(c.completed) == |c.counted|
    && c.earlyDecrements == |c.dropped|
    && c.counted <= c.incremented && c.dropped <= c.incremented && c.counted !! c.dropped
    && |c.incremented| == |Holders(c.objects)| + |c.counted| + |c.dropped|
  }

  ghost predicate Enrolled(c: Cluster, obj: Object) {
    && (Metrics in obj.finalizers ==> obj.uid in c.incremented && obj.uid !in c.counted && obj.uid !in c.dropped)
    && (obj.uid in c.incremented && Metrics !in obj.finalizers ==> obj.deleting || obj.status.completion.Some?)
  }

  function ConditionFor(phase: Phase): Condition {
    if phase == Succeeded then CompletedSuccessfully else CompletedWithFailure
  }

  function PodPhaseFor(phase: Phase): PodPhase {
    if phase == Succeeded then PodSucceeded else PodFailed
  }

  /** The shape of a stored status: which conditions it has is determined by its two times. */
  ghost predicate Shape(c: Cluster, obj: Object) {
    var s := obj.status;
    && (s.start.None? ==> s == NEW_STATUS)
    && (s.start.Some? && s.completion.None? ==> s.conditions == [ScanPodCreated])
    && (s.completion.Some? ==>
          && s.start.Some? && obj.uid in c.incremented
          && (s.phase == Succeeded || s.phase == Failed)
          && s.conditions == [ScanPodCreated, ConditionFor(s.phase)])
  }

  /** After completion the pod, while it exists, is in the phase the status reports. */
  ghost predicate PodAgrees(c: Cluster, name: string) {
    name in c.objects && name in c.pods && c.objects[name].status.completion.Some? ==>
      c.pods[name].phase == PodPhaseFor(c.objects[name].status.phase)
  }

  /** What a reconcile in flight may rely on about the stored object. */
  ghost predicate Current(c: Cluster, name: string, r: Progress) {
    var obj := r.obj;
    && obj.uid < c.nextUid
    && (!r.Recorded? && Metrics in obj.finalizers ==>
          name in c.objects && c.objects[name].uid == obj.uid && Metrics in c.objects[name].finalizers)
    && (!r.Recorded? && Metrics !in obj.finalizers && name in c.objects ==> Metrics !in c.objects[name].finalizers)
    && (obj.deleting && name in c.objects && c.objects[name].uid == obj.uid ==> c.objects[name].deleting)
    && (name in c.objects && c.objects[name].uid == obj.uid ==> c.objects[name].status == obj.status)
    && (name in c.objects && c.objects[name].uid != obj.uid ==>
          c.objects[name].uid !in c.incremented && c.objects[name].status == NEW_STATUS)
    && (obj.status.completion.Some? ==> obj.status.start.Some?)
    && (obj.status.start.None? ==> obj.status == NEW_STATUS)
    && (obj.status.start.Some? && obj.status.completion.None? ==> obj.status.conditions == [ScanPodCreated])
    && (r.HavePod? ==> obj.status.completion.None?)
    && (r.HavePod? && TerminalPod(r.pod.phase) && name in c.pods ==> c.pods[name].phase == r.pod.phase)
  }

  /** Everything the invariant says about one name. */
  ghost predicate At(c: Cluster, name: string) {
    && (name in c.objects ==> Enrolled(c, c.objects[name]) && Shape(c, c.objects[name]))
    && PodAgrees(c, name)
    && (name in c.reconciles ==> Current(c, name, c.reconciles[name]))
  }

  ghost predicate AtAll(c: Cluster) { forall name :: At(c, name) }

  ghost predicate Inv(c: Cluster) { Identities(c) && Books(c) && AtAll(c) }

  // ----- every step keeps the invariant -----

  lemma StoreHolders(objects: map<string, Object>, name: string, obj: Object)
    ensures Holders(Store(objects, name, obj)) ==
      if Metrics in obj.finalizers then Holders(objects) + {name} else Holders(objects) - {name}
  {
  }

  lemma DeleteHolders(objects: map<string, Object>, name: string)
    ensures Holders(Delete(objects, name)) == Holders(objects)
  {
    if name in objects {
      StoreHolders(objects, name, objects[name].(deleting := true));
    }
  }

  /** What a removal of the finalizer finds: its holder, enrolled and not yet accounted for. */
  lemma DropFindsHolder(c: Cluster, name: string)
    requires At(c, name) && NextDropOnDelete(c, name).Some?
    ensures name in Holders(c.objects)
    ensures c.objects[name].uid in c.incremented && c.objects[name].uid !in c.counted
        && c.objects[name].uid !in c.dropped
  {
  }

  lemma OneHolderDropped(c: Cluster, c': Cluster, name: string)
    requires Books(c) && name in Holders(c.objects)
    requires c.objects[name].uid in c.incremented && c.objects[name].uid !in c.counted
        && c.objects[name].uid !in c.dropped
    requires Holders(c'.objects) == Holders(c.objects) - {name}
    requires c' == c.(objects := c'.objects, reconciles := c'.reconciles,
                      running := Tally.Add(c.running, c.objects[name].spec.labels, -1),
                      earlyDecrements := c.earlyDecrements + 1, dropped := c.dropped + {c.objects[name].uid})
    ensures Books(c')
  {
    Tally.TotalAdd(c.running, c.objects[name].spec.labels, -1);
  }

  lemma DropKeepsBooks(c: Cluster, name: string, c': Cluster)
    requires Books(c) && At(c, name) && NextDropOnDelete(c, name) == Some(c')
    ensures Books(c')
  {
    DropFindsHolder(c, name);
    StoreHolders(c.objects, name, c.objects[name].(finalizers := c.reconciles[name].obj.finalizers - {Metrics}));
    OneHolderDropped(c, c', name);
  }

  lemma RecordKeepsBooks(c: Cluster, name: string)
    requires Inv(c) && Next(c, RecordCompletion(name)).Some?
    ensures Books(Next(c, RecordCompletion(name)).value)
  {
    var c' := Next(c, RecordCompletion(name)).value;
    assert At(c, name);
    var obj := c.reconciles[name].obj;
    if Metrics in obj.finalizers {
      var stored := c.objects[name];
      StoreHolders(c.objects, name, stored.(finalizers := obj.finalizers - {Metrics}));
      OneHolderCounted(c, c', name);
    }
  }

  lemma OneHolderCounted(c: Cluster, c': Cluster, name: string)
    requires Books(c) && name in Holders(c.objects)
    requires c.objects[name].uid in c.incremented && c.objects[name].uid !in c.counted
        && c.objects[name].uid !in c.dropped
    requires Holders(c'.objects) == Holders(c.objects) - {name}
    requires var stored := c.objects[name];
      c' == c.(objects := c'.objects, reconciles := c'.reconciles,
               running := Tally.Add(c.running, stored.spec.labels, -1),
               completed := Tally.Add(c.completed, (stored.spec.labels, stored.status.phase), 1),
               counted := c.counted + {stored.uid})
    ensures Books(c')
  {
    var stored := c.objects[name];
    Tally.TotalAdd(c.running, stored.spec.labels, -1);
    Tally.TotalAdd(c.completed, (stored.spec.labels, stored.status.phase), 1);
  }

  /** The finalizer is only ever added to a pipeline that never had it before. */
  lemma AddedOnce(c: Cluster, name: string)
    requires Inv(c) && NextAddFinalizer(c, name).Some?
    ensures name in c.objects && c.objects[name].uid !in c.incremented
    ensures Metrics !in c.objects[name].finalizers && !c.objects[name].deleting
  {
    assert At(c, name);
  }

  lemma OneHolderAdded(c: Cluster, c': Cluster, name: string)
    requires Books(c) && name in c.objects && name !in Holders(c.objects) && c.objects[name].uid !in c.incremented
    requires Holders(c'.objects) == Holders(c.objects) + {name}
    requires c' == c.(objects := c'.objects, reconciles := c'.reconciles,
                      running := Tally.Add(c.running, c.objects[name].spec.labels, 1),
                      increments := c.increments + 1, incremented := c.incremented + {c.objects[name].uid})
    ensures Books(c')
  {
    Tally.TotalAdd(c.running, c.objects[name].spec.labels, 1);
  }

  lemma AddKeepsBooks(c: Cluster, name: string, c': Cluster)
    requires Inv(c) && NextAddFinalizer(c, name) == Some(c')
    ensures Books(c')
  {
    AddedOnce(c, name);
    StoreHolders(c.objects, name, c.objects[name].(finalizers := c.reconciles[name].obj.finalizers + {Metrics}));
    OneHolderAdded(c, c', name);
  }

  predicate MovesBooks(step: Step) { step.DropOnDelete? || step.RecordCompletion? || step.AddFinalizer? }

  lemma ControllerKeepsHolders(c: Cluster, step: Step)
    requires Next(c, step).Some? && IsControllerStep(step) && !MovesBooks(step)
    ensures Holders(Next(c, step).value.objects) == Holders(c.objects)
  {
    DeleteHolders(c.objects, step.name);
  }

  lemma OthersKeepHolders(c: Cluster, step: Step)
    requires Next(c, step).Some? && !IsControllerStep(step)
    ensures Holders(Next(c, step).value.objects) == Holders(c.objects)
  {
    match step
    case UserDelete(name) => DeleteHolders(c.objects, name);
    case ForeignFinalizer(name, add) =>
      StoreHolders(c.objects, name, c.objects[name].(finalizers :=
        if add then c.objects[name].finalizers + {Foreign} else c.objects[name].finalizers - {Foreign}));
    case _ =>
  }

  lemma SameHoldersSameBooks(c: Cluster, c': Cluster)
    requires Books(c) && Holders(c'.objects) == Holders(c.objects)
    requires c' == c.(objects := c'.objects, pods := c'.pods, reconciles := c'.reconciles, now := c'.now,
        nextUid := c'.nextUid)
    ensures Books(c')
  {
  }

  lemma OtherStepKeepsLedger(c: Cluster, step: Step, c': Cluster)
    requires Next(c, step) == Some(c') && !MovesBooks(step)
    ensures c' == c.(objects := c'.objects, pods := c'.pods, reconciles := c'.reconciles, now := c'.now,
        nextUid := c'.nextUid)
  {
  }

  lemma BooksStep(c: Cluster, step: Step, c': Cluster)
    requires Inv(c) && Next(c, step) == Some(c')
    ensures Books(c')
  {
    if step.DropOnDelete? {
      assert At(c, step.name);
      DropKeepsBooks(c, step.name, c');
    } else if step.RecordCompletion? {
      RecordKeepsBooks(c, step.name);
    } else if step.AddFinalizer? {
      AddKeepsBooks(c, step.name, c');
    } else {
      if IsControllerStep(step) { ControllerKeepsHolders(c, step); } else { OthersKeepHolders(c, step); }
      OtherStepKeepsLedger(c, step, c');
      SameHoldersSameBooks(c, c');
    }
  }

  /** Nothing is different at `name`. */
  ghost predicate Untouched(c: Cluster, c': Cluster, name: string) {
    && (name in c'.objects <==> name in c.objects)
    && (name in c.objects ==> c'.objects[name] == c.objects[name])
    && (name in c'.pods <==> name in c.pods)
    && (name in c.pods ==> c'.pods[name] == c.pods[name])
    && (name in c'.reconciles <==> name in c.reconciles)
    && (name in c.reconciles ==> c'.reconciles[name] == c.reconciles[name])
  }

  function NameOf(step: Step): string { if step.ClockAdvances? then "" else step.name }

  lemma ControllerTouchesOneName(c: Cluster, step: Step, c': Cluster, m: string)
    requires Next(c, step) == Some(c') && IsControllerStep(step) && m != NameOf(step)
    ensures Untouched(c, c', m)
  {
  }

  lemma OthersTouchOneName(c: Cluster, step: Step, c': Cluster, m: string)
    requires Next(c, step) == Some(c') && !IsControllerStep(step) && m != NameOf(step)
    ensures Untouched(c, c', m)
  {
  }

  /** Identities and the history only grow, and only by the pipeline the step is about. */
  ghost predicate Grows(c: Cluster, c': Cluster, name: string) {
    && c.nextUid <= c'.nextUid
    && (forall u :: u in c.incremented ==> u in c'.incremented)
    && (forall u :: u in c'.incremented && u !in c.incremented ==> name in c.objects && u == c.objects[name].uid)
    && (forall u :: u in c'.counted && u !in c.counted ==> name in c.objects && u == c.objects[name].uid)
    && (forall u :: u in c'.dropped && u !in c.dropped ==> name in c.objects && u == c.objects[name].uid)
    && (name in c'.objects ==>
          || c'.objects[name].uid == c.nextUid < c'.nextUid
          || (name in c.objects && c'.objects[name].uid == c.objects[name].uid))
  }

  lemma StepGrows(c: Cluster, step: Step, c': Cluster)
    requires Next(c, step) == Some(c')
    ensures step.ClockAdvances? || Grows(c, c', NameOf(step))
  {
  }

  lemma IdentitiesKept(c: Cluster, c': Cluster, name: string)
    requires Identities(c) && Grows(c, c', name)
    requires forall m :: m != name ==> Untouched(c, c', m)
    ensures Identities(c')
  {
    assert forall m :: m in c'.objects && m != name ==> Untouched(c, c', m);
  }

  lemma UntouchedKeepsAt(c: Cluster, c': Cluster, name: string, m: string)
    requires Identities(c) && Grows(c, c', name) && m != name && Untouched(c, c', m) && At(c, m)
    ensures At(c', m)
  {
  }

  lemma DropKeepsAt(c: Cluster, name: string, c': Cluster)
    requires Inv(c) && NextDropOnDelete(c, name) == Some(c')
    ensures At(c', name)
  {
    assert At(c, name);
  }

  lemma RecordKeepsAt(c: Cluster, name: string, c': Cluster)
    requires Inv(c) && NextRecordCompletion(c, name) == Some(c')
    ensures At(c', name)
  {
    assert At(c, name);
  }

  lemma AddKeepsAt(c: Cluster, name: string, c': Cluster)
    requires Inv(c) && NextAddFinalizer(c, name) == Some(c')
    ensures At(c', name)
  {
    assert At(c, name);
    AddedOnce(c, name);
  }

  lemma StartStepKeepsAt(c: Cluster, step: Step, c': Cluster)
    requires Inv(c) && Next(c, step) == Some(c') && step.WriteStart?
    ensures At(c', step.name)
  {
    assert At(c, step.name);
  }

  lemma ProgressStepKeepsAt(c: Cluster, step: Step, c': Cluster)
    requires Inv(c) && Next(c, step) == Some(c') && step.WriteProgress?
    ensures At(c', step.name)
  {
    assert At(c, step.name);
  }

  lemma ReadStepKeepsAt(c: Cluster, step: Step, c': Cluster)
    requires Inv(c) && Next(c, step) == Some(c') && (step.Fetch? || step.Abandon? || step.GetOrCreatePod?)
    ensures At(c', step.name)
  {
    assert At(c, step.name);
  }

  /** A deletion request changes at most the deletion mark of the object. */
  lemma DeleteEffect(objects: map<string, Object>, name: string)
    ensures var after := Delete(objects, name);
            && (name in after ==> name in objects && after[name] == objects[name].(deleting := true))
            && (name in objects && Metrics in objects[name].finalizers ==> name in after)
  {
  }

  lemma DeletionKeepsAt(c: Cluster, c': Cluster, name: string)
    requires Inv(c) && c'.objects == Delete(c.objects, name)
    requires c' == c.(objects := c'.objects, reconciles := c'.reconciles)
    requires name in c'.reconciles ==> name in c.reconciles && c'.reconciles[name] == c.reconciles[name]
    ensures At(c', name)
  {
    assert At(c, name);
    DeleteEffect(c.objects, name);
  }

  lemma CreateKeepsAt(c: Cluster, step: Step, c': Cluster)
    requires Inv(c) && NextOther(c, step) == Some(c') && step.Create?
    ensures At(c', step.name)
  {
    assert At(c, step.name);
  }

  lemma FinalizerKeepsAt(c: Cluster, step: Step, c': Cluster)
    requires Inv(c) && NextOther(c, step) == Some(c') && step.ForeignFinalizer?
    ensures At(c', step.name)
  {
    assert At(c, step.name);
  }

  lemma OtherStepKeepsAt(c: Cluster, step: Step, c': Cluster)
    requires Inv(c) && NextOther(c, step) == Some(c') && !IsControllerStep(step)
    requires step.UpdateSpec? || step.PodAdvances? || step.PodDeleted?
    ensures At(c', step.name)
  {
    assert At(c, step.name);
  }

  lemma StepKeepsAt(c: Cluster, step: Step, c': Cluster)
    requires Inv(c) && Next(c, step) == Some(c') && !step.ClockAdvances?
    ensures At(c', step.name)
  {
    if step.UserDelete? || step.DeleteByLifetime? || step.DeleteByTtl? { DeletionKeepsAt(c, c', step.name); }
    else if step.Create? { CreateKeepsAt(c, step, c'); }
    else if step.ForeignFinalizer? { FinalizerKeepsAt(c, step, c'); }
    else if !IsControllerStep(step) { OtherStepKeepsAt(c, step, c'); }
    else if step.DropOnDelete? { DropKeepsAt(c, step.name, c'); }
    else if step.RecordCompletion? { RecordKeepsAt(c, step.name, c'); }
    else if step.AddFinalizer? { AddKeepsAt(c, step.name, c'); }
    else if step.WriteStart? { StartStepKeepsAt(c, step, c'); }
    else if step.WriteProgress? { ProgressStepKeepsAt(c, step, c'); }
    else { ReadStepKeepsAt(c, step, c'); }
  }

  lemma ClockKeepsInv(c: Cluster, now: int)
    requires Inv(c)
    ensures Inv(c.(now := now))
  {
    var c' := c.(now := now);
    forall m ensures At(c', m) { assert At(c, m); }
  }

  lemma StepTouchesOneName(c: Cluster, step: Step, c': Cluster)
    requires Next(c, step) == Some(c')
    ensures forall m :: m != NameOf(step) ==> Untouched(c, c', m)
  {
    forall m | m != NameOf(step) ensures Untouched(c, c', m) {
      if IsControllerStep(step) { ControllerTouchesOneName(c, step, c', m); }
      else { OthersTouchOneName(c, step, c', m); }
    }
  }

  lemma InvStep(c: Cluster, step: Step, c': Cluster)
    requires Inv(c) && Next(c, step) == Some(c')
    ensures Inv(c')
  {
    if step.ClockAdvances? {
      ClockKeepsInv(c, c'.now);
    } else {
      BooksStep(c, step, c');
      StepGrows(c, step, c');
      StepTouchesOneName(c, step, c');
      IdentitiesKept(c, c', step.name);
      forall m ensures At(c', m) {
        if m == step.name { StepKeepsAt(c, step, c'); } else { UntouchedKeepsAt(c, c', step.name, m); }
      }
    }
  }

  lemma {:induction false} InvExec(c: Cluster, steps: seq<Step>)
    requires Inv(c) && Exec(c, steps).Some?
    ensures Inv(Exec(c, steps).value)
    decreases |steps|
  {
    if steps != [] {
      var c' := Next(c, steps[0]).value;
      InvStep(c, steps[0], c');
      InvExec(c', steps[1..]);
    }
  }

  lemma EmptyInv()
    ensures Inv(EMPTY)
  {
    assert Holders(EMPTY.objects) == {};
  }

  // ----- main results -----

  /** Over any interleaving of reconciles, deletions, foreign finalizers and failed patches on any
      number of pipelines: the running gauge, summed over its labels, is the number of pipelines
      that hold the metrics finalizer. */
  lemma GaugeCountsHolders(steps: seq<Step>)
    requires Exec(EMPTY, steps).Some?
    ensures var c := Exec(EMPTY, steps).value;
            Tally.Total(c.running) == |Holders(c.objects)|
  {
    EmptyInv();
    InvExec(EMPTY, steps);
  }

  /** Conservation: every increment is still in the gauge, was counted as a completion, or was taken
      back by an early deletion. Each pipeline is incremented at most once (there are as many
      increments as incremented pipelines), completed-counted at most once, and never both counted
      and taken back. */
  lemma IncrementsAreConserved(steps: seq<Step>)
    requires Exec(EMPTY, steps).Some?
    ensures var c := Exec(EMPTY, steps).value;
            && c.increments == Tally.Total(c.running) + Tally.Total(c.completed) + c.earlyDecrements
            && c.increments == |c.incremented|
            && Tally.Total(c.completed) == |c.counted| && c.earlyDecrements == |c.dropped|
            && c.counted + c.dropped <= c.incremented && c.counted !! c.dropped
  {
    EmptyInv();
    InvExec(EMPTY, steps);
  }

  /** A stored pipeline with a completion time was started and given the metrics finalizer before, its
      phase and its only completion condition agree with each other and with its pod, and condition
      types are unique. */
  lemma CompletionIsConsistent(steps: seq<Step>, name: string)
    requires Exec(EMPTY, steps).Some? && name in Exec(EMPTY, steps).value.objects
    ensures var c := Exec(EMPTY, steps).value;
            var obj := c.objects[name];
            var s := obj.status;
            && (s.completion.Some? ==>
                  && s.start.Some? && obj.uid in c.incremented
                  && (s.phase == Succeeded || s.phase == Failed)
                  && s.conditions == [ScanPodCreated, ConditionFor(s.phase)]
                  && (name in c.pods ==> c.pods[name].phase == PodPhaseFor(s.phase)))
            && (s.completion.None? ==> CompletedSuccessfully !in s.conditions && CompletedWithFailure !in s.conditions)
            && (forall i, j :: 0 <= i < j < |s.conditions| ==> s.conditions[i] != s.conditions[j])
  {
    EmptyInv();
    InvExec(EMPTY, steps);
    assert At(Exec(EMPTY, steps).value, name);
  }

  /** The start and completion times of `before`, once set, are those of `after`. */
  ghost predicate TimesKept(before: Status, after: Status) {
    && (before.start.Some? ==> after.start == before.start)
    && (before.completion.Some? ==> after.completion == before.completion)
  }

  /** Every pipeline of `c'` that already existed in `c` was stored there under the same name and
      still has the times it had. */
  ghost predicate WriteOnce(c: Cluster, c': Cluster) {
    && c.nextUid <= c'.nextUid
    && forall n :: n in c'.objects && c'.objects[n].uid < c.nextUid ==>
         n in c.objects && c.objects[n].uid == c'.objects[n].uid && TimesKept(c.objects[n].status, c'.objects[n].status)
  }

  lemma PatchKeepsTimes(c: Cluster, step: Step, c': Cluster)
    requires Inv(c) && Next(c, step) == Some(c') && (step.WriteStart? || step.WriteProgress?)
    ensures step.name in c.objects && step.name in c'.objects
    ensures TimesKept(c.objects[step.name].status, c'.objects[step.name].status)
  {
    assert At(c, step.name);
  }

  lemma ControllerKeepsStatus(c: Cluster, step: Step, c': Cluster)
    requires Next(c, step) == Some(c') && IsControllerStep(step) && !step.WriteStart? && !step.WriteProgress?
    requires step.name in c.objects && step.name in c'.objects
    ensures c'.objects[step.name].status == c.objects[step.name].status
  {
  }

  lemma OthersKeepStatus(c: Cluster, step: Step, c': Cluster)
    requires Next(c, step) == Some(c') && !IsControllerStep(step) && !step.ClockAdvances?
    requires step.name in c.objects && step.name in c'.objects
    ensures c'.objects[step.name].status == c.objects[step.name].status
  {
  }

  lemma StatusStepKeepsTimes(c: Cluster, step: Step, c': Cluster)
    requires Inv(c) && Next(c, step) == Some(c') && !step.ClockAdvances?
    requires step.name in c.objects && step.name in c'.objects
    ensures TimesKept(c.objects[step.name].status, c'.objects[step.name].status)
  {
    if step.WriteStart? || step.WriteProgress? {
      PatchKeepsTimes(c, step, c');
    } else if IsControllerStep(step) {
      ControllerKeepsStatus(c, step, c');
    } else {
      OthersKeepStatus(c, step, c');
    }
  }

  lemma StepWritesOnce(c: Cluster, step: Step, c': Cluster)
    requires Inv(c) && Next(c, step) == Some(c')
    ensures WriteOnce(c, c')
  {
    StepGrows(c, step, c');
    StepTouchesOneName(c, step, c');
    forall n | n in c'.objects && c'.objects[n].uid < c.nextUid
      ensures n in c.objects && c.objects[n].uid == c'.objects[n].uid
          && TimesKept(c.objects[n].status, c'.objects[n].status)
    {
      if step.ClockAdvances? {
      } else if n == step.name {
        StatusStepKeepsTimes(c, step, c');
      } else {
        assert Untouched(c, c', n);
      }
    }
  }

  /** Status is write-once over whole runs: no start or completion time, once set, ever changes while
      the pipeline exists. */
  lemma {:induction false} TimesNeverChange(c: Cluster, steps: seq<Step>)
    requires Inv(c) && Exec(c, steps).Some?
    ensures WriteOnce(c, Exec(c, steps).value)
    decreases |steps|
  {
    if steps != [] {
      var c' := Next(c, steps[0]).value;
      InvStep(c, steps[0], c');
      StepWritesOnce(c, steps[0], c');
      TimesNeverChange(c', steps[1..]);
    }
  }

  // ----- the gauge label by label -----

  function HoldersWith(objects: map<string, Object>, l: Labels): set<string> {
    set n | n in objects && Metrics in objects[n].finalizers && objects[n].spec.labels == l
  }

  /** Each label's gauge counts the holders that have this label now. */
  ghost predicate ExactPerLabel(c: Cluster) {
    forall l :: Tally.Read(c.running, l) == |HoldersWith(c.objects, l)|
  }

  predicate Relabels(c: Cluster, step: Step) {
    step.UpdateSpec? && step.name in c.objects && Metrics in c.objects[step.name].finalizers
    && step.spec.labels != c.objects[step.name].spec.labels
  }

  /** Membership among the holders with label `l` can only change at the name the step is about. */
  lemma HoldersWithAt(c: Cluster, c': Cluster, name: string, l: Labels)
    requires forall m :: m != name ==> Untouched(c, c', m)
    ensures HoldersWith(c'.objects, l) ==
      if name in HoldersWith(c'.objects, l) then HoldersWith(c.objects, l) + {name}
      else HoldersWith(c.objects, l) - {name}
  {
    forall m | m != name ensures m in HoldersWith(c'.objects, l) <==> m in HoldersWith(c.objects, l) {
      assert Untouched(c, c', m);
    }
  }

  lemma HolderKeepsLabels(c: Cluster, step: Step, c': Cluster)
    requires Next(c, step) == Some(c') && !step.ClockAdvances? && !Relabels(c, step) && !step.Create?
    requires step.name in Holders(c.objects) && step.name in c'.objects
    ensures c'.objects[step.name].spec.labels == c.objects[step.name].spec.labels
  {
  }

  predicate In(name: string, objects: map<string, Object>, l: Labels) {
    name in HoldersWith(objects, l)
  }

  /** Storing an object whose finalizer changed moves it in or out of its label. */
  lemma StoreAtLabel(objects: map<string, Object>, name: string, finalizers: set<Finalizer>, l: Labels)
    requires name in objects
    ensures In(name, Store(objects, name, objects[name].(finalizers := finalizers)), l) <==>
      Metrics in finalizers && objects[name].spec.labels == l
  {
  }

  lemma DropAtLabel(c: Cluster, name: string, c': Cluster, l: Labels)
    requires Inv(c) && NextDropOnDelete(c, name) == Some(c')
    ensures Tally.Read(c'.running, l) - Tally.Read(c.running, l) ==
      (if In(name, c'.objects, l) then 1 else 0) - (if In(name, c.objects, l) then 1 else 0)
  {
    assert At(c, name);
    DropFindsHolder(c, name);
    StoreAtLabel(c.objects, name, c.reconciles[name].obj.finalizers - {Metrics}, l);
  }

  lemma RecordAtLabel(c: Cluster, name: string, c': Cluster, l: Labels)
    requires Inv(c) && NextRecordCompletion(c, name) == Some(c')
    ensures Tally.Read(c'.running, l) - Tally.Read(c.running, l) ==
      (if In(name, c'.objects, l) then 1 else 0) - (if In(name, c.objects, l) then 1 else 0)
  {
    assert At(c, name);
    if Metrics in c.reconciles[name].obj.finalizers {
      StoreAtLabel(c.objects, name, c.reconciles[name].obj.finalizers - {Metrics}, l);
    }
  }

  lemma AddAtLabel(c: Cluster, name: string, c': Cluster, l: Labels)
    requires Inv(c) && NextAddFinalizer(c, name) == Some(c')
    ensures Tally.Read(c'.running, l) - Tally.Read(c.running, l) ==
      (if In(name, c'.objects, l) then 1 else 0) - (if In(name, c.objects, l) then 1 else 0)
  {
    AddedOnce(c, name);
    StoreAtLabel(c.objects, name, c.reconciles[name].obj.finalizers + {Metrics}, l);
  }

  /** How one step moves the gauge of a label, and the holder it is about in or out of that label. */
  lemma StepAtLabel(c: Cluster, step: Step, c': Cluster, l: Labels)
    requires Inv(c) && Next(c, step) == Some(c') && !step.ClockAdvances? && !Relabels(c, step)
    ensures Tally.Read(c'.running, l) - Tally.Read(c.running, l) ==
      (if In(step.name, c'.objects, l) then 1 else 0) - (if In(step.name, c.objects, l) then 1 else 0)
  {
    if MovesBooks(step) {
      if step.DropOnDelete? {
        DropAtLabel(c, step.name, c', l);
      } else if step.RecordCompletion? {
        RecordAtLabel(c, step.name, c', l);
      } else {
        AddAtLabel(c, step.name, c', l);
      }
    } else {
      OtherStepKeepsLedger(c, step, c');
      if IsControllerStep(step) { ControllerKeepsHolders(c, step); } else { OthersKeepHolders(c, step); }
      assert step.name in Holders(c'.objects) <==> step.name in Holders(c.objects);
      if step.name in Holders(c.objects) && !step.Create? {
        HolderKeepsLabels(c, step, c');
      }
    }
  }

  lemma ExactAtLabel(c: Cluster, c': Cluster, name: string, l: Labels)
    requires forall m :: m != name ==> Untouched(c, c', m)
    requires Tally.Read(c.running, l) == |HoldersWith(c.objects, l)|
    requires Tally.Read(c'.running, l) - Tally.Read(c.running, l) ==
      (if In(name, c'.objects, l) then 1 else 0) - (if In(name, c.objects, l) then 1 else 0)
    ensures Tally.Read(c'.running, l) == |HoldersWith(c'.objects, l)|
  {
    HoldersWithAt(c, c', name, l);
  }

  lemma RelabellingBreaksExactness(c: Cluster, step: Step, c': Cluster)
    requires Next(c, step) == Some(c') && ExactPerLabel(c) && Relabels(c, step)
    ensures !ExactPerLabel(c')
  {
    var l := step.spec.labels;
    assert step.name in HoldersWith(c'.objects, l) && step.name !in HoldersWith(c.objects, l);
    assert HoldersWith(c'.objects, l) == HoldersWith(c.objects, l) + {step.name};
    assert Tally.Read(c'.running, l) == |HoldersWith(c.objects, l)|;
  }

  /** The per-label gauge stays exact in every step but one: a change of the profile or downloader
      reference of a pipeline that holds the finalizer. */
  lemma ExactUnlessRelabelled(c: Cluster, step: Step, c': Cluster)
    requires Inv(c) && Next(c, step) == Some(c') && ExactPerLabel(c)
    ensures ExactPerLabel(c') <==> !Relabels(c, step)
  {
    if Relabels(c, step) {
      RelabellingBreaksExactness(c, step, c');
    } else if !step.ClockAdvances? {
      StepTouchesOneName(c, step, c');
      forall l ensures Tally.Read(c'.running, l) == |HoldersWith(c'.objects, l)| {
        StepAtLabel(c, step, c', l);
        ExactAtLabel(c, c', step.name, l);
      }
    }
  }

  /** No step of the run changes the labels of a holder. */
  ghost predicate NeverRelabels(c: Cluster, steps: seq<Step>)
    decreases |steps|
  {
    steps == [] || (!Relabels(c, steps[0])
      && (Next(c, steps[0]).Some? ==> NeverRelabels(Next(c, steps[0]).value, steps[1..])))
  }

  lemma {:induction false} ExactExec(c: Cluster, steps: seq<Step>)
    requires Inv(c) && ExactPerLabel(c) && Exec(c, steps).Some? && NeverRelabels(c, steps)
    ensures ExactPerLabel(Exec(c, steps).value)
    decreases |steps|
  {
    if steps != [] {
      var c' := Next(c, steps[0]).value;
      InvStep(c, steps[0], c');
      ExactUnlessRelabelled(c, steps[0], c');
      ExactExec(c', steps[1..]);
    }
  }

  /** Over any run in which no running pipeline is relabelled, the gauge of each label is the number of
      pipelines with this label that hold the metrics finalizer. */
  lemma GaugesAreExact(steps: seq<Step>, l: Labels)
    requires Exec(EMPTY, steps).Some? && NeverRelabels(EMPTY, steps)
    ensures var c := Exec(EMPTY, steps).value; Tally.Read(c.running, l) == |HoldersWith(c.objects, l)|
  {
    EmptyInv();
    assert forall k :: HoldersWith(EMPTY.objects, k) == {};
    ExactExec(EMPTY, steps);
  }
}
