/**
 The completion protocol over the tree of scheduled searches.

 A search's pod runs the scheduler (module FifoScheduler), whose workers create child pipelines
 and child searches; the children's pods do the same. The search controller
 (internal/controller/search_controller.go) completes a search from three separate reads: first
 its pod, then the list of child pipelines, then the list of child searches. The module models a
 namespace as a datatype and lets reconciles, schedulers, users, nodes and the API server interleave
 at that granularity. Pods may be killed or deleted at any time, also while one of their Create
 requests is on its way, and a worker may give up waiting for the answer; such a request may be
 answered later.
 */
module SearchTree {
  import opened Wrappers
  import opened Labels
  import F = FifoScheduler

  // ----- the namespace -----

  datatype Phase = Pending | Running | Succeeded | Failed | Unknown

  predicate Terminal(phase: Phase) { phase == Succeeded || phase == Failed }

  datatype Kind = SearchKind | PipelineKind

  type Scheduler = F.State<string, string>

  /** A search pod: the search it was created for, its phase, the labels of its pipeline template and
      its scheduler process. */
  datatype Pod = Pod(uid: nat, owner: nat, phase: Phase, template: LabelMap, scheduler: Scheduler)

  datatype Search = Search(uid: nat, labels: LabelMap, template: LabelMap, started: bool, completed: bool)

  /** `parent` is the search whose scheduler created it, if one did. */
  datatype Pipeline = Pipeline(labels: LabelMap, parent: Option<nat>, completed: bool)

  /** A Create request on its way from the worker of a search pod to the API server; `number` counts the
      requests of that worker. */
  datatype Request = Request(parent: string, owner: nat, pod: nat, kind: Kind, number: nat, template: LabelMap)

  /** What a reconcile in flight has read so far. */
  datatype Progress =
    | FetchedSearch(uid: nat, started: bool, template: LabelMap)
    | SawPod(uid: nat, started: bool, phase: Phase)
    | ListedPipelines(uid: nat, phase: Phase, pipelines: set<string>)
    | ListedSearches(uid: nat, phase: Phase, pipelines: set<string>, searches: set<string>)

  /** What is remembered of a search for ever: its name and the search that scheduled it. */
  datatype Origin = Origin(name: string, parent: Option<nat>)

  datatype Namespace = Namespace(
    searches: map<string, Search>,
    pipelines: map<string, Pipeline>,
    pods: map<string, Pod>,              // keyed by the name of the search
    requests: set<Request>,
    reconciles: map<string, Progress>,   // at most one reconcile per search name at a time
    nextUid: nat,
    // history, by uid
    origins: map<nat, Origin>,           // every search there ever was
    finished: set<nat>                   // those that were given a completion time
  )

  /** The unfinished children the controller finds when it lists by label. */
  function UnfinishedPipelines(n: Namespace, search: string): set<string> {
    set p | p in n.pipelines && ScheduledBy(n.pipelines[p].labels) == Some(search) && !n.pipelines[p].completed
  }

  function UnfinishedSearches(n: Namespace, search: string): set<string> {
    set s | s in n.searches && ScheduledBy(n.searches[s].labels) == Some(search) && !n.searches[s].completed
  }

  /** The controller's decision once everything has been read. */
  predicate Completes(phase: Phase, pipelines: set<string>, searches: set<string>) {
    pipelines == {} && searches == {} && Terminal(phase)
  }

  // ----- steps -----

  datatype Step =
    // the search controller
    | Fetch(search: string)
    | ReadOrCreatePod(search: string)
    | MarkStarted(search: string)
    | ListPipelines(search: string)
    | ListSearches(search: string)
    | WriteStatus(search: string)
    | Abandon(search: string)                    // any error, conflict or requeue ends the reconcile
    // a search pod
    | PodStarts(search: string)
    | PodLost(search: string)                    // the node stops reporting
    | PodFound(search: string)
    | SchedulerStep(search: string, step: F.Step<string, string>)
    | Serve(request: Request, ok: bool, name: string)  // the API server answers a Create request
    | Exit(search: string, ok: bool)             // the wrapper returns from its hook and exits
    | Die(search: string)                        // the process ends in any other way
    // everybody else
    | PipelineCompletes(pipeline: string)
    | CreateSearch(name: string, labels: LabelMap, template: LabelMap)
    | CreatePipeline(name: string, labels: LabelMap)
    | DeleteSearch(search: string)
    | DeletePipeline(pipeline: string)
    | DeletePod(search: string)

  function Worker(scheduler: Scheduler, kind: Kind): F.Worker<string> {
    if kind == SearchKind then scheduler.searches.worker else scheduler.pipelines.worker
  }

  function OnKind(kind: Kind, step: F.PairStep): F.Step<string, string> {
    if kind == SearchKind then F.OnSearches(step) else F.OnPipelines(step)
  }

  /** How many Create requests the worker has sent. */
  function Attempts(scheduler: Scheduler, kind: Kind): nat {
    if kind == SearchKind then |scheduler.searches.attempted| else |scheduler.pipelines.attempted|
  }

  /** The next request of a worker. */
  function RequestOf(search: string, pod: Pod, kind: Kind): Request {
    Request(search, pod.owner, pod.uid, kind, Attempts(pod.scheduler, kind), pod.template)
  }

  /** Request produced by a scheduler step, if it starts a Create call. */
  function Sent(search: string, pod: Pod, step: F.Step<string, string>): set<Request> {
    if step == F.OnSearches(F.StartCreate) then {RequestOf(search, pod, SearchKind)}
    else if step == F.OnPipelines(F.StartCreate) then {RequestOf(search, pod, PipelineKind)}
    else {}
  }

  /** A Create call succeeds only when the API server answers. It may fail before: the client gives up. */
  predicate IsSuccess(step: F.Step<string, string>) {
    step == F.OnSearches(F.CreateReturns(true)) || step == F.OnPipelines(F.CreateReturns(true))
  }

  predicate GivesUp(step: Step) {
    step.SchedulerStep? &&
    (step.step == F.OnSearches(F.CreateReturns(false)) || step.step == F.OnPipelines(F.CreateReturns(false)))
  }

  predicate Alive(n: Namespace, search: string) {
    search in n.pods && (n.pods[search].phase == Running || n.pods[search].phase == Unknown)
  }

  /** The pod that sent the request is still there and has not ended. */
  predicate Living(n: Namespace, r: Request) {
    r.parent in n.pods && n.pods[r.parent].uid == r.pod && !Terminal(n.pods[r.parent].phase)
  }

  /** Moreover its worker still waits for the answer to this request. */
  predicate Waited(n: Namespace, r: Request) {
    && Living(n, r) && Worker(n.pods[r.parent].scheduler, r.kind).Calling?
    && Attempts(n.pods[r.parent].scheduler, r.kind) == r.number + 1
  }

  function Idle(n: Namespace, search: string): Namespace {
    n.(reconciles := n.reconciles - {search})
  }

  predicate IsReconcileStep(step: Step) {
    || step.Fetch? || step.ReadOrCreatePod? || step.MarkStarted? || step.ListPipelines?
    || step.ListSearches? || step.WriteStatus? || step.Abandon?
  }

  /** Reads the pod; creates it from the copy of the search that was fetched if there is none. */
  function NextReadOrCreatePod(n: Namespace, s: string): Option<Namespace> {
    if s !in n.reconciles || !n.reconciles[s].FetchedSearch? then None
    else
      var r := n.reconciles[s];
      if s in n.pods then
        Some(n.(reconciles := n.reconciles[s := SawPod(r.uid, r.started, n.pods[s].phase)]))
      else
        Some(n.(pods := n.pods[s := Pod(n.nextUid, r.uid, Pending, r.template, F.Start())],
                nextUid := n.nextUid + 1,
                reconciles := n.reconciles[s := SawPod(r.uid, r.started, Pending)]))
  }

  /** The status update carries the identity of the search that was read and fails if the stored search
      is another one. */
  function NextWriteStatus(n: Namespace, s: string): Option<Namespace> {
    if s !in n.reconciles || !n.reconciles[s].ListedSearches? then None
    else
      var r := n.reconciles[s];
      if Completes(r.phase, r.pipelines, r.searches) && s in n.searches && n.searches[s].uid == r.uid then
        Some(Idle(n.(searches := n.searches[s := n.searches[s].(completed := true)],
                     finished := n.finished + {r.uid}), s))
      else Some(Idle(n, s))
  }

  /** The controller's steps. */
  function NextReconcile(n: Namespace, step: Step): Option<Namespace>
    requires IsReconcileStep(step)
  {
    var s := step.search;
    match step
    case Fetch(_) =>
      // a search that has a completion time is left to its time to live
      if s in n.searches && s !in n.reconciles && !n.searches[s].completed then
        var x := n.searches[s];
        Some(n.(reconciles := n.reconciles[s := FetchedSearch(x.uid, x.started, x.template)]))
      else None
    case ReadOrCreatePod(_) => NextReadOrCreatePod(n, s)
    case MarkStarted(_) =>
      if s in n.reconciles && n.reconciles[s].SawPod? && !n.reconciles[s].started
        && s in n.searches && n.searches[s].uid == n.reconciles[s].uid then
        Some(Idle(n.(searches := n.searches[s := n.searches[s].(started := true)]), s))
      else None
    case ListPipelines(_) =>
      if s in n.reconciles && n.reconciles[s].SawPod? && n.reconciles[s].started then
        var r := n.reconciles[s];
        Some(n.(reconciles := n.reconciles[s := ListedPipelines(r.uid, r.phase, UnfinishedPipelines(n, s))]))
      else None
    case ListSearches(_) =>
      if s in n.reconciles && n.reconciles[s].ListedPipelines? then
        var r := n.reconciles[s];
        Some(n.(reconciles := n.reconciles[s := ListedSearches(r.uid, r.phase, r.pipelines, UnfinishedSearches(n, s))]))
      else None
    case WriteStatus(_) => NextWriteStatus(n, s)
    case _ =>
      if s in n.reconciles then Some(Idle(n, s)) else None
  }

  predicate IsPodStep(step: Step) {
    step.PodStarts? || step.PodLost? || step.PodFound? || step.SchedulerStep? || step.Exit? || step.Die?
  }

  function WithPhase(n: Namespace, s: string, phase: Phase): Namespace
    requires s in n.pods
  {
    n.(pods := n.pods[s := n.pods[s].(phase := phase)])
  }

  function NextScheduler(n: Namespace, s: string, step: F.Step<string, string>): Option<Namespace> {
    // success of a Create request is the answer of the API server, see NextServe
    if !Alive(n, s) || IsSuccess(step) then None
    else
      var pod := n.pods[s];
      match F.Next(pod.scheduler, step)
      case None => None
      case Some(scheduler) =>
        Some(n.(pods := n.pods[s := pod.(scheduler := scheduler)], requests := n.requests + Sent(s, pod, step)))
  }

  /** The steps of a search pod. */
  function NextPod(n: Namespace, step: Step): Option<Namespace>
    requires IsPodStep(step)
  {
    var s := step.search;
    if s !in n.pods then None
    else
      var pod := n.pods[s];
      match step
      case PodStarts(_) => if pod.phase == Pending then Some(WithPhase(n, s, Running)) else None
      case PodLost(_) => if pod.phase == Running then Some(WithPhase(n, s, Unknown)) else None
      case PodFound(_) => if pod.phase == Unknown then Some(WithPhase(n, s, Running)) else None
      case SchedulerStep(_, st) => NextScheduler(n, s, st)
      case Exit(_, ok) =>
        // HookCommand returns after the post-stop hook
        if Alive(n, s) && pod.scheduler.hook.Returned? then Some(WithPhase(n, s, if ok then Succeeded else Failed))
        else None
      case _ =>
        // killed, evicted, or failed before the scheduler was set up
        if !Terminal(pod.phase) then Some(WithPhase(n, s, Failed)) else None
  }

  /** Takes the request off its way and resumes the worker that waits for the answer, if there still
      is one. */
  function Answered(n: Namespace, r: Request, ok: bool): Option<Namespace> {
    if r !in n.requests then None
    else if !Waited(n, r) then Some(n.(requests := n.requests - {r}))
    else
      var pod := n.pods[r.parent];
      match F.Next(pod.scheduler, OnKind(r.kind, F.CreateReturns(ok)))
      case None => None
      case Some(scheduler) =>
        Some(n.(requests := n.requests - {r}, pods := n.pods[r.parent := pod.(scheduler := scheduler)]))
  }

  /** Stores the requested object under a generated name that is free. */
  function WithChild(n: Namespace, r: Request, name: string): Option<Namespace> {
    if r.kind == SearchKind then
      if name in n.searches then None
      else
        Some(n.(searches := n.searches[name := Search(n.nextUid, map[SCHEDULED_BY := r.parent], map[], false, false)],
                origins := n.origins[n.nextUid := Origin(name, Some(r.owner))], nextUid := n.nextUid + 1))
    else if name in n.pipelines then None
    else
      Some(n.(pipelines :=
                n.pipelines[name := Pipeline(r.template + map[SCHEDULED_BY := r.parent], Some(r.owner), false)]))
  }

  /** The answer to a Create request: a new object or an error. */
  function NextServe(n: Namespace, r: Request, ok: bool, name: string): Option<Namespace> {
    match Answered(n, r, ok)
    case None => None
    case Some(n1) => if ok then WithChild(n1, r, name) else Some(n1)
  }

  function NextOther(n: Namespace, step: Step): Option<Namespace> {
    match step
    case PipelineCompletes(p) =>
      if p in n.pipelines then Some(n.(pipelines := n.pipelines[p := n.pipelines[p].(completed := true)])) else None
    case CreateSearch(name, labels, template) =>
      // nobody but the scheduler writes the scheduledBy label
      if name in n.searches || SCHEDULED_BY in labels then None
      else
        Some(n.(searches := n.searches[name := Search(n.nextUid, labels, template, false, false)],
                origins := n.origins[n.nextUid := Origin(name, None)], nextUid := n.nextUid + 1))
    case CreatePipeline(name, labels) =>
      if name in n.pipelines || SCHEDULED_BY in labels then None
      else Some(n.(pipelines := n.pipelines[name := Pipeline(labels, None, false)]))
    case DeleteSearch(s) =>
      if s in n.searches then Some(n.(searches := n.searches - {s})) else None
    case DeletePipeline(p) =>
      if p in n.pipelines then Some(n.(pipelines := n.pipelines - {p})) else None
    case DeletePod(s) =>
      if s in n.pods then Some(n.(pods := n.pods - {s})) else None
    case _ => None
  }

  function Next(n: Namespace, step: Step): Option<Namespace> {
    if IsReconcileStep(step) then NextReconcile(n, step)
    else if IsPodStep(step) then NextPod(n, step)
    else if step.Serve? then NextServe(n, step.request, step.ok, step.name)
    else NextOther(n, step)
  }

  function Exec(n: Namespace, steps: seq<Step>): Option<Namespace>
    decreases |steps|
  {
    if steps == [] then Some(n)
    else match Next(n, steps[0])
      case Some(n') => Exec(n', steps[1..])
      case None => None
  }

  const EMPTY: Namespace := Namespace(map[], map[], map[], {}, map[], 0, map[], {})

  // ----- what is left to do below a search, by label -----

  /** Nothing will create children of `search` any more: its pod is gone or has ended. */
  ghost predicate PodDone(n: Namespace, search: string) {
    search in n.pods ==> Terminal(n.pods[search].phase)
  }

  ghost predicate PipelinesDone(n: Namespace, search: string) {
    forall p :: p in n.pipelines && ScheduledBy(n.pipelines[p].labels) == Some(search) ==> n.pipelines[p].completed
  }

  ghost predicate SearchesDone(n: Namespace, search: string) {
    forall s :: s in n.searches && ScheduledBy(n.searches[s].labels) == Some(search) ==> n.searches[s].completed
  }

  /** An empty list of unfinished children means that all children are finished. */
  lemma NothingUnfinished(n: Namespace, s: string)
    ensures UnfinishedPipelines(n, s) == {} <==> PipelinesDone(n, s)
    ensures UnfinishedSearches(n, s) == {} <==> SearchesDone(n, s)
  {
    if UnfinishedPipelines(n, s) == {} {
      forall p | p in n.pipelines && ScheduledBy(n.pipelines[p].labels) == Some(s)
        ensures n.pipelines[p].completed
      {
        assert p !in UnfinishedPipelines(n, s);
      }
    }
    if UnfinishedSearches(n, s) == {} {
      forall t | t in n.searches && ScheduledBy(n.searches[t].labels) == Some(s)
        ensures n.searches[t].completed
      {
        assert t !in UnfinishedSearches(n, s);
      }
    }
  }

  // ----- one reconcile -----

  /** The steps of one reconcile of a started search. */
  function OneReconcile(s: string): seq<Step> {
    [Fetch(s)] + ([ReadOrCreatePod(s)] + ([ListPipelines(s)] + ([ListSearches(s)] + ([WriteStatus(s)] + []))))
  }

  lemma ExecFirst(n: Namespace, a: Step, n': Namespace, rest: seq<Step>)
    requires Next(n, a) == Some(n')
    ensures Exec(n, [a] + rest) == Exec(n', rest)
  {
    assert ([a] + rest)[1..] == rest;
  }

  /** The namespace once a reconcile of `s` has looked for the pod. */
  function WithPod(n: Namespace, s: string): Namespace
    requires s in n.searches
  {
    if s in n.pods then n
    else
      var x := n.searches[s];
      n.(pods := n.pods[s := Pod(n.nextUid, x.uid, Pending, x.template, F.Start())], nextUid := n.nextUid + 1)
  }

  /** What a reconcile has read when it is not interrupted: the state of one moment. */
  lemma UninterruptedReads(n: Namespace, s: string) returns (n4: Namespace)
    requires s in n.searches && n.searches[s].started && !n.searches[s].completed && s !in n.reconciles
    ensures Exec(n, OneReconcile(s)) == Exec(n4, [WriteStatus(s)] + [])
    ensures n4 == WithPod(n, s).(reconciles := n.reconciles[s :=
      ListedSearches(n.searches[s].uid, WithPod(n, s).pods[s].phase, UnfinishedPipelines(n, s),
        UnfinishedSearches(n, s))])
  {
    var n2 := UninterruptedPod(n, s);
    assert UnfinishedPipelines(n2, s) == UnfinishedPipelines(n, s);
    var n3 := Next(n2, ListPipelines(s)).value;
    assert UnfinishedSearches(n3, s) == UnfinishedSearches(n, s);
    n4 := Next(n3, ListSearches(s)).value;
    assert n4.reconciles == n.reconciles[s := n4.reconciles[s]];
    var rest4 := [WriteStatus(s)] + [];
    var rest3 := [ListSearches(s)] + rest4;
    ExecFirst(n2, ListPipelines(s), n3, rest3);
    ExecFirst(n3, ListSearches(s), n4, rest4);
  }

  /** The first two steps of a reconcile. */
  lemma UninterruptedPod(n: Namespace, s: string) returns (n2: Namespace)
    requires s in n.searches && !n.searches[s].completed && s !in n.reconciles
    ensures n2 == WithPod(n, s).(reconciles := n.reconciles[s :=
      SawPod(n.searches[s].uid, n.searches[s].started, WithPod(n, s).pods[s].phase)])
    ensures forall rest :: Exec(n, [Fetch(s)] + ([ReadOrCreatePod(s)] + rest)) == Exec(n2, rest)
  {
    var n1 := Next(n, Fetch(s)).value;
    n2 := Next(n1, ReadOrCreatePod(s)).value;
    assert n2.reconciles == n.reconciles[s := n2.reconciles[s]];
    forall rest ensures Exec(n, [Fetch(s)] + ([ReadOrCreatePod(s)] + rest)) == Exec(n2, rest) {
      ExecFirst(n, Fetch(s), n1, [ReadOrCreatePod(s)] + rest);
      ExecFirst(n1, ReadOrCreatePod(s), n2, rest);
    }
  }

  /** The search `s` is completed, in the store and in the records. */
  function WithCompletion(n: Namespace, s: string): Namespace
    requires s in n.searches
  {
    n.(searches := n.searches[s := n.searches[s].(completed := true)], finished := n.finished + {n.searches[s].uid})
  }

  lemma WritesWhatWasRead(n: Namespace, s: string, r: Progress)
    requires s in n.searches && s !in n.reconciles && r.ListedSearches? && r.uid == n.searches[s].uid
    ensures Next(n.(reconciles := n.reconciles[s := r]), WriteStatus(s)) ==
      Some(if Completes(r.phase, r.pipelines, r.searches) then WithCompletion(n, s) else n)
  {
    assert n.reconciles[s := r] - {s} == n.reconciles;
  }

  /** A reconcile that nothing interrupts completes the search exactly when its pod has ended and
      all its children are finished, and changes nothing else except for creating a missing pod. */
  lemma UninterruptedReconcile(n: Namespace, s: string)
    requires s in n.searches && n.searches[s].started && !n.searches[s].completed && s !in n.reconciles
    ensures var done := s in n.pods && Terminal(n.pods[s].phase) && PipelinesDone(n, s) && SearchesDone(n, s);
            Exec(n, OneReconcile(s)) == Some(if done then WithCompletion(n, s) else WithPod(n, s))
  {
    NothingUnfinished(n, s);
    var n4 := UninterruptedReads(n, s);
    WritesWhatWasRead(WithPod(n, s), s, n4.reconciles[s]);
    ExecFirst(n4, WriteStatus(s), Next(n4, WriteStatus(s)).value, []);
  }
}
