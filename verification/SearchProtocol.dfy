/**
 What every step of the search tree keeps. The protocol is kept by a step if and only if the step is not
 a late answer (InvStepIff).
 */
module SearchProtocol {
  import opened Wrappers
  import opened Labels
  import opened SearchTree
  import F = FifoScheduler

  // ----- the invariant: the protocol, by label -----

  /** What a reconcile that saw a terminal pod and no unfinished children may rely on. */
  ghost predicate Justified(n: Namespace, search: string, r: Progress) {
    match r
    case FetchedSearch(_, _, _) => true
    case SawPod(_, _, phase) =>
      Terminal(phase) ==> PodDone(n, search)
    case ListedPipelines(_, phase, ps) =>
      Terminal(phase) ==> PodDone(n, search) && (ps == {} ==> PipelinesDone(n, search))
    case ListedSearches(_, phase, ps, ss) =>
      Terminal(phase) ==>
        PodDone(n, search) && (ps == {} ==> PipelinesDone(n, search)) && (ss == {} ==> SearchesDone(n, search))
  }

  ghost predicate ReconcilesJustified(n: Namespace) {
    forall s :: s in n.reconciles ==> Justified(n, s, n.reconciles[s])
  }

  ghost predicate Quiet(n: Namespace, s: string) {
    PodDone(n, s) && PipelinesDone(n, s) && SearchesDone(n, s) && s !in n.reconciles
  }

  ghost predicate CompletedQuiet(n: Namespace) {
    forall s :: s in n.searches && n.searches[s].completed ==> Quiet(n, s)
  }

  // ----- the invariant: schedulers and their requests -----

  /** A request whose pod has not ended is one of those that its worker has sent. */
  ghost predicate Owned(n: Namespace, r: Request) {
    Living(n, r) ==>
      var pod := n.pods[r.parent];
      r.number < Attempts(pod.scheduler, r.kind) && r.owner == pod.owner && r.template == pod.template
  }

  ghost predicate RequestsOwned(n: Namespace) { forall r :: r in n.requests ==> Owned(n, r) }

  ghost predicate SchedulersOrderly(n: Namespace) {
    forall s :: s in n.pods ==> F.Inv(n.pods[s].scheduler)
  }

  // ----- the invariant: history -----

  /** Something named `name` by the scheduling search `parent`. */
  ghost predicate Labelled(n: Namespace, labels: LabelMap, parent: Option<nat>) {
    parent.Some? ==> parent.value in n.origins && ScheduledBy(labels) == Some(n.origins[parent.value].name)
  }

  ghost predicate SearchRecorded(n: Namespace, s: string)
    requires s in n.searches
  {
    var x := n.searches[s];
    && x.uid in n.origins && n.origins[x.uid].name == s
    && (x.completed <==> x.uid in n.finished)
    && Labelled(n, x.labels, n.origins[x.uid].parent)
  }

  ghost predicate SearchesRecorded(n: Namespace) { forall s :: s in n.searches ==> SearchRecorded(n, s) }

  ghost predicate PipelinesRecorded(n: Namespace) {
    forall p :: p in n.pipelines ==> Labelled(n, n.pipelines[p].labels, n.pipelines[p].parent)
  }

  /** `u` is a search that was once stored under `name`. */
  ghost predicate Named(n: Namespace, u: nat, name: string) { u in n.origins && n.origins[u].name == name }

  ghost predicate PodRecorded(n: Namespace, s: string)
    requires s in n.pods
  {
    var pod := n.pods[s];
    Named(n, pod.owner, s) && pod.uid < n.nextUid && (!Terminal(pod.phase) ==> pod.owner !in n.finished)
  }

  ghost predicate PodsRecorded(n: Namespace) { forall s :: s in n.pods ==> PodRecorded(n, s) }

  ghost predicate RequestsRecorded(n: Namespace) {
    forall r :: r in n.requests ==> Named(n, r.owner, r.parent) && r.pod < n.nextUid
  }

  ghost predicate ReconcilesRecorded(n: Namespace) {
    forall s :: s in n.reconciles ==> Named(n, n.reconciles[s].uid, s) && n.reconciles[s].uid !in n.finished
  }

  /** A scheduling parent is older than its child. */
  ghost predicate OriginRecorded(n: Namespace, u: nat)
    requires u in n.origins
  {
    u < n.nextUid && (n.origins[u].parent.Some?
      ==> n.origins[u].parent.value in n.origins && n.origins[u].parent.value < u)
  }

  ghost predicate OriginsRecorded(n: Namespace) {
    && (forall u :: u in n.origins ==> OriginRecorded(n, u))
    && (forall u :: u in n.finished ==> u in n.origins)
  }

  ghost predicate Recorded(n: Namespace) {
    && OriginsRecorded(n) && SearchesRecorded(n) && PipelinesRecorded(n)
    && PodsRecorded(n) && RequestsRecorded(n) && ReconcilesRecorded(n)
  }

  /** Below a search that has finished, stored children are finished. */
  ghost predicate SearchClosed(n: Namespace, s: string)
    requires s in n.searches && n.searches[s].uid in n.origins
  {
    var parent := n.origins[n.searches[s].uid].parent;
    parent.Some? && parent.value in n.finished ==> n.searches[s].completed
  }

  ghost predicate PipelineClosed(n: Namespace, p: string)
    requires p in n.pipelines
  {
    var parent := n.pipelines[p].parent;
    parent.Some? && parent.value in n.finished ==> n.pipelines[p].completed
  }

  ghost predicate Closed(n: Namespace)
    requires Recorded(n)
  {
    && (forall s :: s in n.searches ==> SearchRecorded(n, s) && SearchClosed(n, s))
    && (forall p :: p in n.pipelines ==> PipelineClosed(n, p))
  }

  /** What holds in every step. */
  ghost predicate Base(n: Namespace) { RequestsOwned(n) && SchedulersOrderly(n) && Recorded(n) }

  /** What a late answer can break. */
  ghost predicate Inv(n: Namespace) {
    Base(n) && ReconcilesJustified(n) && CompletedQuiet(n) && Closed(n)
  }

  // ----- what the kinds of steps leave alone -----

  lemma ReconcileFrame(n: Namespace, step: Step, n': Namespace)
    requires IsReconcileStep(step) && NextReconcile(n, step) == Some(n')
    ensures n' == n.(searches := n'.searches, pods := n'.pods, reconciles := n'.reconciles,
                     nextUid := n'.nextUid, finished := n'.finished)
    ensures n.nextUid <= n'.nextUid && n.finished <= n'.finished
  {
  }

  lemma PodFrame(n: Namespace, step: Step, n': Namespace)
    requires IsPodStep(step) && NextPod(n, step) == Some(n')
    ensures n' == n.(pods := n'.pods, requests := n'.requests)
  {
  }

  lemma AnsweredFrame(n: Namespace, r: Request, ok: bool, n': Namespace)
    requires Answered(n, r, ok) == Some(n')
    ensures r in n.requests && n' == n.(pods := n'.pods, requests := n.requests - {r})
  {
  }

  lemma OtherFrame(n: Namespace, step: Step, n': Namespace)
    requires NextOther(n, step) == Some(n')
    ensures n' == n.(searches := n'.searches, pipelines := n'.pipelines, pods := n'.pods,
                     nextUid := n'.nextUid, origins := n'.origins)
    ensures n.nextUid <= n'.nextUid
  {
  }

  /** History is never rewritten. */
  ghost predicate Grows(n: Namespace, n': Namespace) {
    && n.nextUid <= n'.nextUid && n.finished <= n'.finished
    && forall u :: u in n.origins ==> u in n'.origins && n'.origins[u] == n.origins[u]
  }

  /** Origins are only added, at most one, under the next identity. */
  ghost predicate Births(n: Namespace, n': Namespace) {
    && (forall u :: u in n.origins && u != n.nextUid ==> u in n'.origins && n'.origins[u] == n.origins[u])
    && (forall u :: u in n'.origins && u !in n.origins ==> u == n.nextUid < n'.nextUid)
  }

  lemma ServeBirths(n: Namespace, r: Request, ok: bool, name: string, n': Namespace)
    requires NextServe(n, r, ok, name) == Some(n')
    ensures Births(n, n') && n'.finished == n.finished && n.nextUid <= n'.nextUid
    ensures n'.origins == n.origins || n'.origins == n.origins[n.nextUid := Origin(name, Some(r.owner))]
  {
    AnsweredFrame(n, r, ok, Answered(n, r, ok).value);
  }

  lemma OtherBirths(n: Namespace, step: Step, n': Namespace)
    requires NextOther(n, step) == Some(n')
    ensures Births(n, n')
    ensures n'.origins == n.origins || exists name :: n'.origins == n.origins[n.nextUid := Origin(name, None)]
  {
    if step.CreateSearch? { assert n'.origins == n.origins[n.nextUid := Origin(step.name, None)]; }
  }

  lemma StepBirths(n: Namespace, step: Step, n': Namespace)
    requires Next(n, step) == Some(n')
    ensures Births(n, n') && n.nextUid <= n'.nextUid && n.finished <= n'.finished
  {
    if IsReconcileStep(step) { ReconcileFrame(n, step, n'); }
    else if IsPodStep(step) { PodFrame(n, step, n'); }
    else if step.Serve? { ServeBirths(n, step.request, step.ok, step.name, n'); }
    else { OtherFrame(n, step, n'); OtherBirths(n, step, n'); }
  }

  lemma StepGrows(n: Namespace, step: Step, n': Namespace)
    requires Next(n, step) == Some(n') && OriginsRecorded(n)
    ensures Grows(n, n')
  {
    StepBirths(n, step, n');
    forall u | u in n.origins ensures u in n'.origins && n'.origins[u] == n.origins[u] { assert OriginRecorded(n, u); }
  }

  // ----- schedulers and requests -----

  lemma SchedulerStepKeepsOrder(n: Namespace, s: string, st: F.Step<string, string>, n': Namespace)
    requires NextScheduler(n, s, st) == Some(n') && SchedulersOrderly(n)
    ensures SchedulersOrderly(n')
  {
    F.InvStep(n.pods[s].scheduler, st);
  }

  lemma AnsweredKeepsOrder(n: Namespace, r: Request, ok: bool, n': Namespace)
    requires Answered(n, r, ok) == Some(n') && SchedulersOrderly(n)
    ensures SchedulersOrderly(n')
  {
    if Waited(n, r) {
      F.InvStep(n.pods[r.parent].scheduler, OnKind(r.kind, F.CreateReturns(ok)));
    }
  }

  lemma ServeKeepsOrder(n: Namespace, r: Request, ok: bool, name: string, n': Namespace)
    requires NextServe(n, r, ok, name) == Some(n') && SchedulersOrderly(n)
    ensures SchedulersOrderly(n')
  {
    var n1 := Answered(n, r, ok).value;
    AnsweredKeepsOrder(n, r, ok, n1);
    assert n'.pods == n1.pods;
  }

  /** Every other step leaves schedulers alone or starts a new one. */
  ghost predicate SchedulersKept(n: Namespace, n': Namespace) {
    forall t :: t in n'.pods ==>
      n'.pods[t].scheduler == F.Start() || (t in n.pods && n'.pods[t].scheduler == n.pods[t].scheduler)
  }

  lemma OthersKeepSchedulers(n: Namespace, step: Step, n': Namespace)
    requires Next(n, step) == Some(n') && !step.SchedulerStep? && !step.Serve?
    ensures SchedulersKept(n, n')
  {
    if IsReconcileStep(step) { ReconcileKeepsSchedulers(n, step, n'); }
    else if IsPodStep(step) { PodStepKeepsSchedulers(n, step, n'); }
  }

  lemma ReconcileKeepsSchedulers(n: Namespace, step: Step, n': Namespace)
    requires IsReconcileStep(step) && NextReconcile(n, step) == Some(n')
    ensures SchedulersKept(n, n')
  {
  }

  lemma PodStepKeepsSchedulers(n: Namespace, step: Step, n': Namespace)
    requires IsPodStep(step) && NextPod(n, step) == Some(n') && !step.SchedulerStep?
    ensures SchedulersKept(n, n')
  {
  }

  lemma KeptIsOrderly(n: Namespace, n': Namespace)
    requires SchedulersOrderly(n) && SchedulersKept(n, n')
    ensures SchedulersOrderly(n')
  {
  }

  lemma StepKeepsOrder(n: Namespace, step: Step, n': Namespace)
    requires Next(n, step) == Some(n') && SchedulersOrderly(n)
    ensures SchedulersOrderly(n')
  {
    if step.SchedulerStep? {
      SchedulerStepKeepsOrder(n, step.search, step.step, n');
    } else if step.Serve? {
      ServeKeepsOrder(n, step.request, step.ok, step.name, n');
    } else {
      OthersKeepSchedulers(n, step, n');
      KeptIsOrderly(n, n');
    }
  }

  lemma SchedulerStepKeepsOwned(n: Namespace, s: string, st: F.Step<string, string>, n': Namespace)
    requires NextScheduler(n, s, st) == Some(n') && RequestsOwned(n)
    ensures RequestsOwned(n')
  {
    forall r | r in n'.requests ensures Owned(n', r) {
      if r in n.requests { assert Owned(n, r); }
    }
  }

  /** A request that is sent is never taken for one that is still on its way. */
  lemma SentIsNew(n: Namespace, s: string, st: F.Step<string, string>, r: Request)
    requires RequestsOwned(n) && NextScheduler(n, s, st).Some? && r in Sent(s, n.pods[s], st)
    ensures r !in n.requests
  {
    if r in n.requests { assert Owned(n, r) && Living(n, r); }
  }

  lemma AnsweredKeepsOwned(n: Namespace, r: Request, ok: bool, n': Namespace)
    requires Answered(n, r, ok) == Some(n') && RequestsOwned(n)
    ensures RequestsOwned(n')
  {
    forall q | q in n'.requests ensures Owned(n', q) {
      assert Owned(n, q) && Owned(n, r);
    }
  }

  /** Which pods other steps touch: they may end, start or disappear, and a new one has a new identity. */
  ghost predicate PodsKept(n: Namespace, n': Namespace) {
    forall t :: t in n'.pods ==>
      var pod := n'.pods[t];
      || (t !in n.pods && pod.uid == n.nextUid)
      || (t in n.pods && pod == n.pods[t].(phase := pod.phase) && (Terminal(n.pods[t].phase) ==> Terminal(pod.phase)))
  }

  lemma OthersKeepPods(n: Namespace, step: Step, n': Namespace)
    requires Next(n, step) == Some(n') && !step.SchedulerStep? && !step.Serve?
    ensures PodsKept(n, n') && n'.requests == n.requests
  {
    if IsReconcileStep(step) { ReconcileKeepsPods(n, step, n'); }
    else if IsPodStep(step) { PodStepKeepsPods(n, step, n'); }
  }

  lemma ReconcileKeepsPods(n: Namespace, step: Step, n': Namespace)
    requires IsReconcileStep(step) && NextReconcile(n, step) == Some(n')
    ensures PodsKept(n, n') && n'.requests == n.requests
  {
  }

  lemma PodStepKeepsPods(n: Namespace, step: Step, n': Namespace)
    requires IsPodStep(step) && NextPod(n, step) == Some(n') && !step.SchedulerStep?
    ensures PodsKept(n, n') && n'.requests == n.requests
  {
  }

  lemma StepKeepsOwned(n: Namespace, step: Step, n': Namespace)
    requires Next(n, step) == Some(n') && RequestsOwned(n) && RequestsRecorded(n)
    ensures RequestsOwned(n')
  {
    if step.SchedulerStep? {
      SchedulerStepKeepsOwned(n, step.search, step.step, n');
    } else if step.Serve? {
      AnsweredKeepsOwned(n, step.request, step.ok, Answered(n, step.request, step.ok).value);
      var n1 := Answered(n, step.request, step.ok).value;
      forall r | r in n'.requests ensures Owned(n', r) { assert Owned(n1, r); }
    } else {
      OthersKeepPods(n, step, n');
      forall r | r in n'.requests ensures Owned(n', r) { assert Owned(n, r); }
    }
  }

  // ----- every step records what it does -----

  lemma StepRecordsOrigins(n: Namespace, step: Step, n': Namespace)
    requires Next(n, step) == Some(n') && Recorded(n)
    ensures OriginsRecorded(n')
  {
    StepGrows(n, step, n');
    StepBirths(n, step, n');
    forall u | u in n'.origins ensures OriginRecorded(n', u) {
      if u in n.origins { assert OriginRecorded(n, u); } else { BirthRecorded(n, step, n', u); }
    }
    forall u | u in n'.finished ensures u in n'.origins {
      if u !in n.finished { FinishedByWrite(n, step, n', u); }
    }
  }

  lemma BirthRecorded(n: Namespace, step: Step, n': Namespace, u: nat)
    requires Next(n, step) == Some(n') && Recorded(n) && u in n'.origins && u !in n.origins && Grows(n, n')
    ensures OriginRecorded(n', u)
  {
    StepBirths(n, step, n');
    if IsReconcileStep(step) { ReconcileFrame(n, step, n'); }
    else if IsPodStep(step) { PodFrame(n, step, n'); }
    else if step.Serve? {
      ServeBirths(n, step.request, step.ok, step.name, n');
      AnsweredFrame(n, step.request, step.ok, Answered(n, step.request, step.ok).value);
      assert Named(n, step.request.owner, step.request.parent);
      assert OriginRecorded(n, step.request.owner);
    } else { OtherBirths(n, step, n'); }
  }

  /** Only the end of a reconcile finishes a search: the one it is about, after it saw an ended pod. */
  lemma FinishedByWrite(n: Namespace, step: Step, n': Namespace, u: nat)
    requires Next(n, step) == Some(n') && Recorded(n) && u in n'.finished && u !in n.finished
    ensures step.WriteStatus? && Named(n, u, step.search) && step.search in n.reconciles
    ensures n.reconciles[step.search].ListedSearches? && n.reconciles[step.search].uid == u
    ensures var r := n.reconciles[step.search];
            Completes(r.phase, r.pipelines, r.searches) && step.search in n.searches && n.searches[step.search].uid == u
  {
    if IsReconcileStep(step) {
      if step.WriteStatus? { assert Named(n, n.reconciles[step.search].uid, step.search); }
    } else if IsPodStep(step) { PodFrame(n, step, n'); }
    else if step.Serve? { ServeBirths(n, step.request, step.ok, step.name, n'); }
    else { OtherFrame(n, step, n'); }
  }

  /** What becomes of the stored search `s`: it keeps its identity and its labels. */
  ghost predicate SameSearch(n: Namespace, n': Namespace, s: string) {
    s in n.searches && s in n'.searches ==>
      && n'.searches[s].uid == n.searches[s].uid && n'.searches[s].labels == n.searches[s].labels
      && (n.searches[s].completed ==> n'.searches[s].completed)
  }

  lemma ReconcileKeepsSearch(n: Namespace, step: Step, n': Namespace, s: string)
    requires IsReconcileStep(step) && NextReconcile(n, step) == Some(n')
    ensures SameSearch(n, n', s) && (s in n.searches <==> s in n'.searches)
    ensures s in n.searches && n'.searches[s].completed && !n.searches[s].completed ==> n.searches[s].uid in n'.finished
    ensures n'.finished == n.finished || (step.search in n'.searches && n'.searches[step.search].completed
      && n'.finished == n.finished + {n.searches[step.search].uid})
  {
  }

  lemma ServeKeepsSearch(n: Namespace, r: Request, ok: bool, name: string, n': Namespace, s: string)
    requires NextServe(n, r, ok, name) == Some(n')
    ensures s in n.searches ==> s in n'.searches && n'.searches[s] == n.searches[s]
    ensures s in n'.searches && s !in n.searches ==>
      && s == name && ok && r.kind == SearchKind
      && n'.searches[s] == Search(n.nextUid, map[SCHEDULED_BY := r.parent], map[], false, false)
      && n'.origins == n.origins[n.nextUid := Origin(name, Some(r.owner))]
  {
    AnsweredFrame(n, r, ok, Answered(n, r, ok).value);
  }

  lemma OtherKeepsSearch(n: Namespace, step: Step, n': Namespace, s: string)
    requires NextOther(n, step) == Some(n') && s in n'.searches
    ensures s in n.searches ==> n'.searches[s] == n.searches[s]
    ensures s !in n.searches ==>
      && n'.searches[s].uid == n.nextUid && !n'.searches[s].completed
      && n'.origins == n.origins[n.nextUid := Origin(s, None)]
  {
  }

  lemma StepRecordsSearches(n: Namespace, step: Step, n': Namespace)
    requires Next(n, step) == Some(n') && Recorded(n)
    ensures SearchesRecorded(n')
  {
    StepGrows(n, step, n');
    forall s | s in n'.searches ensures SearchRecorded(n', s) {
      if s in n.searches { StoredSearchRecorded(n, step, n', s); } else { NewSearchRecorded(n, step, n', s); }
    }
  }

  lemma StillRecorded(n: Namespace, n': Namespace, s: string)
    requires s in n.searches && s in n'.searches && SearchRecorded(n, s) && SameSearch(n, n', s) && Grows(n, n')
    requires n'.searches[s].completed <==> n.searches[s].uid in n'.finished
    ensures SearchRecorded(n', s)
  {
  }

  lemma StoredSearchRecorded(n: Namespace, step: Step, n': Namespace, s: string)
    requires Next(n, step) == Some(n') && Recorded(n) && s in n.searches && s in n'.searches && Grows(n, n')
    ensures SearchRecorded(n', s)
  {
    assert SearchRecorded(n, s);
    if IsReconcileStep(step) {
      ReconcileKeepsSearch(n, step, n', s);
      if step.search in n.searches { assert SearchRecorded(n, step.search); }
    } else if IsPodStep(step) { PodFrame(n, step, n'); }
    else if step.Serve? {
      ServeKeepsSearch(n, step.request, step.ok, step.name, n', s);
      ServeBirths(n, step.request, step.ok, step.name, n');
    } else {
      OtherKeepsSearch(n, step, n', s);
      OtherFrame(n, step, n');
    }
    StillRecorded(n, n', s);
  }

  lemma NewSearchRecorded(n: Namespace, step: Step, n': Namespace, s: string)
    requires Next(n, step) == Some(n') && Recorded(n) && s in n'.searches && s !in n.searches && Grows(n, n')
    ensures SearchRecorded(n', s)
  {
    FreshIsUnknown(n);
    if IsReconcileStep(step) { ReconcileKeepsSearch(n, step, n', s); }
    else if IsPodStep(step) { PodFrame(n, step, n'); }
    else if step.Serve? {
      ServeKeepsSearch(n, step.request, step.ok, step.name, n', s);
      ServeBirths(n, step.request, step.ok, step.name, n');
      AnsweredFrame(n, step.request, step.ok, Answered(n, step.request, step.ok).value);
      assert Named(n, step.request.owner, step.request.parent);
    } else {
      OtherKeepsSearch(n, step, n', s);
      OtherFrame(n, step, n');
    }
  }

  lemma FreshIsUnknown(n: Namespace)
    requires OriginsRecorded(n)
    ensures n.nextUid !in n.origins && n.nextUid !in n.finished
  {
  }

  /** What becomes of the pipeline `p`: it keeps its parent and its labels. */
  ghost predicate SamePipeline(n: Namespace, n': Namespace, p: string) {
    p in n.pipelines && p in n'.pipelines ==>
      && n'.pipelines[p].parent == n.pipelines[p].parent && n'.pipelines[p].labels == n.pipelines[p].labels
      && (n.pipelines[p].completed ==> n'.pipelines[p].completed)
  }

  lemma ServeKeepsPipeline(n: Namespace, r: Request, ok: bool, name: string, n': Namespace, p: string)
    requires NextServe(n, r, ok, name) == Some(n')
    ensures p in n.pipelines ==> p in n'.pipelines && n'.pipelines[p] == n.pipelines[p]
    ensures p in n'.pipelines && p !in n.pipelines ==>
      && p == name && ok && r.kind == PipelineKind
      && n'.pipelines[p] == Pipeline(r.template + map[SCHEDULED_BY := r.parent], Some(r.owner), false)
  {
    AnsweredFrame(n, r, ok, Answered(n, r, ok).value);
  }

  lemma OtherKeepsPipeline(n: Namespace, step: Step, n': Namespace, p: string)
    requires NextOther(n, step) == Some(n') && p in n'.pipelines
    ensures SamePipeline(n, n', p)
    ensures p !in n.pipelines ==> n'.pipelines[p].parent == None && ScheduledBy(n'.pipelines[p].labels) == None
  {
  }

  lemma StepRecordsPipelines(n: Namespace, step: Step, n': Namespace)
    requires Next(n, step) == Some(n') && Recorded(n)
    ensures PipelinesRecorded(n')
  {
    StepGrows(n, step, n');
    forall p | p in n'.pipelines ensures Labelled(n', n'.pipelines[p].labels, n'.pipelines[p].parent) {
      PipelineRecorded(n, step, n', p);
    }
  }

  lemma PipelineRecorded(n: Namespace, step: Step, n': Namespace, p: string)
    requires Next(n, step) == Some(n') && Recorded(n) && p in n'.pipelines && Grows(n, n')
    ensures Labelled(n', n'.pipelines[p].labels, n'.pipelines[p].parent)
  {
    if p in n.pipelines { assert Labelled(n, n.pipelines[p].labels, n.pipelines[p].parent); }
    if IsReconcileStep(step) { ReconcileFrame(n, step, n'); }
    else if IsPodStep(step) { PodFrame(n, step, n'); }
    else if step.Serve? {
      ServeKeepsPipeline(n, step.request, step.ok, step.name, n', p);
      AnsweredFrame(n, step.request, step.ok, Answered(n, step.request, step.ok).value);
      assert Named(n, step.request.owner, step.request.parent);
    } else { OtherKeepsPipeline(n, step, n', p); }
  }

  lemma StepRecordsReconciles(n: Namespace, step: Step, n': Namespace)
    requires Next(n, step) == Some(n') && Recorded(n)
    ensures ReconcilesRecorded(n')
  {
    StepGrows(n, step, n');
    forall s | s in n'.reconciles ensures Named(n', n'.reconciles[s].uid, s) && n'.reconciles[s].uid !in n'.finished {
      ReconcileRecorded(n, step, n', s);
      if n'.reconciles[s].uid in n'.finished { FinishedByWrite(n, step, n', n'.reconciles[s].uid); }
    }
  }

  /** A reconcile in flight is about the search it has fetched. */
  lemma ReconcileRecorded(n: Namespace, step: Step, n': Namespace, s: string)
    requires Next(n, step) == Some(n') && Recorded(n) && s in n'.reconciles
    ensures Named(n, n'.reconciles[s].uid, s) && n'.reconciles[s].uid !in n.finished
    ensures !(step.WriteStatus? && step.search == s)
  {
    if s in n.reconciles { assert Named(n, n.reconciles[s].uid, s); }
    if IsReconcileStep(step) {
      ReconcileStepKeepsUid(n, step, n', s);
      if s !in n.reconciles { assert SearchRecorded(n, s); }
    } else if IsPodStep(step) { PodFrame(n, step, n'); }
    else if step.Serve? { AnsweredFrame(n, step.request, step.ok, Answered(n, step.request, step.ok).value); }
    else { OtherFrame(n, step, n'); }
  }

  lemma ReconcileStepKeepsUid(n: Namespace, step: Step, n': Namespace, s: string)
    requires IsReconcileStep(step) && NextReconcile(n, step) == Some(n') && s in n'.reconciles
    ensures s in n.reconciles ==> n'.reconciles[s].uid == n.reconciles[s].uid
    ensures s !in n.reconciles ==>
      s in n.searches && !n.searches[s].completed && n'.reconciles[s].uid == n.searches[s].uid
    ensures !(step.WriteStatus? && step.search == s)
  {
  }

  /** What becomes of the pod of `s`. */
  ghost predicate SamePod(n: Namespace, n': Namespace, s: string) {
    s in n.pods && s in n'.pods ==>
      && n'.pods[s].uid == n.pods[s].uid && n'.pods[s].owner == n.pods[s].owner
      && n'.pods[s].template == n.pods[s].template
      && (Terminal(n.pods[s].phase) ==> Terminal(n'.pods[s].phase))
  }

  lemma ReconcileKeepsPod(n: Namespace, step: Step, n': Namespace, s: string)
    requires IsReconcileStep(step) && NextReconcile(n, step) == Some(n') && s in n'.pods
    ensures s in n.pods ==> n'.pods[s] == n.pods[s]
    ensures s !in n.pods ==>
      && step == ReadOrCreatePod(s) && s in n.reconciles && n.reconciles[s].FetchedSearch?
      && n'.pods[s].owner == n.reconciles[s].uid && n'.pods[s].uid == n.nextUid && n'.nextUid == n.nextUid + 1
      && n'.finished == n.finished
  {
  }

  lemma PodStepKeepsPod(n: Namespace, step: Step, n': Namespace, s: string)
    requires IsPodStep(step) && NextPod(n, step) == Some(n')
    ensures SamePod(n, n', s) && (s in n.pods <==> s in n'.pods)
  {
  }

  lemma AnsweredKeepsPod(n: Namespace, r: Request, ok: bool, n': Namespace, s: string)
    requires Answered(n, r, ok) == Some(n')
    ensures SamePod(n, n', s) && (s in n.pods <==> s in n'.pods)
  {
  }

  lemma OtherKeepsPod(n: Namespace, step: Step, n': Namespace, s: string)
    requires NextOther(n, step) == Some(n') && s in n'.pods
    ensures s in n.pods && n'.pods[s] == n.pods[s]
  {
  }

  /** A pod there was is the same pod, and a new one is created by a reconcile that found none. */
  lemma PodKept(n: Namespace, step: Step, n': Namespace, s: string)
    requires Next(n, step) == Some(n') && s in n'.pods
    ensures SamePod(n, n', s)
    ensures s !in n.pods ==>
      && step == ReadOrCreatePod(s) && s in n.reconciles && n.reconciles[s].FetchedSearch?
      && n'.pods[s].owner == n.reconciles[s].uid && n'.pods[s].uid == n.nextUid && n'.nextUid == n.nextUid + 1
      && n'.finished == n.finished
  {
    if IsReconcileStep(step) { ReconcileKeepsPod(n, step, n', s); }
    else if IsPodStep(step) { PodStepKeepsPod(n, step, n', s); }
    else if step.Serve? { AnsweredKeepsPod(n, step.request, step.ok, Answered(n, step.request, step.ok).value, s); }
    else { OtherKeepsPod(n, step, n', s); }
  }

  /** What a reconcile saw of the pod is what the pod is, or was. */
  lemma StepRecordsPods(n: Namespace, step: Step, n': Namespace)
    requires Next(n, step) == Some(n') && Recorded(n) && ReconcilesJustified(n)
    ensures PodsRecorded(n')
  {
    StepGrows(n, step, n');
    forall s | s in n'.pods ensures PodRecorded(n', s) { RecordPod(n, step, n', s); }
  }

  lemma RecordPod(n: Namespace, step: Step, n': Namespace, s: string)
    requires Next(n, step) == Some(n') && Recorded(n) && ReconcilesJustified(n) && Grows(n, n') && s in n'.pods
    ensures PodRecorded(n', s)
  {
    PodKept(n, step, n', s);
    if s in n.pods {
      assert PodRecorded(n, s);
      if n.pods[s].owner in n'.finished && n.pods[s].owner !in n.finished {
        FinishedByWrite(n, step, n', n.pods[s].owner);
        assert Justified(n, step.search, n.reconciles[step.search]);
        assert PodDone(n, s);
      }
    } else {
      assert Named(n, n.reconciles[s].uid, s);
    }
  }

  lemma StepRecordsRequests(n: Namespace, step: Step, n': Namespace)
    requires Next(n, step) == Some(n') && Recorded(n)
    ensures RequestsRecorded(n')
  {
    StepGrows(n, step, n');
    forall r | r in n'.requests ensures Named(n', r.owner, r.parent) && r.pod < n'.nextUid {
      if r in n.requests { assert Named(n, r.owner, r.parent); } else { NewRequest(n, step, n', r); }
    }
  }

  lemma NewRequest(n: Namespace, step: Step, n': Namespace, r: Request)
    requires Next(n, step) == Some(n') && Recorded(n) && r in n'.requests && r !in n.requests
    ensures Named(n, r.owner, r.parent) && r.pod < n.nextUid
  {
    if IsPodStep(step) {
      RequestOfPod(n, step, n', r);
      assert PodRecorded(n, r.parent);
    } else {
      OthersSendNothing(n, step, n');
    }
  }

  lemma OthersSendNothing(n: Namespace, step: Step, n': Namespace)
    requires Next(n, step) == Some(n') && !IsPodStep(step)
    ensures n'.requests <= n.requests
  {
    if IsReconcileStep(step) { ReconcileFrame(n, step, n'); }
    else if step.Serve? { AnsweredFrame(n, step.request, step.ok, Answered(n, step.request, step.ok).value); }
    else { OtherFrame(n, step, n'); }
  }

  lemma RequestOfPod(n: Namespace, step: Step, n': Namespace, r: Request)
    requires IsPodStep(step) && NextPod(n, step) == Some(n') && r in n'.requests && r !in n.requests
    ensures r.parent in n.pods && r.owner == n.pods[r.parent].owner && r.pod == n.pods[r.parent].uid
  {
  }

  lemma BaseStep(n: Namespace, step: Step, n': Namespace)
    requires Next(n, step) == Some(n') && Base(n) && ReconcilesJustified(n)
    ensures Base(n')
  {
    StepKeepsOrder(n, step, n');
    StepKeepsOwned(n, step, n');
    StepRecordsOrigins(n, step, n');
    StepRecordsSearches(n, step, n');
    StepRecordsPipelines(n, step, n');
    StepRecordsPods(n, step, n');
    StepRecordsRequests(n, step, n');
    StepRecordsReconciles(n, step, n');
  }

  // ----- late answers -----

  /** The step stores an object of the given kind that a scheduler asked for. */
  predicate Grants(step: Step, kind: Kind) { step.Serve? && step.ok && step.request.kind == kind }

  /** A reconcile in flight counts on the absence of unfinished children of the kind. */
  predicate Relies(r: Progress, kind: Kind) {
    match r
    case ListedPipelines(_, phase, ps) => Terminal(phase) && kind == PipelineKind && ps == {}
    case ListedSearches(_, phase, ps, ss) => Terminal(phase) && (if kind == PipelineKind then ps == {} else ss == {})
    case _ => false
  }

  /** A Create request is granted although its parent is completed already, by identity or by name, or a
      reconcile of the parent in flight counts on there being no further child. */
  predicate LateAnswer(n: Namespace, step: Step) {
    step.Serve? && step.ok &&
    var r := step.request;
    || r.owner in n.finished
    || (r.parent in n.searches && n.searches[r.parent].completed)
    || (r.parent in n.reconciles && Relies(n.reconciles[r.parent], r.kind))
  }

  /** A new child is unfinished and recorded under its parent's name and identity. */
  ghost predicate IsChild(n: Namespace, r: Request, name: string) {
    match r.kind
    case SearchKind =>
      && name in n.searches && !n.searches[name].completed && ScheduledBy(n.searches[name].labels) == Some(r.parent)
      && n.searches[name].uid in n.origins && n.origins[n.searches[name].uid].parent == Some(r.owner)
    case PipelineKind =>
      && name in n.pipelines && !n.pipelines[name].completed && ScheduledBy(n.pipelines[name].labels) == Some(r.parent)
      && n.pipelines[name].parent == Some(r.owner)
  }

  lemma ServedChild(n: Namespace, r: Request, name: string, n': Namespace)
    requires NextServe(n, r, true, name) == Some(n')
    ensures IsChild(n', r, name) && n'.reconciles == n.reconciles && n'.finished == n.finished
    ensures r.parent in n.searches ==> r.parent in n'.searches && n'.searches[r.parent] == n.searches[r.parent]
  {
    AnsweredFrame(n, r, true, Answered(n, r, true).value);
  }

  /** A child pipeline keeps the labels of the template, but for the one that names the scheduling search. */
  lemma ServedPipeline(n: Namespace, r: Request, name: string, n': Namespace)
    requires NextServe(n, r, true, name) == Some(n') && r.kind == PipelineKind
    ensures name in n'.pipelines && n'.pipelines[name].labels == r.template[SCHEDULED_BY := r.parent]
  {
  }

  /** A late answer breaks the protocol. */
  lemma LateAnswerBreaks(n: Namespace, step: Step, n': Namespace)
    requires Inv(n) && Next(n, step) == Some(n') && LateAnswer(n, step)
    ensures !Inv(n')
  {
    var r := step.request;
    ServedChild(n, r, step.name, n');
    if r.parent in n.searches && n.searches[r.parent].completed {
      assert !Quiet(n', r.parent);
    } else if r.parent in n.reconciles && Relies(n.reconciles[r.parent], r.kind) {
      assert !Justified(n', r.parent, n'.reconciles[r.parent]);
    } else if r.kind == SearchKind {
      assert !SearchClosed(n', step.name);
    } else {
      assert !PipelineClosed(n', step.name);
    }
  }

  /** Once the pod of a search has ended or is gone, only a reconcile that has just started could bring
      one back. */
  lemma StepKeepsPodDone(n: Namespace, step: Step, n': Namespace, s: string)
    requires Next(n, step) == Some(n') && PodDone(n, s)
    requires s in n.reconciles ==> !n.reconciles[s].FetchedSearch?
    ensures PodDone(n', s)
  {
    if s in n'.pods { PodKept(n, step, n', s); }
  }

  /** A finished set of child pipelines stays finished but for the answer to a Create request. */
  lemma StepKeepsPipelinesDone(n: Namespace, step: Step, n': Namespace, s: string)
    requires Next(n, step) == Some(n') && PipelinesDone(n, s)
    requires !(Grants(step, PipelineKind) && step.request.parent == s)
    ensures PipelinesDone(n', s)
  {
    forall p | p in n'.pipelines && ScheduledBy(n'.pipelines[p].labels) == Some(s) ensures n'.pipelines[p].completed {
      if IsReconcileStep(step) { ReconcileFrame(n, step, n'); }
      else if IsPodStep(step) { PodFrame(n, step, n'); }
      else if step.Serve? { ServeKeepsPipeline(n, step.request, step.ok, step.name, n', p); }
      else { OtherKeepsPipeline(n, step, n', p); }
    }
  }

  lemma StepKeepsSearchesDone(n: Namespace, step: Step, n': Namespace, s: string)
    requires Next(n, step) == Some(n') && SearchesDone(n, s)
    requires !(Grants(step, SearchKind) && step.request.parent == s)
    ensures SearchesDone(n', s)
  {
    forall t | t in n'.searches && ScheduledBy(n'.searches[t].labels) == Some(s) ensures n'.searches[t].completed {
      if IsReconcileStep(step) { ReconcileKeepsSearch(n, step, n', t); }
      else if IsPodStep(step) { PodFrame(n, step, n'); }
      else if step.Serve? { ServeKeepsSearch(n, step.request, step.ok, step.name, n', t); }
      else { OtherKeepsUnlabelled(n, step, n', t); }
    }
  }

  lemma OtherKeepsUnlabelled(n: Namespace, step: Step, n': Namespace, t: string)
    requires NextOther(n, step) == Some(n') && t in n'.searches
    ensures t in n.searches ==> n'.searches[t] == n.searches[t]
    ensures t !in n.searches ==> ScheduledBy(n'.searches[t].labels) == None
  {
  }

  // ----- every step that is not a late answer keeps the protocol -----

  predicate IsReconcileOf(step: Step, s: string) { IsReconcileStep(step) && step.search == s }

  /** A reconcile of another search, or a step of anyone else, leaves what a reconcile has read alone. */
  lemma OthersLeaveReconcile(n: Namespace, step: Step, n': Namespace, s: string)
    requires Next(n, step) == Some(n') && !IsReconcileOf(step, s)
    ensures s in n'.reconciles <==> s in n.reconciles
    ensures s in n.reconciles ==> n'.reconciles[s] == n.reconciles[s]
  {
    if IsReconcileStep(step) { }
    else if IsPodStep(step) { PodFrame(n, step, n'); }
    else if step.Serve? { AnsweredFrame(n, step.request, step.ok, Answered(n, step.request, step.ok).value); }
    else { OtherFrame(n, step, n'); }
  }

  /** A reconcile that goes on reading sees what it may rely on. */
  lemma ReadingJustifies(n: Namespace, step: Step, n': Namespace, s: string)
    requires NextReconcileOf(n, step, s) == Some(n') && ReconcilesJustified(n) && s in n'.reconciles
    ensures Justified(n', s, n'.reconciles[s])
  {
    if !step.Fetch? { assert Justified(n, s, n.reconciles[s]); }
    if step.ListPipelines? || step.ListSearches? { ListingJustifies(n, step, n', s); }
  }

  lemma ListingJustifies(n: Namespace, step: Step, n': Namespace, s: string)
    requires NextReconcileOf(n, step, s) == Some(n') && (step.ListPipelines? || step.ListSearches?)
    requires s in n.reconciles && Justified(n, s, n.reconciles[s])
    ensures s in n'.reconciles && Justified(n', s, n'.reconciles[s])
  {
    NothingUnfinished(n, s);
  }

  function NextReconcileOf(n: Namespace, step: Step, s: string): Option<Namespace> {
    if IsReconcileOf(step, s) then NextReconcile(n, step) else None
  }

  lemma StillJustified(n: Namespace, step: Step, n': Namespace, s: string)
    requires Next(n, step) == Some(n') && s in n.reconciles && Justified(n, s, n.reconciles[s]) && !LateAnswer(n, step)
    ensures Justified(n', s, n.reconciles[s])
  {
    var r := n.reconciles[s];
    if !r.FetchedSearch? && Terminal(r.phase) {
      StepKeepsPodDone(n, step, n', s);
      if Relies(r, PipelineKind) { StepKeepsPipelinesDone(n, step, n', s); }
      if Relies(r, SearchKind) { StepKeepsSearchesDone(n, step, n', s); }
    }
  }

  lemma StepKeepsJustified(n: Namespace, step: Step, n': Namespace)
    requires Next(n, step) == Some(n') && Inv(n) && !LateAnswer(n, step)
    ensures ReconcilesJustified(n')
  {
    forall s | s in n'.reconciles ensures Justified(n', s, n'.reconciles[s]) {
      if IsReconcileOf(step, s) {
        ReadingJustifies(n, step, n', s);
      } else {
        OthersLeaveReconcile(n, step, n', s);
        StillJustified(n, step, n', s);
      }
    }
  }

  /** A search has a completion time if it had one, or if a justified reconcile has just written it. */
  lemma CompletedNowOrBefore(n: Namespace, step: Step, n': Namespace, s: string)
    requires Next(n, step) == Some(n') && Inv(n) && s in n'.searches && n'.searches[s].completed
    ensures PodDone(n, s) && PipelinesDone(n, s) && SearchesDone(n, s) && s !in n'.reconciles
    ensures s in n.reconciles ==> !n.reconciles[s].FetchedSearch? && IsReconcileOf(step, s)
  {
    if IsReconcileStep(step) {
      CompletedByReconcile(n, step, n', s);
    } else {
      OthersComplete(n, step, n', s);
      assert Quiet(n, s);
      OthersLeaveReconcile(n, step, n', s);
    }
  }

  lemma OthersComplete(n: Namespace, step: Step, n': Namespace, s: string)
    requires Next(n, step) == Some(n') && !IsReconcileStep(step) && s in n'.searches && n'.searches[s].completed
    ensures s in n.searches && n.searches[s].completed
  {
    if IsPodStep(step) { PodFrame(n, step, n'); }
    else if step.Serve? { ServeKeepsSearch(n, step.request, step.ok, step.name, n', s); }
    else { OtherKeepsSearch(n, step, n', s); }
  }

  lemma CompletedByReconcile(n: Namespace, step: Step, n': Namespace, s: string)
    requires IsReconcileStep(step) && NextReconcile(n, step) == Some(n') && ReconcilesJustified(n) && CompletedQuiet(n)
    requires s in n'.searches && n'.searches[s].completed
    ensures PodDone(n, s) && PipelinesDone(n, s) && SearchesDone(n, s) && s !in n'.reconciles
    ensures s in n.reconciles ==> !n.reconciles[s].FetchedSearch? && IsReconcileOf(step, s)
  {
    if s in n.searches && n.searches[s].completed {
      assert Quiet(n, s);
    } else {
      assert Justified(n, s, n.reconciles[s]);
    }
  }

  lemma StepKeepsCompletedQuiet(n: Namespace, step: Step, n': Namespace)
    requires Next(n, step) == Some(n') && Inv(n) && !LateAnswer(n, step)
    ensures CompletedQuiet(n')
  {
    forall s | s in n'.searches && n'.searches[s].completed ensures Quiet(n', s) {
      CompletedNowOrBefore(n, step, n', s);
      StepKeepsPodDone(n, step, n', s);
      NotForCompleted(n, step, n', s);
      StepKeepsPipelinesDone(n, step, n', s);
      StepKeepsSearchesDone(n, step, n', s);
    }
  }

  /** An answer that is not late is not for a completed search. */
  lemma NotForCompleted(n: Namespace, step: Step, n': Namespace, s: string)
    requires Next(n, step) == Some(n') && !LateAnswer(n, step) && s in n'.searches && n'.searches[s].completed
    ensures !(step.Serve? && step.ok && step.request.parent == s)
  {
    if step.Serve? { ServeKeepsSearch(n, step.request, step.ok, step.name, n', s); }
  }

  lemma StepKeepsSearchClosed(n: Namespace, step: Step, n': Namespace, s: string)
    requires Next(n, step) == Some(n') && Inv(n) && Recorded(n') && !LateAnswer(n, step) && s in n'.searches
    requires SearchRecorded(n', s)
    ensures SearchClosed(n', s)
  {
    var u := n'.searches[s].uid;
    var parent := n'.origins[u].parent;
    if parent.Some? && parent.value in n'.finished {
      if parent.value in n.finished { ClosedBefore(n, step, n', s); } else { ClosedNow(n, step, n', s); }
    }
  }

  lemma ClosedBefore(n: Namespace, step: Step, n': Namespace, s: string)
    requires Next(n, step) == Some(n') && Inv(n) && !LateAnswer(n, step) && s in n'.searches && SearchRecorded(n', s)
    requires n'.origins[n'.searches[s].uid].parent.Some? && n'.origins[n'.searches[s].uid].parent.value in n.finished
    ensures n'.searches[s].completed
  {
    StepGrows(n, step, n');
    if s in n.searches {
      assert SearchRecorded(n, s) && SearchClosed(n, s);
      StoredStaysSame(n, step, n', s);
    } else {
      OnlyBirthsAddSearches(n, step, n', s);
    }
  }

  lemma StoredStaysSame(n: Namespace, step: Step, n': Namespace, s: string)
    requires Next(n, step) == Some(n') && s in n.searches
    ensures SameSearch(n, n', s)
  {
    if IsReconcileStep(step) { ReconcileKeepsSearch(n, step, n', s); }
    else if IsPodStep(step) { PodFrame(n, step, n'); }
    else if step.Serve? { ServeKeepsSearch(n, step.request, step.ok, step.name, n', s); }
    else if s in n'.searches { OtherKeepsSearch(n, step, n', s); }
  }

  lemma OnlyBirthsAddSearches(n: Namespace, step: Step, n': Namespace, s: string)
    requires Next(n, step) == Some(n') && s in n'.searches && s !in n.searches
    ensures n'.searches[s].uid == n.nextUid && !n'.searches[s].completed
    ensures || (step.CreateSearch? && n'.origins == n.origins[n.nextUid := Origin(s, None)])
            || (Grants(step, SearchKind) && n'.origins == n.origins[n.nextUid := Origin(s, Some(step.request.owner))])
  {
    if IsReconcileStep(step) { ReconcileKeepsSearch(n, step, n', s); }
    else if IsPodStep(step) { PodFrame(n, step, n'); }
    else if step.Serve? { ServeKeepsSearch(n, step.request, step.ok, step.name, n', s); }
    else { OtherKeepsSearch(n, step, n', s); OthersCreate(n, step, n', s); }
  }

  lemma OthersCreate(n: Namespace, step: Step, n': Namespace, s: string)
    requires NextOther(n, step) == Some(n') && s in n'.searches && s !in n.searches
    ensures step.CreateSearch?
  {
  }

  /** A search is completed only when its pod is done and all children of its name are finished. */
  lemma FinishedAfterAll(n: Namespace, step: Step, n': Namespace, u: nat)
    requires Next(n, step) == Some(n') && Inv(n) && u in n'.finished && u !in n.finished
    ensures IsReconcileStep(step) && Named(n, u, step.search)
    ensures PodDone(n, step.search) && PipelinesDone(n, step.search) && SearchesDone(n, step.search)
  {
    FinishedByWrite(n, step, n', u);
    assert Justified(n, step.search, n.reconciles[step.search]);
  }

  /** The parent has just been finished: its reconcile saw all children of its name finished. */
  lemma ClosedNow(n: Namespace, step: Step, n': Namespace, s: string)
    requires Next(n, step) == Some(n') && Inv(n) && s in n'.searches && SearchRecorded(n', s)
    requires var parent := n'.origins[n'.searches[s].uid].parent;
      parent.Some? && parent.value in n'.finished && parent.value !in n.finished
    ensures n'.searches[s].completed
  {
    var u := n'.origins[n'.searches[s].uid].parent.value;
    FinishedAfterAll(n, step, n', u);
    StepGrows(n, step, n');
    ReconcileKeepsSearch(n, step, n', s);
    assert SearchRecorded(n, s);
  }

  lemma StepKeepsPipelineClosed(n: Namespace, step: Step, n': Namespace, p: string)
    requires Next(n, step) == Some(n') && Inv(n) && !LateAnswer(n, step) && p in n'.pipelines
    ensures PipelineClosed(n', p)
  {
    var parent := n'.pipelines[p].parent;
    if parent.Some? && parent.value in n'.finished {
      if p in n.pipelines {
        assert PipelineClosed(n, p) && Labelled(n, n.pipelines[p].labels, n.pipelines[p].parent);
        PipelineStaysSame(n, step, n', p);
        if parent.value !in n.finished {
          FinishedAfterAll(n, step, n', parent.value);
        }
      } else {
        NewPipelineOpen(n, step, n', p);
      }
    }
  }

  lemma PipelineStaysSame(n: Namespace, step: Step, n': Namespace, p: string)
    requires Next(n, step) == Some(n') && p in n.pipelines
    ensures SamePipeline(n, n', p)
  {
    if IsReconcileStep(step) { ReconcileFrame(n, step, n'); }
    else if IsPodStep(step) { PodFrame(n, step, n'); }
    else if step.Serve? { ServeKeepsPipeline(n, step.request, step.ok, step.name, n', p); }
    else if p in n'.pipelines { OtherKeepsPipeline(n, step, n', p); }
  }

  lemma NewPipelineOpen(n: Namespace, step: Step, n': Namespace, p: string)
    requires Next(n, step) == Some(n') && p in n'.pipelines && p !in n.pipelines
    ensures n'.pipelines[p].parent.Some? ==>
      step.Serve? && step.ok && n'.pipelines[p].parent == Some(step.request.owner) && n'.finished == n.finished
  {
    if IsReconcileStep(step) { ReconcileFrame(n, step, n'); }
    else if IsPodStep(step) { PodFrame(n, step, n'); }
    else if step.Serve? {
      ServeKeepsPipeline(n, step.request, step.ok, step.name, n', p);
      ServeBirths(n, step.request, step.ok, step.name, n');
    } else { OtherKeepsPipeline(n, step, n', p); }
  }

  lemma StepKeepsClosed(n: Namespace, step: Step, n': Namespace)
    requires Next(n, step) == Some(n') && Inv(n) && Recorded(n') && !LateAnswer(n, step)
    ensures Closed(n')
  {
    forall s | s in n'.searches ensures SearchRecorded(n', s) && SearchClosed(n', s) {
      assert SearchRecorded(n', s);
      StepKeepsSearchClosed(n, step, n', s);
    }
    forall p | p in n'.pipelines ensures PipelineClosed(n', p) { StepKeepsPipelineClosed(n, step, n', p); }
  }

  /** The protocol survives a step, whatever happens to pods, nodes and objects, if and only if the step is
      not a late answer. */
  lemma InvStepIff(n: Namespace, step: Step, n': Namespace)
    requires Inv(n) && Next(n, step) == Some(n')
    ensures Inv(n') <==> !LateAnswer(n, step)
  {
    if LateAnswer(n, step) {
      LateAnswerBreaks(n, step, n');
    } else {
      BaseStep(n, step, n');
      StepKeepsJustified(n, step, n');
      StepKeepsCompletedQuiet(n, step, n');
      StepKeepsClosed(n, step, n');
    }
  }

  /** None of the steps is a late answer at the moment it is taken. */
  ghost predicate InTime(n: Namespace, steps: seq<Step>)
    decreases |steps|
  {
    steps == [] || (!LateAnswer(n, steps[0])
      && (Next(n, steps[0]).Some? ==> InTime(Next(n, steps[0]).value, steps[1..])))
  }

  lemma {:induction false} InvExec(n: Namespace, steps: seq<Step>, after: Namespace)
    requires Inv(n) && Exec(n, steps) == Some(after) && InTime(n, steps)
    ensures Inv(after)
    decreases |steps|
  {
    if steps != [] {
      var n' := Next(n, steps[0]).value;
      InvStepIff(n, steps[0], n');
      InvExec(n', steps[1..], after);
    }
  }
}
