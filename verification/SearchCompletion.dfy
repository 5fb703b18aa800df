/**
 What the protocol means for completed searches. Below a search that has been completed, everything that
 was ever scheduled has been completed, unless it, or a search in between, was deleted before
 (CompletedTreeIsFinished). No answer is late if no pod ends or goes while a request of it is on its way
 (CleanRunsAreInTime); and wrappers do not exit so unless a worker gives up (GentleRunsAreInTime).
 */
module SearchCompletion {
  import opened Wrappers
  import opened Labels
  import opened SearchTree
  import opened SearchProtocol
  import F = FifoScheduler

  /** `path` walks down the scheduling tree as it was recorded: each search was scheduled by the one
      before, whether or not they are still stored. */
  ghost predicate Lineage(n: Namespace, path: seq<nat>) {
    && path != [] && (forall i :: 0 <= i < |path| ==> path[i] in n.origins)
    && forall i :: 0 < i < |path| ==> n.origins[path[i]].parent == Some(path[i - 1])
  }

  predicate IsStored(n: Namespace, u: nat) {
    u in n.origins && n.origins[u].name in n.searches && n.searches[n.origins[u].name].uid == u
  }

  /** The search was deleted before it was completed. */
  predicate Lost(n: Namespace, u: nat) { u in n.origins && u !in n.finished && !IsStored(n, u) }

  /** The search was completed, has no pod that could create more, and none of its children that are
      stored is unfinished. */
  ghost predicate Settled(n: Namespace, u: nat) {
    && u in n.finished
    && (forall s :: s in n.pods && n.pods[s].owner == u ==> Terminal(n.pods[s].phase))
    && (forall p :: p in n.pipelines && n.pipelines[p].parent == Some(u) ==> n.pipelines[p].completed)
    && (forall s ::
      s in n.searches && n.searches[s].uid in n.origins && n.origins[n.searches[s].uid].parent == Some(u) ==>
      n.searches[s].completed)
  }

  lemma FinishedIsSettled(n: Namespace, u: nat)
    requires Inv(n) && u in n.finished
    ensures Settled(n, u)
  {
    forall s | s in n.pods && n.pods[s].owner == u ensures Terminal(n.pods[s].phase) { assert PodRecorded(n, s); }
    forall p | p in n.pipelines && n.pipelines[p].parent == Some(u) ensures n.pipelines[p].completed {
      assert PipelineClosed(n, p);
    }
    forall s | s in n.searches && n.searches[s].uid in n.origins && n.origins[n.searches[s].uid].parent == Some(u)
      ensures n.searches[s].completed
    {
      assert SearchClosed(n, s);
    }
  }

  /** A child of a finished search is finished, unless it was deleted before. */
  lemma ChildOfFinished(n: Namespace, u: nat)
    requires Inv(n) && u in n.origins && n.origins[u].parent.Some? && n.origins[u].parent.value in n.finished
    ensures u in n.finished || Lost(n, u)
  {
    if IsStored(n, u) { assert SearchClosed(n, n.origins[u].name) && SearchRecorded(n, n.origins[u].name); }
  }

  lemma {:induction false} CompletionCoversLineage(n: Namespace, path: seq<nat>)
    requires Inv(n) && Lineage(n, path) && path[0] in n.finished
    requires forall i :: 0 < i < |path| - 1 ==> !Lost(n, path[i])
    ensures path[|path| - 1] in n.finished || Lost(n, path[|path| - 1])
  {
    var k := |path| - 1;
    if k > 0 {
      CompletionCoversLineage(n, path[..k]);
      if k > 1 { assert !Lost(n, path[k - 1]); }
      ChildOfFinished(n, path[k]);
    }
  }

  lemma EmptyInv()
    ensures Inv(EMPTY)
  {
  }

  /** Whatever interleaving without late answers led to the present state: below a search that was
      completed, every search that was ever scheduled, at any depth, was completed too, has no pod that
      could create more, and has no unfinished child; except for searches that were deleted before
      they were completed, and what is below those. */
  lemma CompletedTreeIsFinished(steps: seq<Step>, n: Namespace, path: seq<nat>)
    requires Exec(EMPTY, steps) == Some(n) && InTime(EMPTY, steps)
    requires Lineage(n, path) && path[0] in n.finished
    requires forall i :: 0 < i < |path| - 1 ==> !Lost(n, path[i])
    ensures var u := path[|path| - 1]; if Lost(n, u) then !IsStored(n, u) else Settled(n, u)
  {
    EmptyInv();
    InvExec(EMPTY, steps, n);
    CompletionCoversLineage(n, path);
    if !Lost(n, path[|path| - 1]) { FinishedIsSettled(n, path[|path| - 1]); }
  }

  /** In particular, what is stored below a completed search is completed. */
  lemma StoredDescendantsAreCompleted(steps: seq<Step>, n: Namespace, path: seq<nat>)
    requires Exec(EMPTY, steps) == Some(n) && InTime(EMPTY, steps)
    requires Lineage(n, path) && path[0] in n.finished
    requires forall i :: 0 < i < |path| - 1 ==> !Lost(n, path[i])
    requires IsStored(n, path[|path| - 1])
    ensures n.searches[n.origins[path[|path| - 1]].name].completed
  {
    CompletedTreeIsFinished(steps, n, path);
    EmptyInv();
    InvExec(EMPTY, steps, n);
    assert SearchRecorded(n, n.origins[path[|path| - 1]].name);
  }

  // ----- when there are no late answers -----

  /** The pod of every Create request on its way goes on living. */
  ghost predicate AllLiving(n: Namespace) { forall r :: r in n.requests ==> Living(n, r) }

  /** The request has been sent by the pod of `s`. */
  predicate SentBy(n: Namespace, r: Request, s: string) { r.parent == s && s in n.pods && r.pod == n.pods[s].uid }

  /** No pod ends, by itself or by force, and none is deleted while a Create request of it is on its way. */
  predicate Clean(n: Namespace, step: Step) {
    step.Exit? || step.Die? || step.DeletePod? ==> forall r :: r in n.requests ==> !SentBy(n, r, step.search)
  }

  /** Answers to requests of living pods are not late. */
  lemma LivingIsInTime(n: Namespace, step: Step, n': Namespace)
    requires Inv(n) && AllLiving(n) && Next(n, step) == Some(n')
    ensures !LateAnswer(n, step)
  {
    if step.Serve? {
      var r := step.request;
      AnsweredFrame(n, r, step.ok, Answered(n, r, step.ok).value);
      assert Living(n, r) && Owned(n, r) && PodRecorded(n, r.parent);
      assert r.parent in n.searches && n.searches[r.parent].completed ==> Quiet(n, r.parent);
      assert r.parent in n.reconciles ==> Justified(n, r.parent, n.reconciles[r.parent]);
    }
  }

  lemma CleanStepKeepsLiving(n: Namespace, step: Step, n': Namespace)
    requires AllLiving(n) && Next(n, step) == Some(n') && Clean(n, step)
    ensures AllLiving(n')
  {
    forall r | r in n'.requests ensures Living(n', r) {
      if r in n.requests { StillLiving(n, step, n', r); } else { NewlyWaited(n, step, n', r); }
    }
  }

  /** A request that has just been sent is waited for. */
  lemma NewlyWaited(n: Namespace, step: Step, n': Namespace, r: Request)
    requires Next(n, step) == Some(n') && r in n'.requests && r !in n.requests
    ensures Waited(n', r)
  {
    if IsPodStep(step) { SentByLivingPod(n, step, n', r); } else { OthersSendNothing(n, step, n'); }
  }

  lemma SentByLivingPod(n: Namespace, step: Step, n': Namespace, r: Request)
    requires IsPodStep(step) && NextPod(n, step) == Some(n') && r in n'.requests && r !in n.requests
    ensures Waited(n', r)
  {
  }

  lemma StillLiving(n: Namespace, step: Step, n': Namespace, r: Request)
    requires Next(n, step) == Some(n') && Clean(n, step) && r in n.requests && Living(n, r)
    ensures Living(n', r)
  {
    var s := r.parent;
    assert SentBy(n, r, s);
    if IsReconcileStep(step) { PodSurvivesReconcile(n, step, n', s); }
    else if IsPodStep(step) { PodSurvives(n, step, n', s); }
    else if step.Serve? {
      PodSurvivesAnswer(n, step.request, step.ok, Answered(n, step.request, step.ok).value, s);
      AnsweredFrame(n, step.request, step.ok, Answered(n, step.request, step.ok).value);
    } else { PodSurvivesOthers(n, step, n', s); }
  }

  ghost predicate Survives(n: Namespace, n': Namespace, s: string)
    requires s in n.pods
  {
    s in n'.pods && n'.pods[s].uid == n.pods[s].uid && !Terminal(n'.pods[s].phase)
  }

  lemma PodSurvivesReconcile(n: Namespace, step: Step, n': Namespace, s: string)
    requires IsReconcileStep(step) && NextReconcile(n, step) == Some(n') && s in n.pods && !Terminal(n.pods[s].phase)
    ensures Survives(n, n', s)
  {
  }

  lemma PodSurvives(n: Namespace, step: Step, n': Namespace, s: string)
    requires IsPodStep(step) && NextPod(n, step) == Some(n') && s in n.pods && !Terminal(n.pods[s].phase)
    requires step.search == s ==> !step.Exit? && !step.Die?
    ensures Survives(n, n', s)
  {
  }

  lemma PodSurvivesAnswer(n: Namespace, r: Request, ok: bool, n': Namespace, s: string)
    requires Answered(n, r, ok) == Some(n') && s in n.pods && !Terminal(n.pods[s].phase)
    ensures Survives(n, n', s)
  {
  }

  lemma PodSurvivesOthers(n: Namespace, step: Step, n': Namespace, s: string)
    requires NextOther(n, step) == Some(n') && s in n.pods && !Terminal(n.pods[s].phase)
    requires step.DeletePod? ==> step.search != s
    ensures Survives(n, n', s)
  {
  }

  ghost predicate AllClean(n: Namespace, steps: seq<Step>)
    decreases |steps|
  {
    steps == [] || (Clean(n, steps[0]) && (Next(n, steps[0]).Some? ==> AllClean(Next(n, steps[0]).value, steps[1..])))
  }

  /** Late answers come only from pods that ended or were deleted while a Create request was on its way. */
  lemma {:induction false} CleanRunsAreInTime(n: Namespace, steps: seq<Step>)
    requires Inv(n) && AllLiving(n) && Exec(n, steps).Some? && AllClean(n, steps)
    ensures InTime(n, steps)
    decreases |steps|
  {
    if steps != [] {
      var n' := Next(n, steps[0]).value;
      LivingIsInTime(n, steps[0], n');
      InvStepIff(n, steps[0], n');
      CleanStepKeepsLiving(n, steps[0], n');
      CleanRunsAreInTime(n', steps[1..]);
    }
  }

  // ----- when wrappers exit without a request on its way -----

  /** Every worker waits for the answers to its requests, as long as its pod lives. */
  ghost predicate AllPatient(n: Namespace) { forall r :: r in n.requests && Living(n, r) ==> Waited(n, r) }

  /** A wrapper that has returned from its hook waits for no request, so that whatever it has on its way
      then, its worker has given up. */
  lemma ExitLeavesNoRequest(n: Namespace, s: string, r: Request)
    requires SchedulersOrderly(n) && s in n.pods && n.pods[s].scheduler.hook.Returned?
    requires r in n.requests && Waited(n, r)
    ensures r.parent != s
  {
    assert F.Inv(n.pods[s].scheduler);
  }

  /** A worker that does not give up goes on waiting until the answer. */
  lemma PatientStep(n: Namespace, step: Step, n': Namespace)
    requires Base(n) && AllPatient(n) && Next(n, step) == Some(n') && !GivesUp(step)
    ensures AllPatient(n')
  {
    forall r | r in n'.requests && Living(n', r) ensures Waited(n', r) {
      if r in n.requests { StillWaited(n, step, n', r); } else { NewlyWaited(n, step, n', r); }
    }
  }

  lemma StillWaited(n: Namespace, step: Step, n': Namespace, r: Request)
    requires Base(n) && Next(n, step) == Some(n') && !GivesUp(step)
    requires r in n.requests && r in n'.requests && Living(n', r) && (Living(n, r) ==> Waited(n, r))
    ensures Waited(n', r)
  {
    WasLiving(n, step, n', r);
    if step.SchedulerStep? { WaitsOn(n, step.search, step.step, n', r); }
    else if step.Serve? { OthersAnswered(n, step.request, step.ok, Answered(n, step.request, step.ok).value, r); }
    else { OthersKeepPods(n, step, n'); }
  }

  lemma WasLiving(n: Namespace, step: Step, n': Namespace, r: Request)
    requires RequestsRecorded(n) && Next(n, step) == Some(n') && r in n.requests && Living(n', r)
    ensures Living(n, r)
  {
    PodKept(n, step, n', r.parent);
  }

  lemma WaitsOn(n: Namespace, s: string, st: F.Step<string, string>, n': Namespace, r: Request)
    requires NextScheduler(n, s, st) == Some(n') && !GivesUp(SchedulerStep(s, st)) && Waited(n, r)
    ensures Waited(n', r)
  {
  }

  /** The answer to one request leaves the worker of another waiting. */
  lemma OthersAnswered(n: Namespace, q: Request, ok: bool, n': Namespace, r: Request)
    requires RequestsOwned(n) && Answered(n, q, ok) == Some(n') && Waited(n, r) && r in n'.requests
    ensures Waited(n', r)
  {
    AnsweredFrame(n, q, ok, n');
    if Waited(n, q) && q.parent == r.parent && q.kind == r.kind { WaitsForOne(n, q, r); }
    OtherWorkers(n, q, ok, n', r);
  }

  /** A worker waits for one request at a time. */
  lemma WaitsForOne(n: Namespace, q: Request, r: Request)
    requires RequestsOwned(n) && q in n.requests && r in n.requests && Waited(n, q) && Waited(n, r)
    requires q.parent == r.parent && q.kind == r.kind
    ensures q == r
  {
    assert Owned(n, q) && Owned(n, r);
  }

  lemma OtherWorkers(n: Namespace, q: Request, ok: bool, n': Namespace, r: Request)
    requires Answered(n, q, ok) == Some(n') && Waited(n, r)
    requires !(Waited(n, q) && q.parent == r.parent && q.kind == r.kind)
    ensures Waited(n', r)
  {
  }

  /** No worker gives up, and no pod is killed or deleted while a Create request of it is on its way. */
  predicate Gentle(n: Namespace, step: Step) { !GivesUp(step) && (step.Die? || step.DeletePod? ==> Clean(n, step)) }

  ghost predicate AllGentle(n: Namespace, steps: seq<Step>)
    decreases |steps|
  {
    steps == [] || (Gentle(n, steps[0]) && (Next(n, steps[0]).Some? ==> AllGentle(Next(n, steps[0]).value, steps[1..])))
  }

  lemma GentleIsClean(n: Namespace, step: Step, n': Namespace)
    requires Base(n) && AllPatient(n) && Next(n, step) == Some(n') && Gentle(n, step)
    ensures Clean(n, step)
  {
    if step.Exit? {
      ExitOfReturned(n, step, n');
      forall r | r in n.requests ensures !SentBy(n, r, step.search) {
        if SentBy(n, r, step.search) { ExitLeavesNoRequest(n, step.search, r); }
      }
    }
  }

  lemma ExitOfReturned(n: Namespace, step: Step, n': Namespace)
    requires Next(n, step) == Some(n') && step.Exit?
    ensures step.search in n.pods && n.pods[step.search].scheduler.hook.Returned?
    ensures !Terminal(n.pods[step.search].phase)
  {
  }

  /** If no worker gives up and no pod is killed or deleted in the middle of a request, then no wrapper
      exits in the middle of one, and no answer is late. */
  lemma {:induction false} GentleRunsAreInTime(n: Namespace, steps: seq<Step>)
    requires Inv(n) && AllLiving(n) && AllPatient(n) && Exec(n, steps).Some? && AllGentle(n, steps)
    ensures AllClean(n, steps) && InTime(n, steps)
    decreases |steps|
  {
    if steps != [] {
      var n' := Next(n, steps[0]).value;
      GentleIsClean(n, steps[0], n');
      LivingIsInTime(n, steps[0], n');
      InvStepIff(n, steps[0], n');
      CleanStepKeepsLiving(n, steps[0], n');
      PatientStep(n, steps[0], n');
      GentleRunsAreInTime(n', steps[1..]);
    }
  }
}
