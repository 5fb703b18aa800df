/**
 Runs from the empty namespace in which a search is completed above unfinished work. In the first a pod is
 killed while its Create request is on its way, and the request is granted after the search has been
 completed. In the second the worker gives up waiting for the answer and the wrapper exits as usual. In
 the third every answer is in time, but a search in between is deleted before it is completed.
 */
module SearchTreeRuns {
  import opened Wrappers
  import opened Labels
  import opened SearchTree
  import opened SearchProtocol
  import opened SearchCompletion
  import opened SearchLineage
  import F = FifoScheduler

  lemma ExecAppend(n: Namespace, a: seq<Step>, mid: Namespace, b: seq<Step>)
    requires Exec(n, a) == Some(mid)
    ensures Exec(n, a + b) == Exec(mid, b)
  {
    ExecOn(n, a, Some(mid), mid, b, Exec(mid, b));
  }

  lemma {:induction false} ExecOn(n: Namespace, a: seq<Step>, between: Option<Namespace>, mid: Namespace,
    b: seq<Step>, after: Option<Namespace>)
    requires Exec(n, a) == between == Some(mid) && Exec(mid, b) == after
    ensures Exec(n, a + b) == after
    decreases |a|
  {
    if a == [] {
      assert a + b == b;
    } else {
      assert (a + b)[1..] == a[1..] + b;
      var n' := ExecRest(n, a, a + b);
      ExecOn(n', a[1..], between, mid, b, after);
    }
  }

  /** Two executions that begin with the same step go on from the same namespace. */
  lemma ExecRest(n: Namespace, a: seq<Step>, b: seq<Step>) returns (n': Namespace)
    requires a != [] && b != [] && a[0] == b[0] && Exec(n, a).Some?
    ensures Exec(n, a) == Exec(n', a[1..]) && Exec(n, b) == Exec(n', b[1..])
  {
    n' := Next(n, a[0]).value;
  }

  lemma ExecThree(n: Namespace, a: seq<Step>, n1: Namespace, b: seq<Step>, n2: Namespace, c: seq<Step>, n3: Namespace)
    requires Exec(n, a) == Some(n1) && Exec(n1, b) == Some(n2) && Exec(n2, c) == Some(n3)
    ensures Exec(n, a + (b + c)) == Some(n3)
  {
    ExecAppend(n1, b, n2, c);
    ExecAppend(n, a, n1, b + c);
  }

  lemma {:induction false} CleanAppend(n: Namespace, a: seq<Step>, mid: Namespace, b: seq<Step>)
    requires Exec(n, a) == Some(mid) && AllClean(n, a) && AllClean(mid, b)
    ensures AllClean(n, a + b)
    decreases |a|
  {
    if a == [] {
      assert a + b == b;
    } else {
      CleanAppend(Next(n, a[0]).value, a[1..], mid, b);
      assert (a + b)[1..] == a[1..] + b;
    }
  }

  /** Steps that end and delete no pod are clean. */
  lemma {:induction false} HarmlessIsClean(n: Namespace, steps: seq<Step>)
    requires forall i :: 0 <= i < |steps| ==> !steps[i].Exit? && !steps[i].Die? && !steps[i].DeletePod?
    ensures AllClean(n, steps)
    decreases |steps|
  {
    if steps != [] && Next(n, steps[0]).Some? { HarmlessIsClean(Next(n, steps[0]).value, steps[1..]); }
  }

  // ----- stages of a run -----

  function Creation(s: string): seq<Step> { [CreateSearch(s, map[], map[])] }

  lemma Create(n: Namespace, s: string) returns (n': Namespace)
    requires s !in n.searches
    ensures Exec(n, Creation(s)) == Some(n')
    ensures n' == n.(searches := n.searches[s := Search(n.nextUid, map[], map[], false, false)],
                     origins := n.origins[n.nextUid := Origin(s, None)], nextUid := n.nextUid + 1)
  {
    n' := Next(n, Creation(s)[0]).value;
    assert Creation(s)[1..] == [];
  }

  /** A search is reconciled for the first time and its pod starts. */
  function Launching(s: string): seq<Step> {
    [Fetch(s)] + ([ReadOrCreatePod(s)] + ([MarkStarted(s)] + ([PodStarts(s)] + [])))
  }

  lemma Launch(n: Namespace, s: string) returns (n': Namespace)
    requires s in n.searches && !n.searches[s].completed && !n.searches[s].started && s !in n.reconciles && s !in n.pods
    ensures Exec(n, Launching(s)) == Some(n')
    ensures var x := n.searches[s];
            n' == n.(searches := n.searches[s := x.(started := true)], nextUid := n.nextUid + 1,
                     pods := n.pods[s := Pod(n.nextUid, x.uid, Running, x.template, F.Start())])
  {
    var n2 := UninterruptedPod(n, s);
    var n3 := Next(n2, MarkStarted(s)).value;
    n' := Next(n3, PodStarts(s)).value;
    ExecFirst(n2, MarkStarted(s), n3, [PodStarts(s)] + []);
    ExecFirst(n3, PodStarts(s), n', []);
    assert n'.reconciles == n.reconciles;
  }

  function With(n: Namespace, s: string, scheduler: Scheduler): Namespace
    requires s in n.pods
  {
    n.(pods := n.pods[s := n.pods[s].(scheduler := scheduler)])
  }

  /** Steps of the scheduler process of one pod. */
  function OnPod(s: string, steps: seq<F.Step<string, string>>): seq<Step> {
    if steps == [] then [] else [SchedulerStep(s, steps[0])] + OnPod(s, steps[1..])
  }

  /** A running pod executes what its scheduler executes, as long as no Create request is sent or granted. */
  lemma {:induction false} PodExec(n: Namespace, s: string, steps: seq<F.Step<string, string>>)
    requires s in n.pods && n.pods[s].phase == Running && F.Exec(n.pods[s].scheduler, steps).Some?
    requires forall i :: 0 <= i < |steps| ==> !IsSuccess(steps[i]) && Sent(s, n.pods[s], steps[i]) == {}
    ensures Exec(n, OnPod(s, steps)) == Some(With(n, s, F.Exec(n.pods[s].scheduler, steps).value))
    decreases |steps|
  {
    if steps == [] {
      assert n.pods[s := n.pods[s]] == n.pods;
    } else {
      var n1 := With(n, s, F.Next(n.pods[s].scheduler, steps[0]).value);
      assert n.requests + {} == n.requests;
      assert Next(n, SchedulerStep(s, steps[0])) == Some(n1);
      PodExec(n1, s, steps[1..]);
      var after := F.Exec(n.pods[s].scheduler, steps).value;
      assert With(n1, s, after).pods == With(n, s, after).pods;
      ExecFirst(n, SchedulerStep(s, steps[0]), n1, OnPod(s, steps[1..]));
    }
  }

  /** The crawler writes one value, and the decoder hands it to the worker. */
  function Handing(kind: Kind, v: string): seq<F.Step<string, string>> {
    [if kind == SearchKind then F.CrawlerWritesSearch(v) else F.CrawlerWritesPipeline(v),
     OnKind(kind, F.OpenSucceeds), OnKind(kind, F.DecodeValue), OnKind(kind, F.Handoff)]
  }

  /** A scheduler of which only the pair for one kind has done anything. */
  function Only(kind: Kind, p: F.Pair<string>): Scheduler {
    if kind == SearchKind then F.State(p, F.NewPair(), false, F.NotCalled)
    else F.State(F.NewPair(), p, false, F.NotCalled)
  }

  function Working(kind: Kind, v: string, worker: F.Worker<string>, attempted: seq<string>): Scheduler {
    Only(kind, F.Pair(F.Reading, worker, 0, [], [v], attempted))
  }

  lemma Hand(kind: Kind, v: string)
    ensures F.Exec(F.Start<string, string>(), Handing(kind, v)) == Some(Working(kind, v, F.Building(v), []))
  {
    var st := Handing(kind, v);
    var s0 := F.Start<string, string>();
    var s1 := Only(kind, F.NewPair<string>().(pending := [v]));
    var s2 := Only(kind, F.NewPair<string>().(pending := [v], decoder := F.Reading));
    var s3 := Only(kind, F.Pair(F.Sending(v), F.Receiving, 0, [], [v], []));
    assert [] + [v] == [v] && [v][1..] == [];
    assert F.Next(s0, st[0]) == Some(s1) && F.Next(s1, st[1]) == Some(s2) && F.Next(s2, st[2]) == Some(s3);
    assert F.Next(s3, st[3]) == Some(Working(kind, v, F.Building(v), []));
    assert st[1..][1..] == st[2..] && st[2..][1..] == st[3..] && st[3..][1..] == [];
    assert F.Exec(s3, st[3..]) == Some(Working(kind, v, F.Building(v), []));
    assert F.Exec(s2, st[2..]) == F.Exec(s3, st[3..]);
    assert F.Exec(s1, st[1..]) == F.Exec(s2, st[2..]);
  }

  /** The worker of `s` asks for a child. */
  function Asking(kind: Kind, s: string, v: string): seq<Step> {
    OnPod(s, Handing(kind, v)) + ([SchedulerStep(s, OnKind(kind, F.StartCreate))] + [])
  }

  function FirstRequest(n: Namespace, s: string, kind: Kind): Request
    requires s in n.pods
  {
    Request(s, n.pods[s].owner, n.pods[s].uid, kind, 0, n.pods[s].template)
  }

  lemma Ask(n: Namespace, kind: Kind, s: string, v: string) returns (n': Namespace)
    requires s in n.pods && n.pods[s].phase == Running && n.pods[s].scheduler == F.Start()
    ensures Exec(n, Asking(kind, s, v)) == Some(n')
    ensures n' == With(n, s, Working(kind, v, F.Calling(v), [v])).(
                    requests := n.requests + {FirstRequest(n, s, kind)})
  {
    Hand(kind, v);
    PodExec(n, s, Handing(kind, v));
    n' := Send(n, kind, s, v);
    ExecAppend(n, OnPod(s, Handing(kind, v)), With(n, s, Working(kind, v, F.Building(v), [])),
               [SchedulerStep(s, OnKind(kind, F.StartCreate))] + []);
  }

  lemma Send(n: Namespace, kind: Kind, s: string, v: string) returns (n': Namespace)
    requires s in n.pods && n.pods[s].phase == Running
    ensures Exec(With(n, s, Working(kind, v, F.Building(v), [])), [SchedulerStep(s, OnKind(kind, F.StartCreate))] + [])
      == Some(n')
    ensures n' == With(n, s, Working(kind, v, F.Calling(v), [v])).(
                    requests := n.requests + {FirstRequest(n, s, kind)})
  {
    var mid := With(n, s, Working(kind, v, F.Building(v), []));
    n' := Next(mid, SchedulerStep(s, OnKind(kind, F.StartCreate))).value;
    assert [] + [v] == [v];
    assert n'.pods == With(n, s, Working(kind, v, F.Calling(v), [v])).pods;
    ExecFirst(mid, SchedulerStep(s, OnKind(kind, F.StartCreate)), n', []);
  }

  /** The child that `r` asks for, under a free name. */
  function Born(n: Namespace, r: Request, name: string): Namespace {
    var n1 := n.(requests := n.requests - {r});
    if r.kind == SearchKind then
      n1.(searches := n.searches[name := Search(n.nextUid, map[SCHEDULED_BY := r.parent], map[], false, false)],
          origins := n.origins[n.nextUid := Origin(name, Some(r.owner))], nextUid := n.nextUid + 1)
    else
      n1.(pipelines := n.pipelines[name := Pipeline(r.template + map[SCHEDULED_BY := r.parent], Some(r.owner), false)])
  }

  /** The API server grants the request of a pod that waits for it. */
  lemma Grant(n: Namespace, kind: Kind, s: string, v: string, name: string) returns (n': Namespace)
    requires s in n.pods && n.pods[s].phase == Running
    requires n.pods[s].scheduler == Working(kind, v, F.Calling(v), [v])
    requires FirstRequest(n, s, kind) in n.requests && name !in n.searches && name !in n.pipelines
    ensures Exec(n, [Serve(FirstRequest(n, s, kind), true, name)]) == Some(n')
    ensures n' == Born(With(n, s, Working(kind, v, F.Pacing, [v])), FirstRequest(n, s, kind), name)
  {
    var step := Serve(FirstRequest(n, s, kind), true, name);
    n' := Next(n, step).value;
    assert [step] == [step] + [];
    ExecFirst(n, step, n', []);
  }

  /** The API server grants a request for which nobody waits. */
  lemma GrantLate(n: Namespace, r: Request, name: string) returns (n': Namespace)
    requires r in n.requests && !Waited(n, r) && name !in n.searches && name !in n.pipelines
    ensures Exec(n, [Serve(r, true, name)]) == Some(n') && n' == Born(n, r, name)
  {
    var step := Serve(r, true, name);
    n' := Next(n, step).value;
    assert [step] == [step] + [];
    ExecFirst(n, step, n', []);
  }

  lemma Kill(n: Namespace, s: string) returns (n': Namespace)
    requires s in n.pods && !Terminal(n.pods[s].phase)
    ensures Exec(n, [Die(s)]) == Some(n') && n' == WithPhase(n, s, Failed)
  {
    n' := Next(n, Die(s)).value;
    assert [Die(s)] == [Die(s)] + [];
    ExecFirst(n, Die(s), n', []);
  }

  /** A new search whose pod runs and has asked for a child. */
  function Starting(kind: Kind, s: string, v: string): seq<Step> { Launching(s) + Asking(kind, s, v) }

  lemma StartAndAsk(n: Namespace, kind: Kind, s: string, v: string) returns (n': Namespace)
    requires s in n.searches && !n.searches[s].completed && !n.searches[s].started && s !in n.reconciles && s !in n.pods
    ensures Exec(n, Starting(kind, s, v)) == Some(n')
    ensures var x := n.searches[s];
            var pod := Pod(n.nextUid, x.uid, Running, x.template, Working(kind, v, F.Calling(v), [v]));
            n' == n.(searches := n.searches[s := x.(started := true)], nextUid := n.nextUid + 1,
                     pods := n.pods[s := pod],
                     requests := n.requests + {Request(s, x.uid, n.nextUid, kind, 0, x.template)})
  {
    var n1 := Launch(n, s);
    n' := Ask(n1, kind, s, v);
    ExecAppend(n, Launching(s), n1, Asking(kind, s, v));
  }

  // ----- a pod that ends in the middle of a request -----

  /** The search `a` is created and started, its pod asks for a child and ends before the answer, and `a` is
      reconciled. */
  function UntilEnded(a: string, v: string, ending: seq<Step>): seq<Step> {
    Creation(a) + (Starting(SearchKind, a, v) + (ending + OneReconcile(a)))
  }

  /** The namespace in which the pod waits. */
  ghost predicate Asked(n: Namespace, a: string, v: string) {
    && n.searches == map[a := Search(0, map[], map[], true, false)] && n.reconciles == map[]
    && n.pods == map[a := Pod(1, 0, Running, map[], Working(SearchKind, v, F.Calling(v), [v]))]
    && n.requests == {Request(a, 0, 1, SearchKind, 0, map[])} && n.pipelines == map[]
    && n.origins == map[0 := Origin(a, None)] && n.nextUid == 2 && n.finished == {}
  }

  lemma AskFirst(a: string, v: string) returns (n1: Namespace, n2: Namespace)
    ensures Exec(EMPTY, Creation(a)) == Some(n1) && Exec(n1, Starting(SearchKind, a, v)) == Some(n2)
    ensures Asked(n2, a, v)
  {
    n1 := Create(EMPTY, a);
    n2 := StartAndAsk(n1, SearchKind, a, v);
    assert {} + n2.requests == n2.requests;
  }

  /** The pod of `a` has ended, and nothing else has happened. */
  ghost predicate Ended(n: Namespace, n': Namespace, a: string) {
    && a in n'.pods && Terminal(n'.pods[a].phase) && n' == n.(pods := n'.pods)
  }

  lemma EndMidRequest(a: string, v: string, n1: Namespace, n2: Namespace, ending: seq<Step>, n3: Namespace)
    returns (n: Namespace)
    requires Exec(EMPTY, Creation(a)) == Some(n1) && Exec(n1, Starting(SearchKind, a, v)) == Some(n2)
    requires Asked(n2, a, v) && Exec(n2, ending) == Some(n3) && Ended(n2, n3, a)
    ensures Exec(EMPTY, UntilEnded(a, v, ending)) == Some(n) && n == WithCompletion(n3, a)
  {
    UninterruptedReconcile(n3, a);
    n := WithCompletion(n3, a);
    ExecThree(n1, Starting(SearchKind, a, v), n2, ending, n3, OneReconcile(a), n);
    ExecAppend(EMPTY, Creation(a), n1, Starting(SearchKind, a, v) + (ending + OneReconcile(a)));
  }

  /** What a late answer at the end of such a run leads to: a completed search with an unfinished child. */
  ghost predicate Late(a: string, v: string, ending: seq<Step>, child: string, r: Request, before: Namespace,
    n: Namespace)
  {
    var steps := UntilEnded(a, v, ending);
    && Exec(EMPTY, steps) == Some(before) && InTime(EMPTY, steps)
    && LateAnswer(before, Serve(r, true, child)) && Exec(EMPTY, steps + [Serve(r, true, child)]) == Some(n)
    && a in n.searches && n.searches[a].completed && Lineage(n, [n.searches[a].uid, before.nextUid])
    && child in n.searches && !n.searches[child].completed && n.searches[child].uid == before.nextUid
    && ScheduledBy(n.searches[child].labels) == Some(a)
  }

  lemma AnsweredLate(a: string, v: string, ending: seq<Step>, child: string, r: Request, before: Namespace)
    returns (n: Namespace)
    requires a != child && Exec(EMPTY, UntilEnded(a, v, ending)) == Some(before)
    requires forall i :: 0 <= i < |ending| ==> !ending[i].Serve?
    requires before.searches.Keys == {a} && before.searches[a].completed && before.pipelines == map[]
    requires r == Request(a, before.searches[a].uid, 1, SearchKind, 0, map[])
    requires r in before.requests && !Waited(before, r)
    ensures Late(a, v, ending, child, r, before, n)
  {
    n := GrantLate(before, r, child);
    ExecAppend(EMPTY, UntilEnded(a, v, ending), before, [Serve(r, true, child)]);
    UntilEndedInTime(a, v, ending, before);
    LateChild(before, a, r, child);
  }

  lemma UntilEndedInTime(a: string, v: string, ending: seq<Step>, n: Namespace)
    requires Exec(EMPTY, UntilEnded(a, v, ending)) == Some(n)
    requires forall i :: 0 <= i < |ending| ==> !ending[i].Serve?
    ensures InTime(EMPTY, UntilEnded(a, v, ending)) && Inv(n)
  {
    StartingIsHarmless(SearchKind, a, v);
    UnansweredIsInTime(EMPTY, UntilEnded(a, v, ending));
    EmptyInv();
    InvExec(EMPTY, UntilEnded(a, v, ending), n);
  }

  /** What the late answer leaves behind. */
  lemma LateChild(n: Namespace, a: string, r: Request, child: string)
    requires Inv(n) && a in n.searches && n.searches[a].completed && r.parent == a && r.owner == n.searches[a].uid
    requires a != child && r.kind == SearchKind
    ensures var after := Born(n, r, child);
            && a in after.searches && after.searches[a] == n.searches[a]
            && Lineage(after, [n.searches[a].uid, n.nextUid])
            && after.searches[child].uid == n.nextUid && !after.searches[child].completed
            && ScheduledBy(after.searches[child].labels) == Some(a)
    ensures LateAnswer(n, Serve(r, true, child))
  {
    FreshIsUnknown(n);
    assert SearchRecorded(n, a);
  }

  /** A run from the empty namespace, in time up to its last step, at whose end a completed search has an
      unfinished child: its pod was killed while it waited for the answer, which was granted late. */
  lemma KilledMidRequest(a: string, v: string, child: string) returns (r: Request, before: Namespace, n: Namespace)
    requires a != child
    ensures Late(a, v, [Die(a)], child, r, before, n)
  {
    var n1, n2 := AskFirst(a, v);
    var n3 := Kill(n2, a);
    before := EndMidRequest(a, v, n1, n2, [Die(a)], n3);
    r := Request(a, 0, 1, SearchKind, 0, map[]);
    n := AnsweredLate(a, v, [Die(a)], child, r, before);
  }

  // ----- a worker that gives up -----

  /** The worker's call fails before the answer; then the crawler ends, and the scheduler shuts down. */
  function Quitting(): seq<F.Step<string, string>> {
    [F.OnSearches(F.CreateReturns(false)), F.HookStarts] + (Stopping(SearchKind) + (
    [F.OnPipelines(F.OpenSucceeds)] + (Stopping(PipelineKind) + [F.HookReturns])))
  }

  /** A decoder finds its FIFO at the end and the context done, and the worker sees the closed channel. */
  function Stopping(kind: Kind): seq<F.Step<string, string>> {
    [OnKind(kind, F.DecodeFails(0)), OnKind(kind, F.CheckContext), OnKind(kind, F.SeeClosed)]
  }

  function WithPair(sched: Scheduler, kind: Kind, p: F.Pair<string>): Scheduler {
    if kind == SearchKind then sched.(searches := p) else sched.(pipelines := p)
  }

  function PairOf(sched: Scheduler, kind: Kind): F.Pair<string> {
    if kind == SearchKind then sched.searches else sched.pipelines
  }

  lemma Stop(sched: Scheduler, kind: Kind) returns (after: Scheduler)
    requires sched.cancelled && PairOf(sched, kind).decoder.Reading? && PairOf(sched, kind).worker.Receiving?
    ensures F.Exec(sched, Stopping(kind)) == Some(after)
    ensures after == WithPair(sched, kind, PairOf(sched, kind).(decoder := F.Exited, worker := F.Stopped,
                                                               closes := PairOf(sched, kind).closes + 1))
  {
    var st := Stopping(kind);
    var p := PairOf(sched, kind);
    var s1 := WithPair(sched, kind, p.(decoder := F.Checking));
    var s2 := WithPair(sched, kind, p.(decoder := F.Exited, closes := p.closes + 1));
    after := WithPair(sched, kind, p.(decoder := F.Exited, worker := F.Stopped, closes := p.closes + 1));
    assert p.pending[0..] == p.pending;
    assert F.Next(sched, st[0]) == Some(s1) && F.Next(s1, st[1]) == Some(s2) && F.Next(s2, st[2]) == Some(after);
    assert st[1..][1..] == st[2..] && st[2..][1..] == [];
    assert F.Exec(s2, st[2..]) == Some(after);
    assert F.Exec(s1, st[1..]) == F.Exec(s2, st[2..]);
  }

  lemma {:induction false} SchedulerAppend(s: Scheduler, a: seq<F.Step<string, string>>, mid: Scheduler,
    b: seq<F.Step<string, string>>)
    requires F.Exec(s, a) == Some(mid)
    ensures F.Exec(s, a + b) == F.Exec(mid, b)
    decreases |a|
  {
    if a == [] {
      assert a + b == b;
    } else {
      var s' := F.Next(s, a[0]).value;
      assert F.Exec(s, a) == F.Exec(s', a[1..]);
      SchedulerAppend(s', a[1..], mid, b);
      assert (a + b)[1..] == a[1..] + b && (a + b)[0] == a[0];
    }
  }

  lemma One(s: Scheduler, step: F.Step<string, string>, s': Scheduler)
    requires F.Next(s, step) == Some(s')
    ensures F.Exec(s, [step]) == Some(s')
  {
    assert [step][1..] == [];
  }

  lemma Quit(v: string) returns (after: Scheduler)
    ensures F.Exec(Working(SearchKind, v, F.Calling(v), [v]), Quitting()) == Some(after) && after.hook.Returned?
  {
    var s0 := Working(SearchKind, v, F.Calling(v), [v]);
    var first := [F.OnSearches(F.CreateReturns(false)), F.HookStarts];
    var s1 := Working(SearchKind, v, F.Receiving, [v]);
    var s2 := s1.(cancelled := true, hook := F.Waiting);
    One(s0, first[0], s1);
    One(s1, first[1], s2);
    SchedulerAppend(s0, [first[0]], s1, [first[1]]);
    assert [first[0]] + [first[1]] == first;
    var s3 := Stop(s2, SearchKind);
    var s4 := s3.(pipelines := s3.pipelines.(decoder := F.Reading));
    One(s3, F.OnPipelines(F.OpenSucceeds), s4);
    var s5 := Stop(s4, PipelineKind);
    after := s5.(hook := F.Returned);
    One(s5, F.HookReturns, after);
    var rest5 := [F.HookReturns];
    var rest4 := Stopping(PipelineKind) + rest5;
    var rest3 := [F.OnPipelines(F.OpenSucceeds)] + rest4;
    SchedulerAppend(s4, Stopping(PipelineKind), s5, rest5);
    SchedulerAppend(s3, [F.OnPipelines(F.OpenSucceeds)], s4, rest4);
    SchedulerAppend(s2, Stopping(SearchKind), s3, rest3);
    SchedulerAppend(s0, first, s2, Stopping(SearchKind) + rest3);
  }

  /** The worker gives up, and the wrapper exits as usual. */
  function Leaving(a: string): seq<Step> { OnPod(a, Quitting()) + ([Exit(a, true)] + []) }

  lemma Leave(n: Namespace, a: string, v: string) returns (n': Namespace)
    requires Asked(n, a, v)
    ensures Exec(n, Leaving(a)) == Some(n') && Ended(n, n', a)
  {
    var after := Quit(v);
    PodExec(n, a, Quitting());
    n' := ExitAsUsual(n, a, after);
    ExecAppend(n, OnPod(a, Quitting()), With(n, a, after), [Exit(a, true)] + []);
  }

  lemma ExitAsUsual(n: Namespace, a: string, sched: Scheduler) returns (n': Namespace)
    requires a in n.pods && n.pods[a].phase == Running && sched.hook.Returned?
    ensures Exec(With(n, a, sched), [Exit(a, true)] + []) == Some(n') && Ended(n, n', a)
  {
    var mid := With(n, a, sched);
    n' := Next(mid, Exit(a, true)).value;
    ExecFirst(mid, Exit(a, true), n', []);
  }

  /** The same result without any pod killed or deleted: the worker gave up waiting for the answer, the
      wrapper exited as usual, and the request was granted after the search had been completed. */
  lemma GivenUpMidRequest(a: string, v: string, child: string) returns (r: Request, before: Namespace, n: Namespace)
    requires a != child
    ensures forall i :: 0 <= i < |Leaving(a)| ==> !Leaving(a)[i].Die? && !Leaving(a)[i].DeletePod?
    ensures Late(a, v, Leaving(a), child, r, before, n)
  {
    var n1, n2 := AskFirst(a, v);
    var n3 := Leave(n2, a, v);
    before := EndMidRequest(a, v, n1, n2, Leaving(a), n3);
    r := Request(a, 0, 1, SearchKind, 0, map[]);
    SchedulerStepsOnly(a, Quitting());
    n := AnsweredLate(a, v, Leaving(a), child, r, before);
  }

  lemma {:induction false} SchedulerStepsOnly(s: string, steps: seq<F.Step<string, string>>)
    ensures forall i :: 0 <= i < |OnPod(s, steps)| ==> OnPod(s, steps)[i].SchedulerStep?
  {
    if steps != [] { SchedulerStepsOnly(s, steps[1..]); }
  }

  lemma {:induction false} UnansweredIsInTime(n: Namespace, steps: seq<Step>)
    requires forall i :: 0 <= i < |steps| ==> !steps[i].Serve?
    ensures InTime(n, steps)
    decreases |steps|
  {
    if steps != [] && Next(n, steps[0]).Some? { UnansweredIsInTime(Next(n, steps[0]).value, steps[1..]); }
  }

  // ----- a search deleted in between -----

  /** `a` schedules the search `b`, and `b` schedules `c`, a search or a pipeline. */
  function ThreeLevels(kind: Kind, a: string, b: string, c: string, v: string, r: Request, q: Request): seq<Step> {
    Creation(a) + (Starting(SearchKind, a, v) + [Serve(r, true, b)]) + (Starting(kind, b, v) + [Serve(q, true, c)])
  }

  /** The searches `a` and `b`, and `c` if it is one; and what is on record of them. */
  function SearchesOf(kind: Kind, a: string, b: string, c: string, started: bool): map<string, Search> {
    var two := map[a := Search(0, map[], map[], true, false),
                   b := Search(2, map[SCHEDULED_BY := a], map[], started, false)];
    if kind == SearchKind then two[c := Search(4, map[SCHEDULED_BY := b], map[], false, false)] else two
  }

  function OriginsOf(kind: Kind, a: string, b: string, c: string): map<nat, Origin> {
    var two := map[0 := Origin(a, None), 2 := Origin(b, Some(0))];
    if kind == SearchKind then two[4 := Origin(c, Some(2))] else two
  }

  function PipelinesOf(kind: Kind, b: string, c: string): map<string, Pipeline> {
    if kind == SearchKind then map[] else map[c := Pipeline(map[SCHEDULED_BY := b], Some(2), false)]
  }

  /** Nothing is going on. */
  ghost predicate Calm(n: Namespace, a: string) {
    n.reconciles == map[] && n.requests == {} && n.finished == {} && a in n.pods && n.pods[a].phase == Running
  }

  ghost predicate IsTwo(n: Namespace, a: string, b: string) {
    && Calm(n, a) && n.pods.Keys == {a} && n.nextUid == 3 && n.pipelines == map[]
    && n.searches == SearchesOf(PipelineKind, a, b, b, false) && n.origins == OriginsOf(PipelineKind, a, b, b)
  }

  ghost predicate IsThree(n: Namespace, kind: Kind, a: string, b: string, c: string) {
    && a != b && b != c && a != c && Calm(n, a)
    && n.searches == SearchesOf(kind, a, b, c, true) && n.origins == OriginsOf(kind, a, b, c)
    && n.pipelines == PipelinesOf(kind, b, c)
  }

  /** `c` is stored and unfinished, a search or a pipeline that the search with identity 2 has scheduled. */
  ghost predicate HasChild(n: Namespace, kind: Kind, c: string) {
    match kind
    case SearchKind =>
      c in n.searches && !n.searches[c].completed && Lineage(n, [0, 2, n.searches[c].uid])
    case PipelineKind =>
      c in n.pipelines && !n.pipelines[c].completed && n.pipelines[c].parent == Some(2) && Lineage(n, [0, 2])
  }

  lemma BuildTwo(a: string, b: string, v: string) returns (r: Request, n: Namespace)
    requires a != b
    ensures Exec(EMPTY, Creation(a) + (Starting(SearchKind, a, v) + [Serve(r, true, b)])) == Some(n)
    ensures IsTwo(n, a, b)
  {
    var n1, n2 := AskFirst(a, v);
    r := FirstRequest(n2, a, SearchKind);
    n := Grant(n2, SearchKind, a, v, b);
    SecondIsBorn(n2, a, b, v);
    ExecThree(EMPTY, Creation(a), n1, Starting(SearchKind, a, v), n2, [Serve(r, true, b)], n);
  }

  lemma SecondIsBorn(n: Namespace, a: string, b: string, v: string)
    requires a != b && Asked(n, a, v)
    ensures IsTwo(Born(With(n, a, Working(SearchKind, v, F.Pacing, [v])), FirstRequest(n, a, SearchKind), b), a, b)
  {
    assert n.requests - {FirstRequest(n, a, SearchKind)} == {};
  }

  lemma AddThird(n: Namespace, kind: Kind, a: string, b: string, c: string, v: string)
    returns (q: Request, n': Namespace)
    requires a != b && b != c && a != c && IsTwo(n, a, b)
    ensures Exec(n, Starting(kind, b, v) + [Serve(q, true, c)]) == Some(n') && IsThree(n', kind, a, b, c)
  {
    var n3 := StartAndAsk(n, kind, b, v);
    assert Second(n, n3, kind, b, v);
    q := FirstRequest(n3, b, kind);
    n' := Grant(n3, kind, b, v, c);
    ThirdIsBorn(n, n3, kind, a, b, c, v);
    ExecAppend(n, Starting(kind, b, v), n3, [Serve(q, true, c)]);
  }

  /** The pod of `b` has started and asks for a child. */
  ghost predicate Second(n: Namespace, n3: Namespace, kind: Kind, b: string, v: string) {
    && b in n.searches
    && n3 == n.(searches := n.searches[b := n.searches[b].(started := true)], nextUid := n.nextUid + 1,
                pods := n.pods[b := Pod(n.nextUid, n.searches[b].uid, Running, n.searches[b].template,
                                        Working(kind, v, F.Calling(v), [v]))],
                requests := n.requests + {Request(b, n.searches[b].uid, n.nextUid, kind, 0, n.searches[b].template)})
  }

  lemma ThirdIsBorn(n: Namespace, n3: Namespace, kind: Kind, a: string, b: string, c: string, v: string)
    requires a != b && b != c && a != c && IsTwo(n, a, b) && Second(n, n3, kind, b, v)
    ensures IsThree(Born(With(n3, b, Working(kind, v, F.Pacing, [v])), FirstRequest(n3, b, kind), c), kind, a, b, c)
  {
    assert n3.requests - {FirstRequest(n3, b, kind)} == {};
    assert map[] + map[SCHEDULED_BY := b] == map[SCHEDULED_BY := b];
  }

  lemma BuildThree(kind: Kind, a: string, b: string, c: string, v: string)
    returns (r: Request, q: Request, n: Namespace)
    requires a != b && b != c && a != c
    ensures Exec(EMPTY, ThreeLevels(kind, a, b, c, v, r, q)) == Some(n) && IsThree(n, kind, a, b, c)
  {
    var n2: Namespace;
    r, n2 := BuildTwo(a, b, v);
    q, n := AddThird(n2, kind, a, b, c, v);
    ExecAppend(EMPTY, Creation(a) + (Starting(SearchKind, a, v) + [Serve(r, true, b)]), n2,
               Starting(kind, b, v) + [Serve(q, true, c)]);
  }

  /** As long as all searches are unfinished and stored, chains are whole. */
  lemma OpenIsProtected(n: Namespace)
    requires forall u :: u in n.origins ==> Open(n, u)
    ensures Protected(n)
  {
  }

  /** When its pod has ended, `a` is stored above unfinished work, and `b` is in between. */
  lemma BIsBetween(n: Namespace, kind: Kind, a: string, b: string, c: string)
    requires IsThree(n, kind, a, b, c)
    ensures Protected(WithPhase(n, a, Failed)) && Between(WithPhase(n, a, Failed), b)
  {
    var n1 := WithPhase(n, a, Failed);
    OpenIsProtected(n1);
    BCuts(n1, kind, a, b, c);
  }

  lemma BCuts(n: Namespace, kind: Kind, a: string, b: string, c: string)
    requires a != b && b != c && a != c && n.searches == SearchesOf(kind, a, b, c, true) && n.finished == {}
    requires n.origins == OriginsOf(kind, a, b, c) && n.pipelines == PipelinesOf(kind, b, c)
    ensures Between(n, b)
  {
    if kind == SearchKind {
      assert Cuts(n, [0, 2, 4], 1, 2);
    } else {
      assert n.pipelines[c].parent == Some(2);
      assert Cuts(n, [0, 2], 1, 2);
    }
  }

  /** `b` is deleted, and `a` is reconciled. */
  function Ending(a: string, b: string): seq<Step> { [DeleteSearch(b)] + OneReconcile(a) }

  lemma End(n: Namespace, kind: Kind, a: string, b: string, c: string) returns (n': Namespace)
    requires IsThree(n, kind, a, b, c)
    ensures Exec(WithPhase(n, a, Failed), Ending(a, b)) == Some(n')
    ensures a in n'.searches && n'.searches[a].completed && n'.searches[a].uid == 0
    ensures b !in n'.searches && HasChild(n', kind, c)
  {
    var n1 := WithPhase(n, a, Failed);
    var n2 := n1.(searches := n1.searches - {b});
    OnlyBIsSeen(n, kind, a, b, c, n2);
    ThirdIsLeft(n, kind, a, b, c, n2);
    UninterruptedReconcile(n2, a);
    n' := WithCompletion(n2, a);
    ExecFirst(n1, DeleteSearch(b), n2, OneReconcile(a));
  }

  /** Without `b`, all that `a` has scheduled seems to be done. */
  lemma OnlyBIsSeen(n: Namespace, kind: Kind, a: string, b: string, c: string, n2: Namespace)
    requires IsThree(n, kind, a, b, c)
    requires n2 == WithPhase(n, a, Failed).(searches := n.searches - {b})
    ensures a in n2.searches && n2.searches[a] == Search(0, map[], map[], true, false) && n2.reconciles == map[]
    ensures a in n2.pods && n2.pods[a].phase == Failed && PipelinesDone(n2, a) && SearchesDone(n2, a)
  {
  }

  lemma ThirdIsLeft(n: Namespace, kind: Kind, a: string, b: string, c: string, n2: Namespace)
    requires IsThree(n, kind, a, b, c) && a in n2.searches
    requires n2 == WithPhase(n, a, Failed).(searches := n.searches - {b})
    ensures HasChild(WithCompletion(n2, a), kind, c)
  {
  }

  /** A run from the empty namespace in which every answer is in time. In the state `mid` all chains are
      whole; then `b` is deleted, which is between `a` and `c`, and `a` is reconciled. At the end `a` is
      completed, and `c`, a search or a pipeline that `b` has scheduled for `a`, is stored and unfinished. */
  lemma DeletedBetween(kind: Kind, a: string, b: string, c: string, v: string)
    returns (first: seq<Step>, mid: Namespace, n: Namespace)
    requires a != b && b != c && a != c
    ensures Exec(EMPTY, first) == Some(mid) && Protected(mid) && Between(mid, b)
    ensures Exec(EMPTY, first + Ending(a, b)) == Some(n) && InTime(EMPTY, first + Ending(a, b))
    ensures a in n.searches && n.searches[a].uid == 0 && n.searches[a].completed
    ensures b !in n.searches && HasChild(n, kind, c)
  {
    var r, q, n1 := BuildThree(kind, a, b, c, v);
    var three := ThreeLevels(kind, a, b, c, v, r, q);
    mid := Kill(n1, a);
    first := three + [Die(a)];
    n := End(n1, kind, a, b, c);
    BIsBetween(n1, kind, a, b, c);
    ThreeLevelsAreClean(kind, a, b, c, v, r, q);
    DeletionInTime(a, b, three, n1, mid, n);
  }

  lemma DeletionInTime(a: string, b: string, three: seq<Step>, n: Namespace, mid: Namespace, after: Namespace)
    requires Exec(EMPTY, three) == Some(n) && AllClean(EMPTY, three) && n.requests == {}
    requires Exec(n, [Die(a)]) == Some(mid) && Exec(mid, Ending(a, b)) == Some(after)
    ensures Exec(EMPTY, three + [Die(a)]) == Some(mid) && Exec(EMPTY, three + [Die(a)] + Ending(a, b)) == Some(after)
    ensures InTime(EMPTY, three + [Die(a)] + Ending(a, b))
  {
    ExecAppend(EMPTY, three, n, [Die(a)]);
    ExecAppend(EMPTY, three + [Die(a)], mid, Ending(a, b));
    DeathIsClean(n, a);
    CleanAppend(EMPTY, three, n, [Die(a)]);
    EndingIsClean(mid, a, b);
    CleanAppend(EMPTY, three + [Die(a)], mid, Ending(a, b));
    EmptyInv();
    CleanRunsAreInTime(EMPTY, three + [Die(a)] + Ending(a, b));
  }

  lemma EndingIsClean(n: Namespace, a: string, b: string)
    ensures AllClean(n, Ending(a, b))
  {
    HarmlessIsClean(n, Ending(a, b));
  }

  lemma DeathIsClean(n: Namespace, a: string)
    requires n.requests == {}
    ensures AllClean(n, [Die(a)])
  {
    assert [Die(a)][1..] == [] && Clean(n, Die(a));
  }

  lemma ThreeLevelsAreClean(kind: Kind, a: string, b: string, c: string, v: string, r: Request, q: Request)
    ensures AllClean(EMPTY, ThreeLevels(kind, a, b, c, v, r, q))
  {
    StartingIsHarmless(SearchKind, a, v);
    StartingIsHarmless(kind, b, v);
    HarmlessIsClean(EMPTY, ThreeLevels(kind, a, b, c, v, r, q));
  }

  lemma StartingIsHarmless(kind: Kind, s: string, v: string)
    ensures forall step :: step in Starting(kind, s, v) ==>
      !step.Exit? && !step.Die? && !step.DeletePod? && !step.Serve?
  {
    SchedulerStepsOnly(s, Handing(kind, v));
  }
}
