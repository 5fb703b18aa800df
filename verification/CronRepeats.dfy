/**
 Runs with up-to-date lists in which an activation is executed twice, because the search that stands for
 it has been pruned while no later activation has passed: with a limit of zero for either history list,
 and with a positive limit when the search that is scheduled last is not the one that started last.
 CronRuns.RepeatsIff says when this happens, CronRuns.SparedRunsIncrease when it does not.
 */
module CronRepeats {
  import opened Wrappers
  import opened CronSchedule
  import opened CronNaming
  import opened CronHistory
  import opened CronSearchController
  import opened CronRuns

  const MINUTE: int := 60 * NANOS

  function Minutely(t: int): int { (t / MINUTE + 1) * MINUTE }

  /** A minute counts from one multiple of its length to the next. */
  lemma MinuteOf(t: int, m: int)
    requires m * MINUTE <= t < m * MINUTE + MINUTE
    ensures t / MINUTE == m
  {
  }

  lemma MinuteBounds(t: int)
    ensures t / MINUTE * MINUTE <= t < t / MINUTE * MINUTE + MINUTE
  {
  }

  lemma MinutelyIsSchedule()
    ensures IsSchedule(Minutely)
  {
    forall t ensures Later(Minutely, t) {
      MinuteBounds(t);
    }
    forall t, u ensures Steady(Minutely, t, u) {
      if t <= u < Minutely(t) {
        MinuteBounds(t);
        MinuteOf(u, t / MINUTE);
      }
    }
  }

  /** From one minute to the next there is one activation, the latter. */
  lemma OneMinute(from: int, to: int)
    requires from % MINUTE == 0 && to == from + MINUTE
    ensures Activations(Minutely, from, to) == {to} && Activations(Minutely, from, from) == {}
  {
    var j := from / MINUTE;
    MinuteBounds(from);
    forall a ensures a in Activations(Minutely, from, to) <==> a == to {
      if from < a <= to { MinuteOf(a - 1, j); }
    }
  }

  /** A CronSearch created at the beginning of time that runs every minute. */
  function SpecWith(failedLimit: Option<nat>, successfulLimit: Option<nat>): Spec {
    Spec("nightly", Some(Minutely), 0, false, Allow, None, failedLimit, successfulLimit)
  }

  ghost predicate IsNightly(spec: Spec) { spec == SpecWith(spec.failedLimit, spec.successfulLimit) }

  /** `from` is the time up to which the listed children have run, the beginning if there are none. */
  ghost predicate RanUpTo(list: seq<Listed>, from: int) {
    from % MINUTE == 0 && (MostRecent(list) == if from == 0 then None else Some(from))
  }

  /** The minute after the latest child is due at its time, and nothing is due before. */
  lemma DueNext(spec: Spec, list: seq<Listed>, from: int, to: int)
    requires IsNightly(spec) && RanUpTo(list, from) && to == from + MINUTE
    ensures forall t :: Due(spec, list, Clock(to, to), t) <==> t == to
    ensures forall t :: !Due(spec, list, Clock(from, from), t)
  {
    OneMinute(from, to);
    assert Earliest(WindowOf(spec, list), to) == from == Earliest(WindowOf(spec, list), from);
  }

  function AnswersOk(): Answers { Answers(true, true, {}) }

  /** The state after a search has been created for `t`. */
  function Created(spec: Spec, s: State, t: int): State {
    State(s.stored[NameFor(spec.name, t) := NewChild(t)], t, s.history + [t])
  }

  /** A reconcile that prunes nothing and creates the search that is due. */
  lemma CreationStep(spec: Spec, list: seq<Listed>, s: State, from: int, t: int)
    requires IsNightly(spec) && IsFresh(list, s.stored) && s.now <= t
    requires RanUpTo(list, from) && t == from + MINUTE && NameFor(spec.name, t) !in s.stored
    requires Prunes(WithState(list, Some(False)), spec.failedLimit, [])
    requires Prunes(WithState(list, Some(True)), spec.successfulLimit, [])
    ensures Step(spec, s, Created(spec, s, t), true)
  {
    var i := Inputs(list, Clock(t, t), AnswersOk());
    var o := Outputs(Some(t), [], []);
    DueNext(spec, list, from, t);
    assert Created(spec, s, t).stored - {NameFor(spec.name, t)} == s.stored;
    assert forall u :: o.created == Some(u) <==> Creates(spec, list, i.clock, i.answers, s.stored, u);
    assert ReconcileStep(spec, s, Created(spec, s, t), i, o);
  }

  /** The state after the deletion of `x` has been asked for. */
  function Marked(s: State, x: Listed): State { s.(stored := s.stored[x.name := x.child.(deleting := true)]) }

  /** A reconcile that only prunes: it asks for the deletion of `x`. */
  lemma PruningStep(spec: Spec, list: seq<Listed>, s: State, x: Listed, failedOut: seq<Listed>,
    successfulOut: seq<Listed>)
    requires spec.policy != Replace && IsFresh(list, s.stored) && x in list && failedOut + successfulOut == [x]
    requires forall t :: !Due(spec, list, Clock(s.now, s.now), t)
    requires Prunes(WithState(list, Some(False)), spec.failedLimit, failedOut)
    requires Prunes(WithState(list, Some(True)), spec.successfulLimit, successfulOut)
    ensures Step(spec, s, Marked(s, x), true)
  {
    var i := Inputs(list, Clock(s.now, s.now), AnswersOk());
    var o := Outputs(None, failedOut, successfulOut);
    assert forall t :: !Creates(spec, list, i.clock, i.answers, s.stored, t);
    OneRequest(failedOut, successfulOut, x);
    MarksOne(spec, list, i.clock, s, x, failedOut, successfulOut);
    assert ReconcileStep(spec, s, Marked(s, x), i, o);
  }

  lemma MarksOne(spec: Spec, list: seq<Listed>, clock: Clock, s: State, x: Listed, failedOut: seq<Listed>,
    successfulOut: seq<Listed>)
    requires spec.policy != Replace && x.name in s.stored && s.stored[x.name] == x.child
    requires Names(failedOut) + Names(successfulOut) == {x.name}
    ensures OnlyMarks(s.stored, Marked(s, x).stored,
        Names(failedOut) + Names(successfulOut) + Replaceable(spec, list, clock, AnswersOk()))
    ensures Marks(Marked(s, x).stored, Names(failedOut) + Names(successfulOut) - {})
  {
  }

  lemma OneRequest(a: seq<Listed>, b: seq<Listed>, x: Listed)
    requires a + b == [x]
    ensures Names(a) + Names(b) == {x.name}
  {
    assert forall y :: y in a || y in b ==> y in a + b;
    assert (a + b)[0] in a + b;
  }

  /** A list within the limit is not pruned. */
  lemma NothingToPrune(list: seq<Listed>, limit: Option<nat>)
    requires list == [] || (|list| == 1 && limit == Some(1))
    ensures Prunes(list, limit, [])
  {
    if limit.Some? { assert SortedByAge(list, list) && [] == list[..Excess(|list|, limit.value)]; }
  }

  /** A child for the activation `t` that has finished. */
  function Done(t: int, status: ConditionStatus, start: Option<int>): Child {
    Child(Format(t), [Condition(COMPLETE, status)], start, false)
  }

  /** Children may finish, and marked ones may go. */
  lemma FinishStep(spec: Spec, s: State, s': State)
    requires OtherStep(s, s')
    ensures Step(spec, s, s', true)
  {
  }

  // ----- a limit of zero -----

  function ZeroLimit(status: ConditionStatus): Spec {
    if status == False then SpecWith(Some(0), None) else SpecWith(None, Some(0))
  }

  /** The state with one child, for `t`. */
  function One(t: int, child: Child, history: seq<int>): State {
    State(map[NameFor("nightly", t) := child], t, history)
  }

  function ZeroRun(status: ConditionStatus, t: int): seq<State> {
    [State(map[], 0, []),
     One(t, NewChild(t), [t]),
     One(t, Done(t, status, None), [t]),
     One(t, Done(t, status, None).(deleting := true), [t]),
     State(map[], t, [t]),
     One(t, NewChild(t), [t, t])]
  }

  /** The first minute is due while there is no child. */
  lemma RunsFirstMinute(spec: Spec, s: State, t: int)
    requires IsNightly(spec) && s.stored == map[] && s.now <= t && t == MINUTE
    ensures Step(spec, s, One(t, NewChild(t), s.history + [t]), true)
  {
    NothingToPrune([], spec.failedLimit);
    NothingToPrune([], spec.successfulLimit);
    CreationStep(spec, [], s, 0, t);
  }

  /** A list of one entry. */
  lemma Single(x: Listed, status: ConditionStatus, t: int)
    requires x.child.annotation == Format(t) && t % NANOS == 0 && (Finished(x.child.conditions) == Some(status))
    ensures MostRecent([x]) == Some(t) && WithState([x], Some(status)) == [x]
    ensures forall other :: other != status ==> WithState([x], Some(other)) == []
  {
    assert [x][..0] == [];
    AnnotationRoundTrip(t);
  }

  lemma PrunesAll(list: seq<Listed>)
    requires |list| == 1
    ensures Prunes(list, Some(0), list)
  {
    assert SortedByAge(list, list) && list == list[..Excess(1, 0)];
  }

  lemma PrunesTheOnlyChild(status: ConditionStatus, s: State, x: Listed)
    requires (status == True || status == False) && s.now == MINUTE
    requires s.stored == map[x.name := x.child]
    requires x.child.annotation == Format(s.now) && Finished(x.child.conditions) == Some(status)
    ensures Step(ZeroLimit(status), s, Marked(s, x), true)
  {
    Single(x, status, s.now);
    DueNext(ZeroLimit(status), [x], s.now, s.now + MINUTE);
    PrunesAll([x]);
    OneIsFresh(x, s);
    NothingToPrune([], None);
    if status == False {
      PruningStep(ZeroLimit(status), [x], s, x, [x], []);
    } else {
      PruningStep(ZeroLimit(status), [x], s, x, [], [x]);
    }
  }

  lemma OneIsFresh(x: Listed, s: State)
    requires s.stored == map[x.name := x.child]
    ensures IsFresh([x], s.stored) && x in [x]
  {
    assert [x][0] == x;
  }

  lemma ZeroPrunes(status: ConditionStatus, t: int)
    requires (status == True || status == False) && t == MINUTE
    ensures Step(ZeroLimit(status), One(t, Done(t, status, None), [t]),
        One(t, Done(t, status, None).(deleting := true), [t]), true)
  {
    var x := Listed(NameFor("nightly", t), Done(t, status, None));
    var s := One(t, x.child, [t]);
    PrunesTheOnlyChild(status, s, x);
    assert Marked(s, x) == One(t, x.child.(deleting := true), [t]) by {
      assert s.stored[x.name := x.child.(deleting := true)] == map[x.name := x.child.(deleting := true)];
    }
  }

  /** What happens before and after pruning. */
  lemma ZeroFinishes(spec: Spec, status: ConditionStatus, t: int)
    ensures Step(spec, One(t, NewChild(t), [t]), One(t, Done(t, status, None), [t]), true)
    ensures Step(spec, One(t, Done(t, status, None).(deleting := true), [t]), State(map[], t, [t]), true)
  {
    FinishStep(spec, One(t, NewChild(t), [t]), One(t, Done(t, status, None), [t]));
    FinishStep(spec, One(t, Done(t, status, None).(deleting := true), [t]), State(map[], t, [t]));
  }

  /** The first minute runs again once its search has gone. */
  lemma FirstRunsAgain(spec: Spec, t: int)
    requires IsNightly(spec) && t == MINUTE
    ensures Step(spec, State(map[], t, [t]), One(t, NewChild(t), [t, t]), true)
  {
    RunsFirstMinute(spec, State(map[], t, [t]), t);
    assert [t] + [t] == [t, t];
  }

  lemma FirstRuns(spec: Spec, t: int)
    requires IsNightly(spec) && t == MINUTE
    ensures Step(spec, State(map[], 0, []), One(t, NewChild(t), [t]), true)
  {
    RunsFirstMinute(spec, State(map[], 0, []), t);
    assert [] + [t] == [t];
  }

  lemma RunOfSix(spec: Spec, s0: State, s1: State, s2: State, s3: State, s4: State, s5: State)
    requires WellFormed(spec) && s0.stored == map[] && s0.history == []
    requires Step(spec, s0, s1, true) && Step(spec, s1, s2, true) && Step(spec, s2, s3, true)
    requires Step(spec, s3, s4, true) && Step(spec, s4, s5, true)
    ensures IsRun(spec, [s0, s1, s2, s3, s4, s5], true)
  {
  }

  /** With a limit of zero for the failed or for the successful searches, the first minute is executed twice. */
  lemma ZeroHistoryRepeatsActivation(status: ConditionStatus, t: int)
    requires (status == True || status == False) && t == MINUTE
    ensures IsRun(ZeroLimit(status), ZeroRun(status, t), true)
    ensures ZeroRun(status, t)[5].history == [t, t]
  {
    MinutelyIsSchedule();
    FirstRuns(ZeroLimit(status), t);
    FirstRunsAgain(ZeroLimit(status), t);
    ZeroFinishes(ZeroLimit(status), status, t);
    ZeroPrunes(status, t);
    RunOfSix(ZeroLimit(status), State(map[], 0, []), One(t, NewChild(t), [t]), One(t, Done(t, status, None), [t]),
             One(t, Done(t, status, None).(deleting := true), [t]), State(map[], t, [t]), One(t, NewChild(t), [t, t]));
  }

  // ----- a positive limit -----

  function KeepOne(): Spec { SpecWith(None, Some(1)) }

  /** Two searches, for `t` and `u`; the second is scheduled later but has started earlier. */
  function First(t: int): Child { Done(t, True, Some(5)) }

  function Second(u: int): Child { Done(u, True, Some(3)) }

  function Two(t: int, u: int, first: Child, second: Child, history: seq<int>): State {
    State(map[NameFor("nightly", t) := first, NameFor("nightly", u) := second], u, history)
  }

  function OrderRun(t: int, u: int): seq<State> {
    [State(map[], 0, []),
     One(t, NewChild(t), [t]),
     Two(t, u, NewChild(t), NewChild(u), [t, u]),
     Two(t, u, First(t), Second(u), [t, u]),
     Two(t, u, First(t), Second(u).(deleting := true), [t, u]),
     State(map[NameFor("nightly", t) := First(t)], u, [t, u]),
     Two(t, u, First(t), NewChild(u), [t, u, u])]
  }

  /** The second minute is due when the only child stands for the first and is not to be pruned. */
  lemma RunsSecondMinute(s: State, child: Child, t: int, u: int)
    requires t == MINUTE && u == t + MINUTE && s.stored == map[NameFor("nightly", t) := child] && s.now <= u
    requires child.annotation == Format(t) && (child.conditions == [] || Finished(child.conditions) == Some(True))
    ensures Step(KeepOne(), s, Two(t, u, child, NewChild(u), s.history + [u]), true)
  {
    var x := Listed(NameFor("nightly", t), child);
    SameNameSameActivation("nightly", t, u);
    OneIsFresh(x, s);
    AtMostOne(x, t);
    NothingToPrune([], None);
    NothingToPrune(WithState([x], Some(True)), Some(1));
    CreationStep(KeepOne(), [x], s, t, u);
    assert Created(KeepOne(), s, u).stored == Two(t, u, child, NewChild(u), s.history + [u]).stored;
  }

  lemma AtMostOne(x: Listed, t: int)
    requires x.child.annotation == Format(t) && t % NANOS == 0
    requires x.child.conditions == [] || Finished(x.child.conditions) == Some(True)
    ensures MostRecent([x]) == Some(t) && WithState([x], Some(False)) == []
    ensures WithState([x], Some(True)) == [] || WithState([x], Some(True)) == [x]
  {
    assert [x][..0] == [];
    AnnotationRoundTrip(t);
  }

  /** Pruning to one search takes the one that started first: the second. */
  lemma PrunesTheSecond(s: State, x: Listed, y: Listed, t: int, u: int)
    requires t == MINUTE && u == t + MINUTE && s.now == u && x.name != y.name
    requires s.stored == map[x.name := x.child, y.name := y.child] && x.child == First(t) && y.child == Second(u)
    ensures Step(KeepOne(), s, Marked(s, y), true)
  {
    Pair(x, y, t, u);
    DueNext(KeepOne(), [x, y], u, u + MINUTE);
    NothingToPrune([], None);
    OlderGoes(x, y);
    TwoAreFresh(x, y, s);
    PruningStep(KeepOne(), [x, y], s, y, [], [y]);
  }

  lemma TwoAreFresh(x: Listed, y: Listed, s: State)
    requires x.name != y.name && s.stored == map[x.name := x.child, y.name := y.child]
    ensures IsFresh([x, y], s.stored) && y in [x, y]
  {
    assert [x, y][0] == x && [x, y][1] == y;
  }

  lemma OlderGoes(x: Listed, y: Listed)
    requires Older(y, x)
    ensures Prunes([x, y], Some(1), [y])
  {
    assert multiset([y, x]) == multiset([x, y]);
    assert SortedByAge([x, y], [y, x]) && [y] == [y, x][..Excess(2, 1)];
  }

  /** A list of two entries. */
  lemma Pair(x: Listed, y: Listed, t: int, u: int)
    requires x.child.annotation == Format(t) && y.child.annotation == Format(u) && t % NANOS == 0 && u % NANOS == 0
        && t < u
    requires Finished(x.child.conditions) == Some(True) == Finished(y.child.conditions)
    ensures MostRecent([x, y]) == Some(u)
    ensures WithState([x, y], Some(True)) == [x, y] && WithState([x, y], Some(False)) == []
  {
    assert [x, y][..1] == [x];
    Single(x, True, t);
    AnnotationRoundTrip(u);
  }

  lemma MarksTheSecond(t: int, u: int)
    requires t == MINUTE && u == t + MINUTE
    ensures Step(KeepOne(), Two(t, u, First(t), Second(u), [t, u]),
        Two(t, u, First(t), Second(u).(deleting := true), [t, u]), true)
  {
    var x, y := Listed(NameFor("nightly", t), First(t)), Listed(NameFor("nightly", u), Second(u));
    var s := Two(t, u, First(t), Second(u), [t, u]);
    SameNameSameActivation("nightly", t, u);
    PrunesTheSecond(s, x, y, t, u);
    assert Marked(s, y).stored == Two(t, u, First(t), Second(u).(deleting := true), [t, u]).stored;
  }

  /** What happens between the two creations for the second minute. */
  lemma SecondGoes(t: int, u: int)
    requires t == MINUTE && u == t + MINUTE
    ensures Step(KeepOne(), Two(t, u, NewChild(t), NewChild(u), [t, u]), Two(t, u, First(t), Second(u), [t, u]), true)
    ensures Step(KeepOne(), Two(t, u, First(t), Second(u).(deleting := true), [t, u]),
                 State(map[NameFor("nightly", t) := First(t)], u, [t, u]), true)
  {
    SameNameSameActivation("nightly", t, u);
    FinishStep(KeepOne(), Two(t, u, NewChild(t), NewChild(u), [t, u]), Two(t, u, First(t), Second(u), [t, u]));
    FinishStep(KeepOne(), Two(t, u, First(t), Second(u).(deleting := true), [t, u]),
               State(map[NameFor("nightly", t) := First(t)], u, [t, u]));
  }

  /** The second minute runs, and runs again once its search has gone. */
  lemma SecondRuns(t: int, u: int)
    requires t == MINUTE && u == t + MINUTE
    ensures Step(KeepOne(), One(t, NewChild(t), [t]), Two(t, u, NewChild(t), NewChild(u), [t, u]), true)
  {
    RunsSecondMinute(One(t, NewChild(t), [t]), NewChild(t), t, u);
    assert [t] + [u] == [t, u];
  }

  lemma SecondRunsAgain(t: int, u: int)
    requires t == MINUTE && u == t + MINUTE
    ensures Step(KeepOne(), State(map[NameFor("nightly", t) := First(t)], u, [t, u]),
                 Two(t, u, First(t), NewChild(u), [t, u, u]), true)
  {
    RunsSecondMinute(State(map[NameFor("nightly", t) := First(t)], u, [t, u]), First(t), t, u);
    assert [t, u] + [u] == [t, u, u];
  }

  lemma RunOfSeven(spec: Spec, s0: State, s1: State, s2: State, s3: State, s4: State, s5: State, s6: State)
    requires WellFormed(spec) && s0.stored == map[] && s0.history == []
    requires Step(spec, s0, s1, true) && Step(spec, s1, s2, true) && Step(spec, s2, s3, true)
    requires Step(spec, s3, s4, true) && Step(spec, s4, s5, true) && Step(spec, s5, s6, true)
    ensures IsRun(spec, [s0, s1, s2, s3, s4, s5, s6], true)
  {
  }

  /** With a limit of one successful search, the second minute is executed twice, because its search has
      started before that of the first and is pruned as the oldest. */
  lemma StartOrderRepeatsActivation(t: int, u: int)
    requires t == MINUTE && u == t + MINUTE
    ensures IsRun(KeepOne(), OrderRun(t, u), true)
    ensures OrderRun(t, u)[6].history == [t, u, u]
  {
    MinutelyIsSchedule();
    FirstRuns(KeepOne(), t);
    SecondRuns(t, u);
    SecondGoes(t, u);
    MarksTheSecond(t, u);
    SecondRunsAgain(t, u);
    RunOfSeven(KeepOne(), State(map[], 0, []), One(t, NewChild(t), [t]), Two(t, u, NewChild(t), NewChild(u), [t, u]),
               Two(t, u, First(t), Second(u), [t, u]), Two(t, u, First(t), Second(u).(deleting := true), [t, u]),
               State(map[NameFor("nightly", t) := First(t)], u, [t, u]), Two(t, u, First(t), NewChild(u), [t, u, u]));
  }
}
