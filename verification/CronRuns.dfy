/**
 Whole runs of a CronSearch: any number of reconciles, while searches start, finish and are
 removed, the clock advances and the CronSearch is edited.
 */
module CronRuns {
  import opened Wrappers
  import opened CronSchedule
  import opened CronNaming
  import opened CronHistory
  import opened CronSearchController

  /** `history` records the activations for which a search was created, in order of creation. */
  datatype State = State(stored: Children, now: int, history: seq<int>)

  /** `list` is an up-to-date list of the stored children, each of them once. */
  ghost predicate IsFresh(list: seq<Listed>, stored: Children) {
    && (forall i, j :: 0 <= i < j < |list| ==> list[i].name != list[j].name)
    && (forall x :: x in list ==> x.name in stored && stored[x.name] == x.child)
    && (forall n :: n in stored ==> Listed(n, stored[n]) in list)
  }

  datatype Inputs = Inputs(list: seq<Listed>, clock: Clock, answers: Answers)

  datatype Outputs = Outputs(created: Option<int>, failedOut: seq<Listed>, successfulOut: seq<Listed>)

  ghost predicate ReconcileStep(spec: Spec, s: State, s': State, i: Inputs, o: Outputs) {
    && s.now <= i.clock.now <= i.clock.later <= s'.now
    && Reconciled(spec, i.list, i.clock, i.answers, s.stored, s'.stored, o.created, o.failedOut, o.successfulOut)
    && s'.history == if o.created.Some? then s.history + [o.created.value] else s.history
  }

  /** What others do to a child: it may start, finish, or be marked for deletion. */
  ghost predicate Evolves(before: Child, after: Child) {
    && after.annotation == before.annotation
    && (Finished(before.conditions).Some? ==> Finished(after.conditions) == Finished(before.conditions))
    && (before.deleting ==> after.deleting)
  }

  ghost predicate OtherStep(s: State, s': State) {
    && s.now <= s'.now && s'.history == s.history
    && s'.stored.Keys <= s.stored.Keys
    && forall n :: n in s'.stored ==> Evolves(s.stored[n], s'.stored[n])
  }

  /** One step of a run; `upToDate` demands that reconciles work with an up-to-date list. */
  ghost predicate Step(spec: Spec, s: State, s': State, upToDate: bool) {
    || OtherStep(s, s')
    || exists i, o :: ReconcileStep(spec, s, s', i, o) && (upToDate ==> IsFresh(i.list, s.stored))
  }

  /** A run in which the specification may be edited between any two steps; only the name stays. */
  ghost predicate IsEditedRun(specs: seq<Spec>, run: seq<State>, upToDate: bool) {
    && |specs| == |run| && run != [] && run[0].stored == map[] && run[0].history == []
    && (forall k :: 0 <= k < |specs| ==> WellFormed(specs[k]) && specs[k].name == specs[0].name)
    && forall k :: 0 <= k < |run| - 1 ==> Step(specs[k], run[k], run[k + 1], upToDate)
  }

  /** The edits concern suspension, deadline, policy and limits, not the schedule. */
  ghost predicate KeepsSchedule(specs: seq<Spec>) {
    forall k :: 0 <= k < |specs| ==> SameTimes(specs[0], specs[k])
  }

  ghost predicate SameTimes(a: Spec, b: Spec) { a.name == b.name && a.schedule == b.schedule && a.created == b.created }

  /** A run without edits. */
  ghost predicate IsRun(spec: Spec, run: seq<State>, upToDate: bool) {
    && WellFormed(spec)
    && run != [] && run[0].stored == map[] && run[0].history == []
    && forall k :: 0 <= k < |run| - 1 ==> Step(spec, run[k], run[k + 1], upToDate)
  }

  lemma UneditedRun(spec: Spec, run: seq<State>, upToDate: bool)
    requires IsRun(spec, run, upToDate)
    ensures IsEditedRun(seq(|run|, _ => spec), run, upToDate) && KeepsSchedule(seq(|run|, _ => spec))
  {
    var specs := seq(|run|, _ => spec);
    forall k | 0 <= k < |run| - 1 ensures Step(specs[k], run[k], run[k + 1], upToDate) {
      assert Step(spec, run[k], run[k + 1], upToDate) && specs[k] == spec;
    }
  }

  // ----- names and activations -----

  /** A stored child is named after the activation in its annotation. */
  ghost predicate NamedAfter(spec: Spec, name: string, c: Child) {
    Parse(c.annotation).Some? && name == NameFor(spec.name, Parse(c.annotation).value)
  }

  ghost predicate AllNamed(spec: Spec, stored: Children) {
    forall n :: n in stored ==> NamedAfter(spec, n, stored[n])
  }

  lemma CreatedIsDue(spec: Spec, i: Inputs, s: State, s': State, o: Outputs)
    requires ReconcileStep(spec, s, s', i, o) && o.created.Some?
    ensures Creates(spec, i.list, i.clock, i.answers, s.stored, o.created.value)
  {
  }

  /** An activation that is due is a whole second, so its annotation names it. */
  lemma DueIsActivation(spec: Spec, list: seq<Listed>, clock: Clock, t: int)
    requires WellFormed(spec) && Due(spec, list, clock, t)
    ensures t % NANOS == 0 && Parse(Format(t)) == Some(t)
    ensures IsActivation(spec.schedule.value, t)
    ensures Earliest(WindowOf(spec, list), clock.now) < t <= clock.now
  {
    assert Later(spec.schedule.value, t - 1);
    AnnotationRoundTrip(t);
  }

  /** A reconcile adds at most the child that it names after its activation, and touches no annotation. */
  lemma NamesReconcile(spec: Spec, s: State, s': State, i: Inputs, o: Outputs, n: string)
    requires WellFormed(spec) && AllNamed(spec, s.stored) && ReconcileStep(spec, s, s', i, o) && n in s'.stored
    ensures NamedAfter(spec, n, s'.stored[n])
  {
    if o.created.Some? && n == NameFor(spec.name, o.created.value) {
      CreatedIsDue(spec, i, s, s', o);
      DueIsActivation(spec, i.list, i.clock, o.created.value);
      CreatedAs(spec, s, s', i, o);
    } else {
      AnnotationKept(spec, s, s', i, o, n);
      assert NamedAfter(spec, n, s.stored[n]);
    }
  }

  lemma CreatedAs(spec: Spec, s: State, s': State, i: Inputs, o: Outputs)
    requires ReconcileStep(spec, s, s', i, o) && o.created.Some?
    ensures var name := NameFor(spec.name, o.created.value);
            name in s'.stored && s'.stored[name] == NewChild(o.created.value)
  {
  }

  lemma AnnotationKept(spec: Spec, s: State, s': State, i: Inputs, o: Outputs, n: string)
    requires ReconcileStep(spec, s, s', i, o) && n in s'.stored
    requires o.created.Some? ==> n != NameFor(spec.name, o.created.value)
    ensures n in s.stored && s'.stored[n].annotation == s.stored[n].annotation
  {
    var rest := if o.created.Some? then s'.stored - {NameFor(spec.name, o.created.value)} else s'.stored;
    assert n in rest;
  }

  lemma NamesStep(spec: Spec, s: State, s': State)
    requires WellFormed(spec) && AllNamed(spec, s.stored) && Step(spec, s, s', false)
    ensures AllNamed(spec, s'.stored)
  {
    forall n | n in s'.stored ensures NamedAfter(spec, n, s'.stored[n]) {
      if OtherStep(s, s') {
        assert NamedAfter(spec, n, s.stored[n]) && Evolves(s.stored[n], s'.stored[n]);
      } else {
        var i, o :| ReconcileStep(spec, s, s', i, o);
        NamesReconcile(spec, s, s', i, o, n);
      }
    }
  }

  lemma {:induction false} NamesRun(specs: seq<Spec>, run: seq<State>, k: nat)
    requires IsEditedRun(specs, run, false) && k < |run|
    ensures AllNamed(specs[0], run[k].stored)
  {
    if k > 0 {
      NamesRun(specs, run, k - 1);
      assert Step(specs[k - 1], run[k - 1], run[k - 1 + 1], false);
      SameNames(specs[0], specs[k - 1], run[k - 1].stored);
      NamesStep(specs[k - 1], run[k - 1], run[k]);
      SameNames(specs[k - 1], specs[0], run[k].stored);
    }
  }

  lemma SameNames(spec: Spec, spec': Spec, stored: Children)
    requires AllNamed(spec, stored) && spec.name == spec'.name
    ensures AllNamed(spec', stored)
  {
    forall n | n in stored ensures NamedAfter(spec', n, stored[n]) { assert NamedAfter(spec, n, stored[n]); }
  }

  /** Even if every reconcile works with an arbitrarily stale list, and whatever is edited, two stored
      searches of one CronSearch never stand for the same activation. */
  lemma NoSharedActivation(specs: seq<Spec>, run: seq<State>, k: nat, m: string, n: string)
    requires IsEditedRun(specs, run, false) && k < |run|
    requires m in run[k].stored && n in run[k].stored
    requires Parse(run[k].stored[m].annotation) == Parse(run[k].stored[n].annotation)
    ensures m == n
  {
    NamesRun(specs, run, k);
    assert NamedAfter(specs[0], m, run[k].stored[m]) && NamedAfter(specs[0], n, run[k].stored[n]);
  }

  // ----- order of creation -----

  /** A created search is scheduled strictly later than every child in the list the reconcile read. */
  lemma CreatedAfterListed(spec: Spec, s: State, s': State, i: Inputs, o: Outputs, x: Listed)
    requires WellFormed(spec) && ReconcileStep(spec, s, s', i, o) && o.created.Some?
    requires x in i.list && Parse(x.child.annotation).Some?
    ensures Parse(x.child.annotation).value < o.created.value
  {
    CreatedIsDue(spec, i, s, s', o);
    DueIsActivation(spec, i.list, i.clock, o.created.value);
    MostRecentIsGreatest(i.list);
  }

  /** A search is never created for an earlier activation than `m`, and it is created for `m` itself
      if and only if no later activation has passed. This holds for stale lists as well. */
  lemma RepeatsIffNothingNewer(spec: Spec, s: State, s': State, i: Inputs, o: Outputs, m: int)
    requires WellFormed(spec) && ReconcileStep(spec, s, s', i, o) && o.created.Some?
    requires IsActivation(spec.schedule.value, m) && m <= i.clock.now
    ensures m <= o.created.value
    ensures o.created.value == m <==> Activations(spec.schedule.value, m, i.clock.now) == {}
  {
    CreatedIsDue(spec, i, s, s', o);
    DueIsActivation(spec, i.list, i.clock, o.created.value);
    var next := spec.schedule.value;
    var missed := Activations(next, Earliest(WindowOf(spec, i.list), i.clock.now), i.clock.now);
    assert o.created.value < m ==> m in missed;
    if o.created.value == m {
      forall a ensures a !in Activations(next, m, i.clock.now) {
        assert a in Activations(next, m, i.clock.now) ==> a in missed;
      }
    }
    if m < o.created.value {
      assert o.created.value in Activations(next, m, i.clock.now);
    }
  }

  ghost predicate Increasing(history: seq<int>) {
    forall i, j :: 0 <= i < j < |history| ==> history[i] < history[j]
  }

  /** The search created last is still stored. */
  ghost predicate LatestStored(spec: Spec, s: State) {
    s.history != [] ==>
      var t := s.history[|s.history| - 1];
      NameFor(spec.name, t) in s.stored && s.stored[NameFor(spec.name, t)].annotation == Format(t)
  }

  ghost predicate WholeSeconds(history: seq<int>) {
    forall i :: 0 <= i < |history| ==> history[i] % NANOS == 0
  }

  lemma LaterThanLatest(spec: Spec, s: State, s': State, i: Inputs, o: Outputs)
    requires WellFormed(spec) && ReconcileStep(spec, s, s', i, o) && o.created.Some?
    requires IsFresh(i.list, s.stored) && LatestStored(spec, s) && s.history != []
    requires s.history[|s.history| - 1] % NANOS == 0
    ensures s.history[|s.history| - 1] < o.created.value
  {
    var t := s.history[|s.history| - 1];
    AnnotationRoundTrip(t);
    var name := NameFor(spec.name, t);
    assert Listed(name, s.stored[name]) in i.list;
    CreatedAfterListed(spec, s, s', i, o, Listed(name, s.stored[name]));
  }

  lemma IncreasingAppend(history: seq<int>, t: int)
    requires Increasing(history) && WholeSeconds(history) && t % NANOS == 0
    requires history != [] ==> history[|history| - 1] < t
    ensures Increasing(history + [t]) && WholeSeconds(history + [t])
  {
  }

  lemma CreationExtendsHistory(spec: Spec, s: State, s': State, i: Inputs, o: Outputs)
    requires WellFormed(spec) && ReconcileStep(spec, s, s', i, o) && o.created.Some?
    requires IsFresh(i.list, s.stored) && LatestStored(spec, s)
    requires Increasing(s.history) && WholeSeconds(s.history)
    ensures Increasing(s'.history) && WholeSeconds(s'.history)
  {
    CreatedIsDue(spec, i, s, s', o);
    DueIsActivation(spec, i.list, i.clock, o.created.value);
    if s.history != [] {
      LaterThanLatest(spec, s, s', i, o);
    }
    IncreasingAppend(s.history, o.created.value);
  }

  lemma IncreasingStep(spec: Spec, s: State, s': State)
    requires WellFormed(spec) && Step(spec, s, s', true) && LatestStored(spec, s)
    requires Increasing(s.history) && WholeSeconds(s.history)
    ensures Increasing(s'.history) && WholeSeconds(s'.history)
  {
    if !OtherStep(s, s') {
      var i, o :| ReconcileStep(spec, s, s', i, o) && IsFresh(i.list, s.stored);
      if o.created.Some? {
        CreationExtendsHistory(spec, s, s', i, o);
      } else {
        assert s'.history == s.history;
      }
    }
  }

  /** While the search created last stays stored and lists are fresh, activation times strictly
      increase over the whole run; in particular no activation runs twice. */
  lemma {:induction false} CreationTimesIncrease(specs: seq<Spec>, run: seq<State>, k: nat)
    requires IsEditedRun(specs, run, true) && k < |run|
    requires forall j :: 0 <= j < k ==> LatestStored(specs[j], run[j])
    ensures Increasing(run[k].history) && WholeSeconds(run[k].history)
  {
    if k > 0 {
      CreationTimesIncrease(specs, run, k - 1);
      assert Step(specs[k - 1], run[k - 1], run[k - 1 + 1], true);
      IncreasingStep(specs[k - 1], run[k - 1], run[k]);
    }
  }

  // ----- when an activation is repeated -----

  /** An activation for which a search was created: it is later than the CronSearch itself, has passed, and
      its annotation names it. */
  ghost predicate Ran(spec: Spec, now: int, t: int) {
    && spec.schedule.Some? && IsActivation(spec.schedule.value, t)
    && t % NANOS == 0 && spec.created < t <= now
  }

  /** Stored children stand for activations that ran. */
  ghost predicate Books(spec: Spec, s: State) {
    && AllNamed(spec, s.stored)
    && (forall t :: t in s.history ==> Ran(spec, s.now, t))
    && (forall n :: n in s.stored ==> Booked(s, n))
  }

  /** With a fresh list the created search is for an activation that is later than the CronSearch. */
  lemma CreatedRan(spec: Spec, s: State, s': State, i: Inputs, o: Outputs)
    requires WellFormed(spec) && Books(spec, s) && ReconcileStep(spec, s, s', i, o) && IsFresh(i.list, s.stored)
        && o.created.Some?
    ensures Ran(spec, i.clock.now, o.created.value)
  {
    CreatedIsDue(spec, i, s, s', o);
    DueIsActivation(spec, i.list, i.clock, o.created.value);
    MostRecentIsGreatest(i.list);
    if MostRecent(i.list).Some? {
      var x :| x in i.list && Parse(x.child.annotation) == MostRecent(i.list);
      assert x.name in s.stored && Ran(spec, s.now, Parse(x.child.annotation).value);
    }
  }

  /** The annotation of child `n` is booked in the history. */
  ghost predicate Booked(s: State, n: string)
    requires n in s.stored
  {
    Parse(s.stored[n].annotation).Some? && Parse(s.stored[n].annotation).value in s.history
  }

  lemma OtherBooks(spec: Spec, s: State, s': State)
    requires Books(spec, s) && OtherStep(s, s')
    ensures forall n :: n in s'.stored ==> Booked(s', n)
    ensures forall t :: t in s'.history ==> Ran(spec, s'.now, t)
  {
    forall n | n in s'.stored ensures Booked(s', n) { assert Evolves(s.stored[n], s'.stored[n]); }
    LaterStillRan(spec, s, s'.now, s'.history);
  }

  lemma ReconcileBooks(spec: Spec, s: State, s': State, i: Inputs, o: Outputs)
    requires WellFormed(spec) && Books(spec, s) && ReconcileStep(spec, s, s', i, o) && IsFresh(i.list, s.stored)
    ensures forall n :: n in s'.stored ==> Booked(s', n)
    ensures forall t :: t in s'.history ==> Ran(spec, s'.now, t)
  {
    forall n | n in s'.stored ensures Booked(s', n) { ChildBooked(spec, s, s', i, o, n); }
    if o.created.Some? { CreatedRan(spec, s, s', i, o); }
    LaterStillRan(spec, s, s'.now, s.history);
  }

  lemma BooksStep(spec: Spec, s: State, s': State)
    requires WellFormed(spec) && Books(spec, s) && Step(spec, s, s', true)
    ensures Books(spec, s')
  {
    NamesStep(spec, s, s');
    if OtherStep(s, s') {
      OtherBooks(spec, s, s');
    } else {
      var i, o :| ReconcileStep(spec, s, s', i, o) && IsFresh(i.list, s.stored);
      ReconcileBooks(spec, s, s', i, o);
    }
    assert forall n :: n in s'.stored ==> Booked(s', n);
  }

  lemma LaterStillRan(spec: Spec, s: State, later: int, history: seq<int>)
    requires Books(spec, s) && s.now <= later && history == s.history
    ensures forall t :: t in history ==> Ran(spec, later, t)
  {
  }

  lemma ChildBooked(spec: Spec, s: State, s': State, i: Inputs, o: Outputs, n: string)
    requires WellFormed(spec) && Books(spec, s) && ReconcileStep(spec, s, s', i, o) && n in s'.stored
    ensures Booked(s', n)
  {
    if o.created.Some? && n == NameFor(spec.name, o.created.value) {
      CreatedIsDue(spec, i, s, s', o);
      DueIsActivation(spec, i.list, i.clock, o.created.value);
      CreatedAs(spec, s, s', i, o);
      assert s'.history[|s.history|] == o.created.value;
    } else {
      AnnotationKept(spec, s, s', i, o, n);
      assert Booked(s, n);
    }
  }

  lemma {:induction false} BooksRun(specs: seq<Spec>, run: seq<State>, k: nat)
    requires IsEditedRun(specs, run, true) && KeepsSchedule(specs) && k < |run|
    ensures Books(specs[k], run[k])
  {
    if k > 0 {
      BooksRun(specs, run, k - 1);
      assert Step(specs[k - 1], run[k - 1], run[k - 1 + 1], true);
      BooksStep(specs[k - 1], run[k - 1], run[k]);
      assert SameTimes(specs[0], specs[k - 1]) && SameTimes(specs[0], specs[k]);
      SameBooks(specs[k - 1], specs[k], run[k]);
    }
  }

  lemma SameBooks(spec: Spec, spec': Spec, s: State)
    requires Books(spec, s) && SameTimes(spec, spec')
    ensures Books(spec', s)
  {
    SameNames(spec, spec', s.stored);
    forall t | t in s.history ensures Ran(spec', s.now, t) { assert Ran(spec, s.now, t); }
  }

  /** No stored child stands for `m` or a later activation. */
  ghost predicate NoneFrom(stored: Children, m: int) {
    forall n :: n in stored && Parse(stored[n].annotation).Some? ==> Parse(stored[n].annotation).value < m
  }

  /** Everything else that lets a reconcile create a search for `m`: the schedule is not suspended, no later
      activation has passed, at most 100 are missed, the deadline has passed neither when the schedule is
      computed nor when it is checked, and policy and API server permit the creation. */
  ghost predicate MayRun(spec: Spec, i: Inputs, m: int) {
    && !spec.suspend && spec.schedule.Some? && i.answers.statusOk && i.answers.createOk
    && m <= i.clock.now && Activations(spec.schedule.value, m, i.clock.now) == {}
    && |Activations(spec.schedule.value, Earliest(WindowOf(spec, i.list), i.clock.now), i.clock.now)| <= MAX_STARTS
    && (spec.deadlineSeconds.Some? ==>
          Deadline(spec.deadlineSeconds.value, i.clock.now) < m
          && i.clock.later <= m + spec.deadlineSeconds.value * NANOS)
    && (spec.policy == Forbid ==> ActiveIn(i.list) == [])
    && (spec.policy == Replace ==> forall x :: x in ActiveIn(i.list) ==> x.name !in i.answers.failedDeletes)
  }

  /** The earliest time considered lies before `m` exactly if no listed child stands for `m` or later and the
      deadline permits. */
  lemma EarliestBefore(spec: Spec, list: seq<Listed>, stored: Children, now: int, m: int)
    requires IsFresh(list, stored) && spec.created < m
    ensures Earliest(WindowOf(spec, list), now) < m <==>
      NoneFrom(stored, m) && (spec.deadlineSeconds.Some? ==> Deadline(spec.deadlineSeconds.value, now) < m)
  {
    MostRecentIsGreatest(list);
    forall n | n in stored ensures Listed(n, stored[n]) in list {}
    if MostRecent(list).Some? {
      var x :| x in list && Parse(x.child.annotation) == MostRecent(list);
      assert x.name in stored;
    }
  }

  /** `m` is the greatest activation in (earliest, now] exactly if it lies there and none has passed since. */
  lemma GreatestIff(next: Schedule, earliest: int, now: int, m: int)
    requires IsActivation(next, m)
    ensures IsGreatest(m, Activations(next, earliest, now)) <==> earliest < m <= now && Activations(next, m, now) == {}
  {
    if earliest < m <= now && Activations(next, m, now) == {} {
      forall a | a in Activations(next, earliest, now) ensures a <= m { assert a !in Activations(next, m, now); }
    }
    if IsGreatest(m, Activations(next, earliest, now)) {
      forall a ensures a !in Activations(next, m, now) {
        assert a in Activations(next, m, now) ==> a in Activations(next, earliest, now);
      }
    }
  }

  /** When `m`, which ran before, is due. */
  lemma DueIff(spec: Spec, s: State, i: Inputs, m: int)
    requires WellFormed(spec) && Ran(spec, s.now, m) && IsFresh(i.list, s.stored)
    ensures Due(spec, i.list, i.clock, m) <==>
      && NoneFrom(s.stored, m) && !spec.suspend
      && m <= i.clock.now && Activations(spec.schedule.value, m, i.clock.now) == {}
      && |Activations(spec.schedule.value, Earliest(WindowOf(spec, i.list), i.clock.now), i.clock.now)| <= MAX_STARTS
      && (spec.deadlineSeconds.Some? ==>
            Deadline(spec.deadlineSeconds.value, i.clock.now) < m
            && i.clock.later <= m + spec.deadlineSeconds.value * NANOS)
  {
    EarliestBefore(spec, i.list, s.stored, i.clock.now, m);
    GreatestIff(spec.schedule.value, Earliest(WindowOf(spec, i.list), i.clock.now), i.clock.now, m);
  }

  /** A reconcile with a fresh list creates a search again for an activation that ran before if and only
      if no stored child stands for it or a later one, and everything else permits it. */
  lemma RepeatsIff(spec: Spec, s: State, s': State, i: Inputs, o: Outputs, m: int)
    requires WellFormed(spec) && Books(spec, s) && ReconcileStep(spec, s, s', i, o) && IsFresh(i.list, s.stored)
    requires m in s.history
    ensures o.created == Some(m) <==> NoneFrom(s.stored, m) && MayRun(spec, i, m)
  {
    assert Ran(spec, s.now, m);
    DueIff(spec, s, i, m);
    if NoneFrom(s.stored, m) { NameTaken(spec, s, m); }
    CreatedIff(spec, s, s', i, o, m);
  }

  lemma CreatedIff(spec: Spec, s: State, s': State, i: Inputs, o: Outputs, m: int)
    requires ReconcileStep(spec, s, s', i, o)
    ensures o.created == Some(m) <==> Creates(spec, i.list, i.clock, i.answers, s.stored, m)
  {
  }

  /** The name for `m` is taken only by a child that stands for `m`. */
  lemma NameTaken(spec: Spec, s: State, m: int)
    requires Books(spec, s) && m % NANOS == 0 && NoneFrom(s.stored, m)
    ensures NameFor(spec.name, m) !in s.stored
  {
    var n := NameFor(spec.name, m);
    if n in s.stored {
      assert NamedAfter(spec, n, s.stored[n]) && Ran(spec, s.now, Parse(s.stored[n].annotation).value);
      SameNameSameActivation(spec.name, m, Parse(s.stored[n].annotation).value);
    }
  }

  ghost predicate NonDecreasing(history: seq<int>) {
    forall i, j :: 0 <= i < j < |history| ==> history[i] <= history[j]
  }

  /** Runs never go back: over any run with fresh lists, whatever is deleted, no search is created for an
      earlier activation than a search before it. */
  lemma {:induction false} RunsNeverGoBack(specs: seq<Spec>, run: seq<State>, k: nat)
    requires IsEditedRun(specs, run, true) && KeepsSchedule(specs) && k < |run|
    ensures NonDecreasing(run[k].history)
  {
    if k > 0 {
      RunsNeverGoBack(specs, run, k - 1);
      BooksRun(specs, run, k - 1);
      var s, s' := run[k - 1], run[k - 1 + 1];
      assert Step(specs[k - 1], s, s', true);
      NeverBackStep(specs[k - 1], s, s');
    }
  }

  lemma NeverBackStep(spec: Spec, s: State, s': State)
    requires WellFormed(spec) && Books(spec, s) && Step(spec, s, s', true) && NonDecreasing(s.history)
    ensures NonDecreasing(s'.history)
  {
    if !OtherStep(s, s') {
      var i, o :| ReconcileStep(spec, s, s', i, o) && IsFresh(i.list, s.stored);
      if o.created.Some? {
        forall k | 0 <= k < |s.history| ensures s.history[k] <= o.created.value {
          assert Ran(spec, s.now, s.history[k]);
          RepeatsIffNothingNewer(spec, s, s', i, o, s.history[k]);
        }
      }
    }
  }

  /** Creation times that have strictly increased go on to do so in a reconcile if and only if it does not
      repeat the last activation. */
  lemma IncreasesIff(spec: Spec, s: State, s': State, i: Inputs, o: Outputs)
    requires WellFormed(spec) && Books(spec, s) && ReconcileStep(spec, s, s', i, o) && IsFresh(i.list, s.stored)
    requires Increasing(s.history) && s.history != []
    ensures var last := s.history[|s.history| - 1];
            Increasing(s'.history) <==> !(NoneFrom(s.stored, last) && MayRun(spec, i, last))
  {
    var last := s.history[|s.history| - 1];
    assert last in s.history;
    RepeatsIff(spec, s, s', i, o, last);
    if o.created.Some? {
      assert Ran(spec, s.now, last);
      RepeatsIffNothingNewer(spec, s, s', i, o, last);
      IncreasesUnlessEqual(s.history, o.created.value);
    }
    HistoryGrows(spec, s, s', i, o);
  }

  lemma IncreasesUnlessEqual(history: seq<int>, t: int)
    requires Increasing(history) && history != [] && history[|history| - 1] <= t
    ensures Increasing(history + [t]) <==> history[|history| - 1] != t
  {
    var after := history + [t];
    assert after[|history| - 1] == history[|history| - 1] && after[|history|] == t;
  }

  lemma HistoryGrows(spec: Spec, s: State, s': State, i: Inputs, o: Outputs)
    requires ReconcileStep(spec, s, s', i, o)
    ensures s'.history == if o.created.Some? then s.history + [o.created.value] else s.history
  {
  }

  // ----- when pruning cannot cause a repetition -----

  /** Pruning spares a child: it is unfinished, or its history list has no limit, or enough of that list is
      older. */
  ghost predicate Spared(spec: Spec, list: seq<Listed>, x: Listed) {
    match Finished(x.child.conditions)
    case Some(False) => InLimit(WithState(list, Some(False)), spec.failedLimit, x)
    case Some(True) => InLimit(WithState(list, Some(True)), spec.successfulLimit, x)
    case _ => true
  }

  ghost predicate InLimit(list: seq<Listed>, limit: Option<nat>, x: Listed) {
    limit.None? || OlderCount(list, x) >= Excess(|list|, limit.value)
  }

  /** The child of the last activation that ran is stored and nobody has asked for its deletion. */
  ghost predicate LatestKept(spec: Spec, s: State) {
    s.history != [] && LatestStored(spec, s) && !s.stored[LatestName(spec, s)].deleting
  }

  function LatestName(spec: Spec, s: State): string
    requires s.history != []
  {
    NameFor(spec.name, s.history[|s.history| - 1])
  }

  /** A later activation than the last one that ran has passed. */
  ghost predicate NewerPassed(spec: Spec, s: State) {
    s.history != [] && spec.schedule.Some?
    && Activations(spec.schedule.value, s.history[|s.history| - 1], s.now) != {}
  }

  ghost predicate Guarded(spec: Spec, s: State) { s.history == [] || LatestKept(spec, s) || NewerPassed(spec, s) }

  /** In this transition nobody takes the latest child away: users do not delete it, and pruning spares it. */
  ghost predicate SparesLatest(spec: Spec, s: State, s': State) {
    LatestKept(spec, s) ==>
      && (OtherStep(s, s') ==> LatestKept(spec, s'))
      && (forall list :: IsFresh(list, s.stored) ==>
        Spared(spec, list, Listed(LatestName(spec, s), s.stored[LatestName(spec, s)])))
  }

  /** A spared child is not among the searches that pruning asks to go. */
  lemma SparedIsNotPruned(spec: Spec, s: State, s': State, i: Inputs, o: Outputs, x: Listed)
    requires ReconcileStep(spec, s, s', i, o) && IsFresh(i.list, s.stored) && x in i.list && Spared(spec, i.list, x)
    ensures x.name !in Names(o.failedOut) + Names(o.successfulOut)
  {
    forall y | y in o.failedOut || y in o.successfulOut ensures y.name != x.name {
      var failed, successful := WithState(i.list, Some(False)), WithState(i.list, Some(True));
      if y in o.failedOut {
        PrunedIsListed(failed, spec.failedLimit, o.failedOut, y);
        WithStateMember(i.list, Some(False), y);
        if y == x && spec.failedLimit.Some? { SparedByOlder(failed, spec.failedLimit.value, o.failedOut, x); }
      } else {
        PrunedIsListed(successful, spec.successfulLimit, o.successfulOut, y);
        WithStateMember(i.list, Some(True), y);
        if y == x && spec.successfulLimit.Some? {
          SparedByOlder(successful, spec.successfulLimit.value, o.successfulOut, x);
        }
      }
      assert y in i.list && y.child == s.stored[y.name] && x.child == s.stored[x.name];
    }
  }

  /** A reconcile that leaves the last activation the last one marks its child only if a run was due, and
      then a later activation has passed. */
  lemma LatestSurvives(spec: Spec, s: State, s': State, i: Inputs, o: Outputs)
    requires WellFormed(spec) && Books(spec, s) && ReconcileStep(spec, s, s', i, o) && IsFresh(i.list, s.stored)
    requires LatestKept(spec, s) && SparesLatest(spec, s, s') && o.created.None?
    ensures LatestKept(spec, s') || NewerPassed(spec, s')
  {
    var name := LatestName(spec, s);
    var x := Listed(name, s.stored[name]);
    assert x in i.list;
    SparedIsNotPruned(spec, s, s', i, o, x);
    if t :| Due(spec, i.list, i.clock, t) {
      DueAfterLatest(spec, s, i, t);
      assert t in Activations(spec.schedule.value, s.history[|s.history| - 1], s'.now);
    } else {
      assert s'.stored[name] == s.stored[name];
    }
  }

  lemma DueAfterLatest(spec: Spec, s: State, i: Inputs, t: int)
    requires WellFormed(spec) && Books(spec, s) && IsFresh(i.list, s.stored) && LatestKept(spec, s)
        && Due(spec, i.list, i.clock, t)
    ensures s.history[|s.history| - 1] < t <= i.clock.now && IsActivation(spec.schedule.value, t)
  {
    var last := s.history[|s.history| - 1];
    var name := LatestName(spec, s);
    assert Ran(spec, s.now, last);
    AnnotationRoundTrip(last);
    ListedBeforeEarliest(spec, i.list, i.clock.now, Listed(name, s.stored[name]));
    DueIsActivation(spec, i.list, i.clock, t);
  }

  lemma ListedBeforeEarliest(spec: Spec, list: seq<Listed>, now: int, x: Listed)
    requires x in list && Parse(x.child.annotation).Some?
    ensures Parse(x.child.annotation).value <= Earliest(WindowOf(spec, list), now)
  {
    MostRecentIsGreatest(list);
  }

  lemma GuardedReconcile(spec: Spec, s: State, s': State, i: Inputs, o: Outputs)
    requires WellFormed(spec) && Books(spec, s) && ReconcileStep(spec, s, s', i, o) && IsFresh(i.list, s.stored)
    requires SparesLatest(spec, s, s') && Guarded(spec, s) && Increasing(s.history)
    ensures Guarded(spec, s') && Increasing(s'.history)
  {
    if o.created.Some? {
      CreatedAs(spec, s, s', i, o);
      if s.history != [] { CreatedIncreases(spec, s, s', i, o); }
      assert LatestName(spec, s') == NameFor(spec.name, o.created.value);
    } else if LatestKept(spec, s) {
      LatestSurvives(spec, s, s', i, o);
    } else if NewerPassed(spec, s) {
      PassedStaysPassed(spec, s, s');
    }
  }

  lemma GuardedStep(spec: Spec, s: State, s': State)
    requires WellFormed(spec) && Books(spec, s) && Step(spec, s, s', true) && SparesLatest(spec, s, s')
    requires Guarded(spec, s) && Increasing(s.history)
    ensures Guarded(spec, s') && Increasing(s'.history)
  {
    if OtherStep(s, s') {
      if NewerPassed(spec, s) { PassedStaysPassed(spec, s, s'); }
    } else {
      var i, o :| ReconcileStep(spec, s, s', i, o) && IsFresh(i.list, s.stored);
      GuardedReconcile(spec, s, s', i, o);
    }
  }

  lemma PassedStaysPassed(spec: Spec, s: State, s': State)
    requires NewerPassed(spec, s) && s.now <= s'.now && s'.history == s.history
    ensures NewerPassed(spec, s')
  {
    var last := s.history[|s.history| - 1];
    var a :| a in Activations(spec.schedule.value, last, s.now);
    assert a in Activations(spec.schedule.value, last, s'.now);
  }

  lemma CreatedIncreases(spec: Spec, s: State, s': State, i: Inputs, o: Outputs)
    requires WellFormed(spec) && Books(spec, s) && ReconcileStep(spec, s, s', i, o) && IsFresh(i.list, s.stored)
    requires o.created.Some? && s.history != [] && Increasing(s.history) && Guarded(spec, s)
    ensures Increasing(s'.history)
  {
    var last := s.history[|s.history| - 1];
    assert Ran(spec, s.now, last);
    IncreasesIff(spec, s, s', i, o);
    if LatestKept(spec, s) {
      AnnotationRoundTrip(last);
      assert !NoneFrom(s.stored, last);
    } else {
      var a :| a in Activations(spec.schedule.value, last, s.now);
      assert a in Activations(spec.schedule.value, last, i.clock.now);
    }
  }

  /** If users do not delete the latest search before the next activation, and the history limits spare it,
      then no activation runs twice: creation times strictly increase over the whole run. */
  lemma {:induction false} SparedRunsIncrease(specs: seq<Spec>, run: seq<State>, k: nat)
    requires IsEditedRun(specs, run, true) && KeepsSchedule(specs) && k < |run|
    requires forall j :: 0 <= j < k ==> SparesLatest(specs[j], run[j], run[j + 1])
    ensures Increasing(run[k].history) && Guarded(specs[k], run[k])
  {
    if k > 0 {
      SparedRunsIncrease(specs, run, k - 1);
      BooksRun(specs, run, k - 1);
      var s, s' := run[k - 1], run[k - 1 + 1];
      assert Step(specs[k - 1], s, s', true) && SparesLatest(specs[k - 1], s, s');
      GuardedStep(specs[k - 1], s, s');
      assert SameTimes(specs[0], specs[k - 1]) && SameTimes(specs[0], specs[k]);
      SameGuard(specs[k - 1], specs[k], s');
    }
  }

  lemma SameGuard(spec: Spec, spec': Spec, s: State)
    requires Guarded(spec, s) && SameTimes(spec, spec')
    ensures Guarded(spec', s)
  {
  }

  // ----- concurrency policies -----

  predicate Unfinished(c: Child) { Finished(c.conditions).None? }

  ghost predicate AtMostOneUnfinished(stored: Children) {
    forall m, n :: m in stored && n in stored && Unfinished(stored[m]) && Unfinished(stored[n]) ==> m == n
  }

  /** With a fresh list, no active search in the list means that every stored search is finished. */
  lemma ActiveListComplete(list: seq<Listed>, stored: Children, n: string)
    requires IsFresh(list, stored) && n in stored && Unfinished(stored[n])
    ensures Listed(n, stored[n]) in ActiveIn(list) && n in Names(ActiveIn(list))
  {
    WithStateMember(list, None, Listed(n, stored[n]));
  }

  /** A reconcile does not touch the conditions of the searches it found. */
  lemma ConditionsKept(spec: Spec, s: State, s': State, i: Inputs, o: Outputs, n: string)
    requires ReconcileStep(spec, s, s', i, o) && n in s'.stored
    requires o.created.Some? ==> n != NameFor(spec.name, o.created.value)
    ensures n in s.stored && s'.stored[n].conditions == s.stored[n].conditions
  {
    var rest := if o.created.Some? then s'.stored - {NameFor(spec.name, o.created.value)} else s'.stored;
    assert n in rest;
  }

  lemma ForbidReconcile(spec: Spec, s: State, s': State, i: Inputs, o: Outputs, m: string, n: string)
    requires spec.policy == Forbid && ReconcileStep(spec, s, s', i, o) && IsFresh(i.list, s.stored)
    requires AtMostOneUnfinished(s.stored)
    requires m in s'.stored && n in s'.stored && Unfinished(s'.stored[m]) && Unfinished(s'.stored[n])
    ensures m == n
  {
    if o.created.Some? {
      CreatedIsDue(spec, i, s, s', o);
      var created := NameFor(spec.name, o.created.value);
      if m != created {
        ConditionsKept(spec, s, s', i, o, m);
        ActiveListComplete(i.list, s.stored, m);
      }
      if n != created {
        ConditionsKept(spec, s, s', i, o, n);
        ActiveListComplete(i.list, s.stored, n);
      }
    } else {
      ConditionsKept(spec, s, s', i, o, m);
      ConditionsKept(spec, s, s', i, o, n);
    }
  }

  lemma ForbidStep(spec: Spec, s: State, s': State)
    requires spec.policy == Forbid && Step(spec, s, s', true) && AtMostOneUnfinished(s.stored)
    ensures AtMostOneUnfinished(s'.stored)
  {
    forall m, n | m in s'.stored && n in s'.stored && Unfinished(s'.stored[m]) && Unfinished(s'.stored[n])
      ensures m == n
    {
      if OtherStep(s, s') {
        assert Evolves(s.stored[m], s'.stored[m]) && Evolves(s.stored[n], s'.stored[n]);
      } else {
        var i, o :| ReconcileStep(spec, s, s', i, o) && IsFresh(i.list, s.stored);
        ForbidReconcile(spec, s, s', i, o, m, n);
      }
    }
  }

  /** As long as the policy is Forbid and lists are fresh, there is never more than one unfinished search,
      whatever else is edited. */
  lemma {:induction false} ForbidKeepsOne(specs: seq<Spec>, run: seq<State>, k: nat)
    requires IsEditedRun(specs, run, true) && k < |run|
    requires forall j :: 0 <= j < k ==> specs[j].policy == Forbid
    ensures AtMostOneUnfinished(run[k].stored)
  {
    if k > 0 {
      ForbidKeepsOne(specs, run, k - 1);
      assert Step(specs[k - 1], run[k - 1], run[k - 1 + 1], true);
      ForbidStep(specs[k - 1], run[k - 1], run[k]);
    }
  }

  /** Under the Replace policy a reconcile with a fresh list that creates a search leaves it as the
      only unfinished search that is not marked for deletion. */
  lemma ReplaceLeavesOne(spec: Spec, s: State, s': State, i: Inputs, o: Outputs)
    requires spec.policy == Replace && ReconcileStep(spec, s, s', i, o) && IsFresh(i.list, s.stored)
    requires o.created.Some?
    ensures var created := NameFor(spec.name, o.created.value);
            && created in s'.stored && Unfinished(s'.stored[created]) && !s'.stored[created].deleting
            && forall n :: n in s'.stored && n != created && Unfinished(s'.stored[n]) ==> s'.stored[n].deleting
  {
    var created := NameFor(spec.name, o.created.value);
    forall n | n in s'.stored && n != created && Unfinished(s'.stored[n]) ensures s'.stored[n].deleting {
      assert n in s'.stored - {created};
      ActiveListComplete(i.list, s.stored, n);
    }
  }

  /** A reconcile marks no unfinished search for deletion, except under the Replace policy. */
  lemma ActiveSearchesAreKept(spec: Spec, s: State, s': State, i: Inputs, o: Outputs, n: string)
    requires ReconcileStep(spec, s, s', i, o) && IsFresh(i.list, s.stored)
    requires spec.policy != Replace && n in s.stored && Unfinished(s.stored[n])
    ensures n in s'.stored && s'.stored[n] == s.stored[n]
  {
    var failed, successful := WithState(i.list, Some(False)), WithState(i.list, Some(True));
    forall x | x in o.failedOut || x in o.successfulOut ensures x.name != n {
      if x in o.failedOut { PrunedIsListed(failed, spec.failedLimit, o.failedOut, x); }
      if x in o.successfulOut { PrunedIsListed(successful, spec.successfulLimit, o.successfulOut, x); }
      WithStateMember(i.list, Some(False), x);
      WithStateMember(i.list, Some(True), x);
    }
    assert n !in Names(o.failedOut) + Names(o.successfulOut);
    if o.created.Some? { CreatedIsDue(spec, i, s, s', o); }
  }
}
