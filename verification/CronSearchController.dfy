/** The CronSearch reconciler (internal/controller/cronsearch_controller.go). */
module CronSearchController {
  import opened Wrappers
  import opened CronSchedule
  import opened CronNaming
  import opened CronHistory

  datatype Policy = Allow | Forbid | Replace

  datatype Spec = Spec(
    name: string,
    schedule: Option<Schedule>,      // None: the schedule does not parse
    created: int,
    suspend: bool,
    policy: Policy,
    deadlineSeconds: Option<int>,
    failedLimit: Option<nat>,
    successfulLimit: Option<nat>
  )

  ghost predicate WellFormed(spec: Spec) {
    && (spec.schedule.Some? ==> IsSchedule(spec.schedule.value))
    && (spec.failedLimit.Some? ==> spec.failedLimit.value < INT32_LIMIT)
    && (spec.successfulLimit.Some? ==> spec.successfulLimit.value < INT32_LIMIT)
  }

  /** How the API server answers during one reconcile. */
  datatype Answers = Answers(statusOk: bool, createOk: bool, failedDeletes: set<string>)

  /** The two readings of the clock that matter. */
  datatype Clock = Clock(now: int, later: int)

  type Children = map<string, Child>

  function WindowOf(spec: Spec, list: seq<Listed>): Window {
    Window(MostRecent(list), spec.created, spec.deadlineSeconds)
  }

  predicate TooLate(spec: Spec, t: int, later: int) {
    spec.deadlineSeconds.Some? && t + spec.deadlineSeconds.value * NANOS < later
  }

  /** `t` is the run that is due: the last of at most 100 missed activations, and not too late. */
  ghost predicate Due(spec: Spec, list: seq<Listed>, clock: Clock, t: int) {
    && !spec.suspend && spec.schedule.Some?
    && var missed := Activations(spec.schedule.value, Earliest(WindowOf(spec, list), clock.now), clock.now);
       |missed| <= MAX_STARTS && IsGreatest(t, missed) && !TooLate(spec, t, clock.later)
  }

  function ActiveIn(list: seq<Listed>): seq<Listed> { WithState(list, None) }

  /** A search is created for `t` exactly under these conditions. */
  ghost predicate Creates(spec: Spec, list: seq<Listed>, clock: Clock, answers: Answers, stored: Children, t: int) {
    && answers.statusOk && answers.createOk
    && Due(spec, list, clock, t)
    && (spec.policy == Forbid ==> ActiveIn(list) == [])
    && (spec.policy == Replace ==> forall x :: x in ActiveIn(list) ==> x.name !in answers.failedDeletes)
    && NameFor(spec.name, t) !in stored
  }

  function NewChild(t: int): Child { Child(Format(t), [], None, false) }

  /** Stored searches are only ever marked for deletion, at most those in `names`. */
  ghost predicate OnlyMarks(before: Children, after: Children, names: set<string>) {
    && after.Keys == before.Keys
    && forall n :: n in before ==>
         after[n] == before[n] || (n in names && after[n] == before[n].(deleting := true))
  }

  /** Every stored search in `names` is marked for deletion. */
  ghost predicate Marks(after: Children, names: set<string>) {
    forall n :: n in names && n in after ==> after[n].deleting
  }

  ghost function Names(list: seq<Listed>): set<string> { set x | x in list :: x.name }

  /** The searches that the Replace policy may ask to go: the active ones, once a run is due. */
  ghost function Replaceable(spec: Spec, list: seq<Listed>, clock: Clock, answers: Answers): set<string> {
    if spec.policy == Replace && answers.statusOk && exists t :: Due(spec, list, clock, t)
    then Names(ActiveIn(list)) else {}
  }

  /** The effect of one reconcile that worked with the given list of children. */
  ghost predicate Reconciled(spec: Spec, list: seq<Listed>, clock: Clock, answers: Answers,
                             before: Children, after: Children, created: Option<int>,
                             failedOut: seq<Listed>, successfulOut: seq<Listed>)
  {
    && (forall t :: created == Some(t) <==> Creates(spec, list, clock, answers, before, t))
    && (answers.statusOk ==> Prunes(WithState(list, Some(False)), spec.failedLimit, failedOut))
    && (answers.statusOk ==> Prunes(WithState(list, Some(True)), spec.successfulLimit, successfulOut))
    && (!answers.statusOk ==> failedOut == [] && successfulOut == [])
    && var rest := if created.Some? then after - {NameFor(spec.name, created.value)} else after;
       var pruned := Names(failedOut) + Names(successfulOut);
       && OnlyMarks(before, rest, pruned + Replaceable(spec, list, clock, answers))
       && Marks(rest, pruned - answers.failedDeletes)
       && (created.Some? ==>
             && NameFor(spec.name, created.value) in after
             && after[NameFor(spec.name, created.value)] == NewChild(created.value)
             && (spec.policy == Replace ==> Marks(rest, Names(ActiveIn(list)))))
  }

  class Cluster {
    var stored: Children

    /** A delete request; asking for a search that is gone is not an error. */
    method Delete(name: string, failedDeletes: set<string>) returns (ok: bool)
      modifies this
      ensures ok <==> name !in failedDeletes
      ensures stored == if ok && name in old(stored)
        then old(stored)[name := old(stored)[name].(deleting := true)] else old(stored)
    {
      ok := name !in failedDeletes;
      if ok && name in stored {
        stored := stored[name := stored[name].(deleting := true)];
      }
    }

    /** The history loops: errors are logged and the loop goes on. */
    method DeleteAll(requests: seq<Listed>, failedDeletes: set<string>)
      modifies this
      ensures OnlyMarks(old(stored), stored, Names(requests))
      ensures Marks(stored, Names(requests) - failedDeletes)
    {
      for i := 0 to |requests|
        invariant OnlyMarks(old(stored), stored, Names(requests))
        invariant forall j :: 0 <= j < i && requests[j].name !in failedDeletes && requests[j].name in stored ==>
          stored[requests[j].name].deleting
      {
        assert requests[i] in requests;
        var _ := Delete(requests[i].name, failedDeletes);
      }
      forall n | n in Names(requests) - failedDeletes && n in stored ensures stored[n].deleting {
        var x :| x in requests && x.name == n;
        var j :| 0 <= j < |requests| && requests[j] == x;
      }
    }

    /** The loop of the Replace policy: the first error ends the reconcile. */
    method DeleteActive(active: seq<Listed>, failedDeletes: set<string>) returns (ok: bool)
      modifies this
      ensures ok <==> forall x :: x in active ==> x.name !in failedDeletes
      ensures OnlyMarks(old(stored), stored, Names(active))
      ensures ok ==> Marks(stored, Names(active))
    {
      for i := 0 to |active|
        invariant OnlyMarks(old(stored), stored, Names(active))
        invariant forall j :: 0 <= j < i ==> active[j].name !in failedDeletes
        invariant forall j :: 0 <= j < i && active[j].name in stored ==> stored[active[j].name].deleting
      {
        assert active[i] in active;
        var deleted := Delete(active[i].name, failedDeletes);
        if !deleted {
          return false;
        }
      }
      forall n | n in Names(active) && n in stored ensures stored[n].deleting {
        var x :| x in active && x.name == n;
        var j :| 0 <= j < |active| && active[j] == x;
      }
      return true;
    }

    /** Sorting one history list and deleting its excess. */
    method PruneHistory(list: seq<Listed>, limit: Option<nat>, failedDeletes: set<string>)
      returns (requests: seq<Listed>)
      requires |list| < INT32_LIMIT && (limit.Some? ==> limit.value < INT32_LIMIT)
      modifies this
      ensures Prunes(list, limit, requests)
      ensures |requests| == if limit.Some? && |list| > limit.value then |list| - limit.value else 0
      ensures DropsOldest(list, limit, requests)
      ensures OnlyMarks(old(stored), stored, Names(requests))
      ensures Marks(stored, Names(requests) - failedDeletes)
    {
      requests := [];
      if limit.Some? {
        var sorted := SortSlice(list);
        SameSize(sorted, list);
        requests := Prune(sorted, limit.value);
        DeleteAll(requests, failedDeletes);
      }
      PrunesDropsOldest(list, limit, requests);
    }

    /** Both history lists. */
    method PruneHistories(spec: Spec, failed: seq<Listed>, successful: seq<Listed>, failedDeletes: set<string>)
      returns (failedOut: seq<Listed>, successfulOut: seq<Listed>)
      requires WellFormed(spec) && |failed| < INT32_LIMIT && |successful| < INT32_LIMIT
      modifies this
      ensures Prunes(failed, spec.failedLimit, failedOut) && Prunes(successful, spec.successfulLimit, successfulOut)
      ensures DropsOldest(failed, spec.failedLimit, failedOut)
      ensures DropsOldest(successful, spec.successfulLimit, successfulOut)
      ensures OnlyMarks(old(stored), stored, Names(failedOut) + Names(successfulOut))
      ensures Marks(stored, Names(failedOut) + Names(successfulOut) - failedDeletes)
    {
      failedOut := PruneHistory(failed, spec.failedLimit, failedDeletes);
      ghost var between := stored;
      successfulOut := PruneHistory(successful, spec.successfulLimit, failedDeletes);
      MarksCompose(old(stored), between, stored, Names(failedOut), Names(successfulOut), failedDeletes);
    }

    /** The concurrency policy and the creation of the search for a run that is due. */
    method StartRun(spec: Spec, active: seq<Listed>, run: int, answers: Answers) returns (created: bool)
      modifies this
      ensures created <==> MayStart(spec, active, run, answers, old(stored))
      ensures !created ==> OnlyMarks(old(stored), stored, Replaced(spec, active))
      ensures created ==>
        && stored == (stored - {NameFor(spec.name, run)})[NameFor(spec.name, run) := NewChild(run)]
        && OnlyMarks(old(stored), stored - {NameFor(spec.name, run)}, Replaced(spec, active))
        && Marks(stored - {NameFor(spec.name, run)}, Replaced(spec, active))
    {
      if spec.policy == Forbid && |active| > 0 {
        return false;
      }
      if spec.policy == Replace {
        var ok := DeleteActive(active, answers.failedDeletes);
        if !ok {
          return false;
        }
      }
      ghost var survivors := stored;
      var name := NameFor(spec.name, run);
      if name in stored || !answers.createOk {
        return false;
      }
      stored := stored[name := NewChild(run)];
      assert stored - {name} == survivors;
      return true;
    }

    /** One reconcile, given the list of children it read. */
    method Reconcile(spec: Spec, list: seq<Listed>, clock: Clock, answers: Answers)
      returns (created: Option<int>, failedOut: seq<Listed>, successfulOut: seq<Listed>)
      requires WellFormed(spec) && |list| < INT32_LIMIT
      modifies this
      ensures Reconciled(spec, list, clock, answers, old(stored), stored, created, failedOut, successfulOut)
      ensures answers.statusOk ==>
        && DropsOldest(WithState(list, Some(False)), spec.failedLimit, failedOut)
        && DropsOldest(WithState(list, Some(True)), spec.successfulLimit, successfulOut)
      ensures created.Some? ==>
        var name := NameFor(spec.name, created.value);
        name !in old(stored) && name in stored && stored[name] == Child(Format(created.value), [], None, false)
    {
      created, failedOut, successfulOut := None, [], [];
      var active, failed, successful, mostRecent := FindExistingSearches(list);
      WithStateSize(list, Some(False));
      WithStateSize(list, Some(True));
      if !answers.statusOk {
        NothingReconciled(spec, list, clock, answers, stored);
        return;
      }
      failedOut, successfulOut := PruneHistories(spec, failed, successful, answers.failedDeletes);
      ghost var pruned := stored;
      var run := DueRun(spec, mostRecent, clock, list);
      if run.Some? {
        var started := StartRun(spec, active, run.value, answers);
        if started {
          created := run;
        }
      }
      PhasesReconcile(spec, list, clock, answers, old(stored), pruned, stored, run, created, failedOut, successfulOut);
    }
  }

  /** The searches the concurrency policy wants gone before a new one starts. */
  ghost function Replaced(spec: Spec, active: seq<Listed>): set<string> {
    if spec.policy == Replace then Names(active) else {}
  }

  ghost predicate MayStart(spec: Spec, active: seq<Listed>, run: int, answers: Answers, stored: Children) {
    && answers.createOk
    && (spec.policy == Forbid ==> active == [])
    && (spec.policy == Replace ==> forall x :: x in active ==> x.name !in answers.failedDeletes)
    && NameFor(spec.name, run) !in stored
  }

  lemma NothingReconciled(spec: Spec, list: seq<Listed>, clock: Clock, answers: Answers, stored: Children)
    requires !answers.statusOk
    ensures Reconciled(spec, list, clock, answers, stored, stored, None, [], [])
  {
  }

  /** Putting the phases of a reconcile together. */
  lemma PhasesReconcile(spec: Spec, list: seq<Listed>, clock: Clock, answers: Answers,
                        before: Children, pruned: Children, after: Children, run: Option<int>, created: Option<int>,
                        failedOut: seq<Listed>, successfulOut: seq<Listed>)
    requires answers.statusOk && forall t :: run == Some(t) <==> Due(spec, list, clock, t)
    requires Prunes(WithState(list, Some(False)), spec.failedLimit, failedOut)
    requires Prunes(WithState(list, Some(True)), spec.successfulLimit, successfulOut)
    requires OnlyMarks(before, pruned, Names(failedOut) + Names(successfulOut))
    requires Marks(pruned, Names(failedOut) + Names(successfulOut) - answers.failedDeletes)
    requires run.None? ==> created.None? && after == pruned
    requires run.Some? ==> created == if MayStart(spec, ActiveIn(list), run.value, answers, pruned) then run else None
    requires run.Some? && created.None? ==> OnlyMarks(pruned, after, Replaced(spec, ActiveIn(list)))
    requires created.Some? ==>
      var name := NameFor(spec.name, created.value);
      && after == (after - {name})[name := NewChild(created.value)]
      && OnlyMarks(pruned, after - {name}, Replaced(spec, ActiveIn(list)))
      && Marks(after - {name}, Replaced(spec, ActiveIn(list)))
    ensures Reconciled(spec, list, clock, answers, before, after, created, failedOut, successfulOut)
  {
    var names := Names(failedOut) + Names(successfulOut);
    var rest := if created.Some? then after - {NameFor(spec.name, created.value)} else after;
    var replaced := if run.Some? then Replaced(spec, ActiveIn(list)) else {};
    assert run.Some? ==> Due(spec, list, clock, run.value);
    MarksThenMarks(before, pruned, rest, names, replaced, answers.failedDeletes);
    assert names + replaced == names + Replaceable(spec, list, clock, answers);
    forall t ensures created == Some(t) <==> Creates(spec, list, clock, answers, before, t) {
      assert pruned.Keys == before.Keys;
    }
  }

  lemma {:induction false} WithStateSize(list: seq<Listed>, s: Option<ConditionStatus>)
    ensures |WithState(list, s)| <= |list|
  {
    if list != [] {
      WithStateSize(list[..|list| - 1], s);
    }
  }

  lemma MarksCompose(a: Children, b: Children, c: Children, m: set<string>, n: set<string>, failedDeletes: set<string>)
    requires OnlyMarks(a, b, m) && Marks(b, m - failedDeletes)
    requires OnlyMarks(b, c, n) && Marks(c, n - failedDeletes)
    ensures OnlyMarks(a, c, m + n) && Marks(c, (m + n) - failedDeletes)
  {
  }

  lemma MarksThenMarks(a: Children, b: Children, c: Children, m: set<string>, n: set<string>,
    failedDeletes: set<string>)
    requires OnlyMarks(a, b, m) && Marks(b, m - failedDeletes) && OnlyMarks(b, c, n)
    ensures OnlyMarks(a, c, m + n) && Marks(c, m - failedDeletes)
  {
  }

  /** The condition for a creation, spelled out: when the CronSearch is not suspended, the schedule parses and
      at most 100 activations were missed since the latest of the last run (or the creation of the
      CronSearch) and the deadline, the last of them is created, unless it is too late by now, the policy
      forbids it or its name is taken. */
  lemma CreatesIff(spec: Spec, list: seq<Listed>, clock: Clock, answers: Answers, stored: Children, t: int)
    ensures Creates(spec, list, clock, answers, stored, t) <==>
      && answers.statusOk && answers.createOk && !spec.suspend && spec.schedule.Some?
      && (var next, d := spec.schedule.value, spec.deadlineSeconds;
          var base := match MostRecent(list) case Some(last) => last case None => spec.created;
          var from := if d.Some? && clock.now - d.value * 1_000_000_000 > base
            then clock.now - d.value * 1_000_000_000 else base;
          var missed := set a | from < a <= clock.now && IsActivation(next, a);
          && |missed| <= 100 && t in missed && (forall a :: a in missed ==> a <= t)
          && (d.Some? ==> clock.later <= t + d.value * 1_000_000_000))
      && (spec.policy == Forbid ==> forall x :: x in list ==> !NotEnded(x.child))
      && (spec.policy == Replace ==>
           forall x :: x in list && NotEnded(x.child) ==> x.name !in answers.failedDeletes)
      && NameFor(spec.name, t) !in stored
  {
    ActiveIs(list);
    if spec.schedule.Some? { MissedIs(spec, list, clock.now); }
  }

  lemma ActiveIs(list: seq<Listed>)
    ensures forall x :: x in ActiveIn(list) <==> x in list && NotEnded(x.child)
    ensures ActiveIn(list) == [] <==> forall x :: x in list ==> !NotEnded(x.child)
  {
    Categories(list);
    if ActiveIn(list) != [] { assert ActiveIn(list)[0] in ActiveIn(list); }
  }

  lemma MissedIs(spec: Spec, list: seq<Listed>, now: int)
    requires spec.schedule.Some?
    ensures
      var next, d := spec.schedule.value, spec.deadlineSeconds;
      var base := match MostRecent(list) case Some(last) => last case None => spec.created;
      var from := if d.Some? && now - d.value * 1_000_000_000 > base then now - d.value * 1_000_000_000 else base;
      Activations(next, Earliest(WindowOf(spec, list), now), now) == set a | from < a <= now && IsActivation(next, a)
  {
  }

  /** The part of Reconcile between pruning and the concurrency policy: the run that is due. */
  method DueRun(spec: Spec, mostRecent: Option<int>, clock: Clock, ghost list: seq<Listed>) returns (run: Option<int>)
    requires WellFormed(spec) && mostRecent == MostRecent(list)
    ensures forall t :: run == Some(t) <==> Due(spec, list, clock, t)
  {
    if spec.suspend {
      return None;
    }
    var r, _ := GetNextSchedule(spec.schedule, Window(mostRecent, spec.created, spec.deadlineSeconds), clock.now);
    match r {
      case Err(_) => return None;
      case Ok(timing) =>
        if timing.missed == None {
          return None;
        }
        var t := timing.missed.value;
        var tooLate := false;
        if spec.deadlineSeconds != None {
          tooLate := t + spec.deadlineSeconds.value * NANOS < clock.later;
        }
        if tooLate {
          return None;
        }
        return Some(t);
    }
  }
}
