/**
 Which activation of a schedule a CronSearch has missed: `getNextSchedule`
 (internal/controller/cronsearch_controller.go).

 Instants are integers counting nanoseconds. The cron library is represented by its `Next`
 function: activations are an unbounded set of whole-second instants and `Next(t)` is the
 least one after `t`.
 */
module CronSchedule {
  import opened Wrappers

  const NANOS: int := 1_000_000_000

  type Schedule = int -> int

  /** `next(t)` is a whole second after `t`. */
  predicate Later(next: Schedule, t: int) { t < next(t) && next(t) % NANOS == 0 }

  /** `next` does not change between `t` and `next(t)`. */
  predicate Steady(next: Schedule, t: int, u: int) { t <= u < next(t) ==> next(u) == next(t) }

  ghost predicate IsSchedule(next: Schedule) {
    && (forall t :: Later(next, t))
    && (forall t, u :: Steady(next, t, u))
  }

  predicate IsActivation(next: Schedule, t: int) { next(t - 1) == t }

  /** The characterisation the cron library documents: the least activation after `t`. */
  lemma NextIsLeast(next: Schedule, t: int)
    requires IsSchedule(next)
    ensures t < next(t) && IsActivation(next, next(t))
    ensures forall a :: t < a < next(t) ==> !IsActivation(next, a)
  {
    assert Later(next, t) && Steady(next, t, next(t) - 1);
    forall a | t < a < next(t) ensures !IsActivation(next, a) {
      assert Steady(next, t, a - 1);
    }
  }

  /** The activations in (from, to]. */
  function Activations(next: Schedule, from: int, to: int): set<int> {
    set a | from < a <= to && IsActivation(next, a)
  }

  ghost predicate IsGreatest(a: int, s: set<int>) { a in s && forall b :: b in s ==> b <= a }

  datatype Timing = Timing(missed: Option<int>, next: int)

  datatype ScheduleError = Unparseable | TooManyMissed

  /** What decides the earliest time that is still considered. */
  datatype Window = Window(lastScheduled: Option<int>, created: int, deadlineSeconds: Option<int>)

  function Unclamped(w: Window): int {
    match w.lastScheduled
    case Some(t) => t
    case None => w.created
  }

  function Deadline(seconds: int, now: int): int { now - seconds * NANOS }

  function Earliest(w: Window, now: int): int {
    match w.deadlineSeconds
    case None => Unclamped(w)
    case Some(d) => if Deadline(d, now) > Unclamped(w) then Deadline(d, now) else Unclamped(w)
  }

  const MAX_STARTS: nat := 100

  /** The documented outcome, in terms of the set of activations. */
  ghost predicate MeetsSpec(next: Schedule, earliest: int, now: int, r: Result<Timing, ScheduleError>) {
    var missed := Activations(next, earliest, now);
    if |missed| > MAX_STARTS then r == Err(TooManyMissed)
    else
      && r.Ok? && r.value.next == next(now)
      && (r.value.missed.None? <==> missed == {})
      && (r.value.missed.Some? ==> IsGreatest(r.value.missed.value, missed))
  }

  /** The next activation is the only one up to itself. */
  lemma OneMore(next: Schedule, from: int, t: int)
    requires IsSchedule(next) && from <= t
    ensures Activations(next, from, next(t)) == Activations(next, from, t) + {next(t)}
    ensures next(t) !in Activations(next, from, t)
  {
    NextIsLeast(next, t);
    forall a ensures a in Activations(next, from, next(t)) <==> a in Activations(next, from, t) + {next(t)} {
      assert t < a < next(t) ==> !IsActivation(next, a);
    }
  }

  lemma NoneBefore(next: Schedule, t: int, to: int)
    requires IsSchedule(next) && t <= to < next(t)
    ensures Activations(next, t, to) == {}
  {
    NextIsLeast(next, t);
    assert forall a :: t < a <= to ==> !IsActivation(next, a);
  }

  lemma ActivationsMonotone(next: Schedule, from: int, mid: int, to: int)
    requires from <= mid <= to
    ensures |Activations(next, from, mid)| <= |Activations(next, from, to)|
    ensures |Activations(next, mid, to)| <= |Activations(next, from, to)|
  {
    SubsetSize(Activations(next, from, mid), Activations(next, from, to));
    SubsetSize(Activations(next, mid, to), Activations(next, from, to));
  }

  lemma SubsetSize(a: set<int>, b: set<int>)
    requires a <= b
    ensures |a| <= |b|
  {
    assert b == a + (b - a);
  }

  lemma NoneAfter(next: Schedule, earliest: int, seen: int, now: int)
    requires IsSchedule(next) && earliest <= seen <= now < next(seen)
    ensures Activations(next, earliest, now) == Activations(next, earliest, seen)
  {
    NoneBefore(next, seen, now);
    forall a ensures a in Activations(next, earliest, now) <==> a in Activations(next, earliest, seen) {
      assert a !in Activations(next, seen, now);
    }
  }

  /** The bounded loop. It runs its body at most 101 times for any window and any clock. */
  method GetNextSchedule(schedule: Option<Schedule>, w: Window, now: int)
    returns (r: Result<Timing, ScheduleError>, rounds: nat)
    requires schedule.Some? ==> IsSchedule(schedule.value)
    ensures schedule.None? ==> r == Err(Unparseable)
    ensures schedule.Some? ==> MeetsSpec(schedule.value, Earliest(w, now), now, r)
    ensures rounds <= MAX_STARTS + 1
  {
    rounds := 0;
    if schedule == None {
      return Err(Unparseable), 0;
    }
    var next := schedule.value;
    var earliestTime := w.created;
    if w.lastScheduled.Some? {
      earliestTime := w.lastScheduled.value;
    }
    if w.deadlineSeconds.Some? {
      var schedulingDeadline := now - NANOS * w.deadlineSeconds.value;
      if schedulingDeadline > earliestTime {
        earliestTime := schedulingDeadline;
      }
    }
    assert earliestTime == Earliest(w, now);
    if earliestTime > now {
      assert Activations(next, earliestTime, now) == {};
      return Ok(Timing(None, next(now))), 0;
    }
    var lastMissed := None;
    var starts := 0;
    var t := next(earliestTime);
    ghost var seen := earliestTime;  // activations up to here have been visited
    while t <= now
      invariant earliestTime <= seen <= now && t == next(seen)
      invariant starts == rounds == |Activations(next, earliestTime, seen)| <= MAX_STARTS
      invariant lastMissed.None? <==> Activations(next, earliestTime, seen) == {}
      invariant lastMissed.Some? ==> IsGreatest(lastMissed.value, Activations(next, earliestTime, seen))
      decreases now - seen
    {
      OneMore(next, earliestTime, seen);
      lastMissed := Some(t);
      starts := starts + 1;
      rounds := rounds + 1;
      if starts > MAX_STARTS {
        ActivationsMonotone(next, earliestTime, t, now);
        return Err(TooManyMissed), rounds;
      }
      seen := t;
      t := next(t);
    }
    NoneAfter(next, earliestTime, seen, now);
    r := Ok(Timing(lastMissed, next(now)));
  }

  /** The specification spelled out: the activations after the last run, or the creation, and after the
      deadline are missed; with more than 100 of them it fails, and otherwise the last of them is given. */
  lemma MeetsSpecIff(next: Schedule, w: Window, now: int, r: Result<Timing, ScheduleError>)
    ensures
      var base := if w.lastScheduled.Some? then w.lastScheduled.value else w.created;
      var from := if w.deadlineSeconds.Some? && now - w.deadlineSeconds.value * 1_000_000_000 > base
        then now - w.deadlineSeconds.value * 1_000_000_000 else base;
      var missed := set a | from < a <= now && IsActivation(next, a);
      MeetsSpec(next, Earliest(w, now), now, r) <==>
        if |missed| > 100 then r == Err(TooManyMissed)
        else
          && r.Ok? && r.value.next == next(now) && (r.value.missed.None? <==> missed == {})
          && (r.value.missed.Some? ==>
               r.value.missed.value in missed && forall a :: a in missed ==> a <= r.value.missed.value)
  {
  }

  /** The specification determines the outcome, so the loop computes a function of its inputs. */
  lemma SpecIsUnique(next: Schedule, earliest: int, now: int, r: Result<Timing, ScheduleError>,
    q: Result<Timing, ScheduleError>)
    requires MeetsSpec(next, earliest, now, r) && MeetsSpec(next, earliest, now, q)
    ensures r == q
  {
  }

  /** The deadline is an exact filter. When the window without deadline gives a result, the window
      with deadline `d` gives the same next activation, and the same missed run if that run is later
      than now - d and none otherwise. */
  lemma DeadlineFilters(next: Schedule, w: Window, d: int, now: int,
                        free: Result<Timing, ScheduleError>, clamped: Result<Timing, ScheduleError>)
    requires IsSchedule(next) && w.deadlineSeconds.None?
    requires MeetsSpec(next, Earliest(w, now), now, free) && free.Ok?
    requires MeetsSpec(next, Earliest(w.(deadlineSeconds := Some(d)), now), now, clamped)
    ensures clamped == Ok(Timing(
      if free.value.missed.Some? && free.value.missed.value > Deadline(d, now) then free.value.missed else None,
      free.value.next))
  {
    var e, ec := Earliest(w, now), Earliest(w.(deadlineSeconds := Some(d)), now);
    var all, late := Activations(next, e, now), Activations(next, ec, now);
    assert late <= all;
    SubsetSize(late, all);
    if free.value.missed.Some? {
      var m := free.value.missed.value;
      assert m in late <==> m > Deadline(d, now) || ec == e;
      if m > Deadline(d, now) {
        assert m in late;
      } else {
        forall a ensures a !in late { assert a in late ==> a in all; }
        assert late == {};
      }
    } else {
      assert late == {};
    }
  }

  /** With a deadline of `d` seconds the run found at `now` is too late at a second reading of the
      clock only if the clock has advanced in between. */
  lemma TooLateOnlyIfClockMoved(next: Schedule, w: Window, d: int, now: int, later: int,
    r: Result<Timing, ScheduleError>)
    requires IsSchedule(next) && w.deadlineSeconds == Some(d)
    requires MeetsSpec(next, Earliest(w, now), now, r) && r.Ok? && r.value.missed.Some?
    requires r.value.missed.value + d * NANOS < later
    ensures now < later
  {
    assert r.value.missed.value in Activations(next, Earliest(w, now), now);
  }
}
