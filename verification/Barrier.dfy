/**
 The barrier between scanners and uploaders (cmd/sidecar/main.go): scanner wrappers write mark
 files when their command has ended, uploader wrappers wait for the marks of all scanners before
 they start their own command. All containers of the pod run concurrently.
 */
module Barrier {
  import opened Wrappers
  import C = Containers
  import P = ScanPod
  import Words

  /** What a scanner wrapper knows: the name of its mark, and whether it got a command line. */
  datatype ScannerConfig = ScannerConfig(mark: string, hasCommand: bool)

  datatype UploaderConfig = UploaderConfig(awaited: seq<string>, hasCommand: bool)

  datatype Config = Config(scanners: seq<ScannerConfig>, uploaders: seq<UploaderConfig>)

  datatype Scanner =
    | Booting
    | Running
    | Ended        // the user command has ended or failed to start; the mark comes next
    | Marked
    | Unmarked     // exited without a mark

  /** An uploader polls one mark per awaited name; `failed` are the polls that ended with an error. */
  datatype Uploader =
    | Awaiting(pending: set<nat>, failed: set<nat>)
    | Uploading(failed: set<nat>)      // the user command has been started
    | Exited                           // no user command

  datatype State = State(scanners: seq<Scanner>, uploaders: seq<Uploader>, marks: set<string>)

  datatype Poll = Found | Missing | CheckError

  datatype Step =
    | StartScan(i: nat, ok: bool)
    | ScanEnds(i: nat)
    | WriteMark(i: nat, ok: bool)
    | Kill(i: nat)                     // the wrapper ends without a chance to write its mark
    | Check(j: nat, k: nat, poll: Poll)
    | StartUpload(j: nat)

  /** Whether a mark path exists; the path of the empty name is the process directory itself. */
  predicate Exists(marks: set<string>, name: string) { name == "" || name in marks }

  function Indices(n: nat): (r: set<nat>)
    ensures forall k: nat :: k in r <==> k < n
  {
    if n == 0 then {} else Indices(n - 1) + {n - 1}
  }

  function Start(c: Config): State {
    State(
      seq(|c.scanners|, _ => Booting),
      seq(|c.uploaders|, j requires 0 <= j < |c.uploaders| =>
        if c.uploaders[j].hasCommand then Awaiting(Indices(|c.uploaders[j].awaited|), {}) else Exited),
      {})
  }

  predicate Fits(c: Config, s: State) { |s.scanners| == |c.scanners| && |s.uploaders| == |c.uploaders| }

  function NextScanner(c: Config, s: State, step: Step): Option<State>
    requires Fits(c, s) && (step.StartScan? || step.ScanEnds? || step.WriteMark? || step.Kill?)
  {
    var i := step.i;
    if i >= |s.scanners| then None
    else
      match step
      case StartScan(_, ok) =>
        if !s.scanners[i].Booting? then None
        else if !c.scanners[i].hasCommand then Some(s.(scanners := s.scanners[i := Unmarked]))
        else Some(s.(scanners := s.scanners[i := if ok then Running else Ended]))
      case ScanEnds(_) =>
        if s.scanners[i].Running? then Some(s.(scanners := s.scanners[i := Ended])) else None
      case WriteMark(_, ok) =>
        if !s.scanners[i].Ended? then None
        else if ok then Some(s.(scanners := s.scanners[i := Marked], marks := s.marks + {c.scanners[i].mark}))
        else Some(s.(scanners := s.scanners[i := Unmarked]))
      case Kill(_) =>
        if s.scanners[i].Marked? || s.scanners[i].Unmarked? then None
        else Some(s.(scanners := s.scanners[i := Unmarked]))
  }

  function NextUploader(c: Config, s: State, step: Step): Option<State>
    requires Fits(c, s) && (step.Check? || step.StartUpload?)
  {
    var j := step.j;
    if j >= |s.uploaders| || !s.uploaders[j].Awaiting? then None
    else
      var u := s.uploaders[j];
      match step
      case Check(_, k, poll) =>
        if k !in u.pending || k >= |c.uploaders[j].awaited| then None
        else
          var there := Exists(s.marks, c.uploaders[j].awaited[k]);
          (match poll
           case Found => if there then Some(s.(uploaders := s.uploaders[j := u.(pending := u.pending - {k})])) else None
           case Missing => if there then None else Some(s)
           case CheckError => Some(s.(uploaders := s.uploaders[j := Awaiting(u.pending - {k}, u.failed + {k})])))
      case StartUpload(_) =>
        // the error group is empty; an error in it is logged and the command starts all the same
        if u.pending == {} then Some(s.(uploaders := s.uploaders[j := Uploading(u.failed)])) else None
  }

  function Next(c: Config, s: State, step: Step): (r: Option<State>)
    requires Fits(c, s)
    ensures r.Some? ==> Fits(c, r.value)
  {
    if step.Check? || step.StartUpload? then NextUploader(c, s, step) else NextScanner(c, s, step)
  }

  function Exec(c: Config, s: State, steps: seq<Step>): (r: Option<State>)
    requires Fits(c, s)
    ensures r.Some? ==> Fits(c, r.value)
    decreases |steps|
  {
    if steps == [] then Some(s)
    else match Next(c, s, steps[0])
      case Some(s') => Exec(c, s', steps[1..])
      case None => None
  }

  // ----- safety -----

  /** A mark exists only if a scanner of that name has written it. */
  ghost predicate MarksWritten(c: Config, s: State)
    requires Fits(c, s)
  {
    && (forall m :: m in s.marks ==>
      exists i :: 0 <= i < |s.scanners| && c.scanners[i].mark == m && s.scanners[i].Marked?)
    && (forall i :: 0 <= i < |s.scanners| && s.scanners[i].Marked? ==> c.scanners[i].mark in s.marks)
  }

  /** Awaited name `k` is no longer waited for: its mark was found, or its own poll failed. */
  ghost predicate Resolved(c: Config, s: State, j: nat, failed: set<nat>, k: nat)
    requires Fits(c, s) && j < |s.uploaders| && k < |c.uploaders[j].awaited|
  {
    k in failed || Exists(s.marks, c.uploaders[j].awaited[k])
  }

  ghost predicate UploaderInv(c: Config, s: State, j: nat)
    requires Fits(c, s) && j < |s.uploaders|
  {
    match s.uploaders[j]
    case Awaiting(pending, failed) =>
      && pending <= Indices(|c.uploaders[j].awaited|)
      && forall k: nat :: k < |c.uploaders[j].awaited| && k !in pending ==> Resolved(c, s, j, failed, k)
    case Uploading(failed) =>
      forall k: nat :: k < |c.uploaders[j].awaited| ==> Resolved(c, s, j, failed, k)
    case Exited => !c.uploaders[j].hasCommand
  }

  ghost predicate Inv(c: Config, s: State) {
    && Fits(c, s)
    && MarksWritten(c, s)
    && forall j: nat :: j < |s.uploaders| ==> UploaderInv(c, s, j)
  }

  lemma StartInv(c: Config)
    ensures Inv(c, Start(c))
  {
  }

  lemma MarksStep(c: Config, s: State, step: Step, s': State)
    requires Inv(c, s) && Next(c, s, step) == Some(s')
    ensures MarksWritten(c, s') && s.marks <= s'.marks
  {
    forall m | m in s'.marks
      ensures exists i :: 0 <= i < |s'.scanners| && c.scanners[i].mark == m && s'.scanners[i].Marked?
    {
      if m in s.marks {
        var i :| 0 <= i < |s.scanners| && c.scanners[i].mark == m && s.scanners[i].Marked?;
        assert s'.scanners[i].Marked?;
      } else {
        assert s'.scanners[step.i].Marked?;
      }
    }
  }

  lemma UploaderStep(c: Config, s: State, step: Step, s': State, j: nat)
    requires Inv(c, s) && Next(c, s, step) == Some(s') && s.marks <= s'.marks && j < |s'.uploaders|
    ensures UploaderInv(c, s', j)
  {
    assert UploaderInv(c, s, j);
    if s'.uploaders[j].Awaiting? || s'.uploaders[j].Uploading? {
      forall k: nat | k < |c.uploaders[j].awaited| && Resolved(c, s, j, s.uploaders[j].failed, k)
        ensures Resolved(c, s', j, s'.uploaders[j].failed, k)
      {
      }
    }
  }

  lemma InvStep(c: Config, s: State, step: Step, s': State)
    requires Inv(c, s) && Next(c, s, step) == Some(s')
    ensures Inv(c, s')
  {
    MarksStep(c, s, step, s');
    forall j: nat | j < |s'.uploaders| ensures UploaderInv(c, s', j) {
      UploaderStep(c, s, step, s', j);
    }
  }

  lemma {:induction false} InvExec(c: Config, s: State, steps: seq<Step>)
    requires Inv(c, s) && Exec(c, s, steps).Some?
    ensures Inv(c, Exec(c, s, steps).value)
    decreases |steps|
  {
    if steps != [] {
      var s' := Next(c, s, steps[0]).value;
      InvStep(c, s, steps[0], s');
      InvExec(c, s', steps[1..]);
    }
  }

  ghost predicate DistinctMarks(c: Config) {
    forall i, k :: 0 <= i < |c.scanners| && 0 <= k < |c.scanners| && c.scanners[i].mark == c.scanners[k].mark ==> i == k
  }

  /** In every interleaving: once an uploader's command has been started, every awaited scanner's
      command had ended or failed to start before, except for those scanners whose own existence
      check failed with an error. */
  lemma UploadersWait(c: Config, steps: seq<Step>, j: nat, k: nat, i: nat)
    requires DistinctMarks(c) && Exec(c, Start(c), steps).Some?
    requires j < |c.uploaders| && k < |c.uploaders[j].awaited| && i < |c.scanners|
    requires c.uploaders[j].awaited[k] == c.scanners[i].mark != ""
    requires var s := Exec(c, Start(c), steps).value; s.uploaders[j].Uploading? && k !in s.uploaders[j].failed
    ensures Exec(c, Start(c), steps).value.scanners[i].Marked?
  {
    StartInv(c);
    InvExec(c, Start(c), steps);
    var s := Exec(c, Start(c), steps).value;
    assert UploaderInv(c, s, j) && Resolved(c, s, j, s.uploaders[j].failed, k);
    var i' :| 0 <= i' < |s.scanners| && c.scanners[i'].mark == c.scanners[i].mark && s.scanners[i'].Marked?;
    assert i' == i;
  }

  // ----- progress -----

  function ScannerRank(x: Scanner): nat {
    match x case Booting => 3 case Running => 2 case Ended => 1 case _ => 0
  }

  function UploaderRank(u: Uploader): nat {
    match u case Awaiting(pending, _) => |pending| + 1 case _ => 0
  }

  function ScannersLeft(xs: seq<Scanner>): nat {
    if xs == [] then 0 else ScannerRank(xs[0]) + ScannersLeft(xs[1..])
  }

  function UploadersLeft(us: seq<Uploader>): nat {
    if us == [] then 0 else UploaderRank(us[0]) + UploadersLeft(us[1..])
  }

  function WorkLeft(s: State): nat { ScannersLeft(s.scanners) + UploadersLeft(s.uploaders) }

  lemma {:induction false} ScannersUpdate(xs: seq<Scanner>, i: nat, x: Scanner)
    requires i < |xs|
    ensures ScannersLeft(xs[i := x]) == ScannersLeft(xs) - ScannerRank(xs[i]) + ScannerRank(x)
  {
    if i == 0 {
      assert xs[0 := x][1..] == xs[1..];
    } else {
      ScannersUpdate(xs[1..], i - 1, x);
      assert xs[i := x][1..] == xs[1..][i - 1 := x];
    }
  }

  lemma {:induction false} UploadersUpdate(us: seq<Uploader>, i: nat, u: Uploader)
    requires i < |us|
    ensures UploadersLeft(us[i := u]) == UploadersLeft(us) - UploaderRank(us[i]) + UploaderRank(u)
  {
    if i == 0 {
      assert us[0 := u][1..] == us[1..];
    } else {
      UploadersUpdate(us[1..], i - 1, u);
      assert us[i := u][1..] == us[1..][i - 1 := u];
    }
  }

  predicate IsIdlePoll(step: Step) { step.Check? && step.poll == Missing }

  /** Every step but a poll that finds nothing brings the pod closer to the end. */
  lemma StepsMakeProgress(c: Config, s: State, step: Step, s': State)
    requires Fits(c, s) && Next(c, s, step) == Some(s')
    ensures IsIdlePoll(step) ==> s' == s
    ensures !IsIdlePoll(step) ==> WorkLeft(s') < WorkLeft(s)
  {
    if step.Check? {
      if step.poll != Missing {
        UploadersUpdate(s.uploaders, step.j, s'.uploaders[step.j]);
      }
    } else if step.StartUpload? {
      UploadersUpdate(s.uploaders, step.j, s'.uploaders[step.j]);
    } else {
      ScannersUpdate(s.scanners, step.i, s'.scanners[step.i]);
    }
  }

  /** Every uploader awaits marks of scanners of the pod. */
  ghost predicate AwaitsScanners(c: Config) {
    forall j, k :: 0 <= j < |c.uploaders| && 0 <= k < |c.uploaders[j].awaited| ==>
      exists i :: 0 <= i < |c.scanners| && c.scanners[i].mark == c.uploaders[j].awaited[k]
  }

  ghost predicate AllDone(s: State) {
    forall j :: 0 <= j < |s.uploaders| ==> !s.uploaders[j].Awaiting?
  }

  /** No wrapper is left without a mark. */
  ghost predicate NoneUnmarked(s: State) {
    forall i :: 0 <= i < |s.scanners| ==> !s.scanners[i].Unmarked?
  }

  /** What happens by itself: commands start and end, marks are written and found. Polling in vain,
      failing checks, failing writes and kills are not among these steps. */
  predicate Ordinary(step: Step) {
    match step
    case WriteMark(_, ok) => ok
    case Check(_, _, poll) => poll == Found
    case Kill(_) => false
    case _ => true
  }

  /** Nothing ordinary is left to happen. */
  ghost predicate Exhausted(c: Config, s: State)
    requires Fits(c, s)
  {
    forall step :: Ordinary(step) ==> Next(c, s, step).None?
  }

  /** An awaited name for which uploader `j` waits in vain: its check has not failed, and no scanner of that
      name has left a mark. */
  ghost predicate InVain(c: Config, s: State, j: nat, k: nat)
    requires Fits(c, s) && j < |s.uploaders| && k < |c.uploaders[j].awaited|
  {
    s.uploaders[j].Awaiting? && k in s.uploaders[j].pending && !Exists(s.marks, c.uploaders[j].awaited[k])
  }

  /** In an exhausted state every scanner has left a mark or has ended without one. */
  lemma ExhaustedScanners(c: Config, s: State, i: nat)
    requires Fits(c, s) && Exhausted(c, s) && i < |s.scanners|
    ensures s.scanners[i].Marked? || s.scanners[i].Unmarked?
  {
    var step := if s.scanners[i].Booting? then StartScan(i, true) else if s.scanners[i].Running? then ScanEnds(i)
      else WriteMark(i, true);
    assert Ordinary(step) ==> Next(c, s, step).None?;
  }

  /** In an exhausted state an uploader still waits if and only if it waits in vain for some name. */
  lemma ExhaustedUploader(c: Config, s: State, j: nat)
    requires Inv(c, s) && Exhausted(c, s) && j < |s.uploaders|
    ensures s.uploaders[j].Awaiting? <==> exists k: nat :: k < |c.uploaders[j].awaited| && InVain(c, s, j, k)
  {
    if s.uploaders[j].Awaiting? {
      assert UploaderInv(c, s, j);
      assert Next(c, s, StartUpload(j)).None?;
      var k :| k in s.uploaders[j].pending;
      assert k in Indices(|c.uploaders[j].awaited|);
      assert Next(c, s, Check(j, k, Found)).None?;
      assert InVain(c, s, j, k);
    }
  }

  /** Scanner `i` has ended without a mark, and uploader `j` awaits it without its check having failed. */
  ghost predicate Blocks(c: Config, s: State, i: nat, j: nat)
    requires Fits(c, s) && i < |s.scanners| && j < |s.uploaders|
  {
    s.scanners[i].Unmarked? && c.uploaders[j].hasCommand && exists k: nat :: LooksFor(c, s, i, j, k)
  }

  ghost predicate LooksFor(c: Config, s: State, i: nat, j: nat, k: nat)
    requires Fits(c, s) && i < |s.scanners| && j < |s.uploaders|
  {
    && k < |c.uploaders[j].awaited| && c.uploaders[j].awaited[k] == c.scanners[i].mark
    && !s.uploaders[j].Exited? && k !in s.uploaders[j].failed
  }

  ghost predicate NonEmptyMarks(c: Config) { forall i :: 0 <= i < |c.scanners| ==> c.scanners[i].mark != "" }

  /** An uploader that is blocked has not started its command. */
  lemma BlockedWaits(c: Config, s: State, i: nat, j: nat)
    requires Inv(c, s) && DistinctMarks(c) && NonEmptyMarks(c) && i < |s.scanners| && j < |s.uploaders|
        && Blocks(c, s, i, j)
    ensures s.uploaders[j].Awaiting?
  {
    var k: nat :| LooksFor(c, s, i, j, k);
    assert UploaderInv(c, s, j) && !Exists(s.marks, c.scanners[i].mark);
    assert s.uploaders[j].Uploading? ==> Resolved(c, s, j, s.uploaders[j].failed, k);
  }

  /** Who keeps a waiting uploader from going on. */
  lemma WhoBlocks(c: Config, s: State, j: nat) returns (i: nat)
    requires Inv(c, s) && AwaitsScanners(c) && Exhausted(c, s) && j < |s.uploaders| && s.uploaders[j].Awaiting?
    requires c.uploaders[j].hasCommand && s.uploaders[j].pending !! s.uploaders[j].failed
    ensures i < |s.scanners| && Blocks(c, s, i, j)
  {
    ExhaustedUploader(c, s, j);
    var k: nat :| k < |c.uploaders[j].awaited| && InVain(c, s, j, k);
    i :| 0 <= i < |c.scanners| && c.scanners[i].mark == c.uploaders[j].awaited[k];
    ExhaustedScanners(c, s, i);
    assert LooksFor(c, s, i, j, k);
  }

  /** Only uploaders with a command wait, and no name is both waited for and given up. */
  ghost predicate Tidy(c: Config, s: State) {
    Fits(c, s) && forall j :: 0 <= j < |s.uploaders| && s.uploaders[j].Awaiting? ==>
      c.uploaders[j].hasCommand && s.uploaders[j].pending !! s.uploaders[j].failed
  }

  lemma {:induction false} TidyExec(c: Config, s: State, steps: seq<Step>)
    requires Tidy(c, s) && Exec(c, s, steps).Some?
    ensures Tidy(c, Exec(c, s, steps).value)
    decreases |steps|
  {
    if steps != [] { TidyExec(c, Next(c, s, steps[0]).value, steps[1..]); }
  }

  /** An exhausted execution has released every uploader if and only if none of them awaits a scanner that
      has ended without a mark, unless its own check for that scanner has failed. */
  lemma BarrierOpensIff(c: Config, steps: seq<Step>)
    requires Exec(c, Start(c), steps).Some? && AwaitsScanners(c) && DistinctMarks(c) && NonEmptyMarks(c)
    requires Exhausted(c, Exec(c, Start(c), steps).value)
    ensures var s := Exec(c, Start(c), steps).value;
            AllDone(s) <==> forall i: nat, j: nat :: i < |s.scanners| && j < |s.uploaders| ==> !Blocks(c, s, i, j)
  {
    StartInv(c);
    InvExec(c, Start(c), steps);
    TidyExec(c, Start(c), steps);
    var s := Exec(c, Start(c), steps).value;
    forall j: nat | j < |s.uploaders|
      ensures s.uploaders[j].Awaiting? <==> exists i: nat :: i < |s.scanners| && Blocks(c, s, i, j)
    {
      if s.uploaders[j].Awaiting? {
        var i := WhoBlocks(c, s, j);
        assert Blocks(c, s, i, j);
      }
      if i: nat :| i < |s.scanners| && Blocks(c, s, i, j) {
        BlockedWaits(c, s, i, j);
      }
    }
  }

  /** A run in which the wrapper of a scanner is killed: nothing ordinary is left to happen, and the uploader
      still waits. */
  lemma KilledScannerBlocks(mark: string)
    requires mark != ""
    ensures var c := Config([ScannerConfig(mark, true)], [UploaderConfig([mark], true)]);
            && AwaitsScanners(c) && DistinctMarks(c) && NonEmptyMarks(c) && Exec(c, Start(c), [Kill(0)]).Some?
            && var s := Exec(c, Start(c), [Kill(0)]).value;
            Exhausted(c, s) && !AllDone(s) && Blocks(c, s, 0, 0)
  {
    var c := Config([ScannerConfig(mark, true)], [UploaderConfig([mark], true)]);
    assert |c.uploaders[0].awaited| == 1 && c.uploaders[0].awaited[0] == c.scanners[0].mark;
    assert Start(c).uploaders[0] == Awaiting(Indices(|c.uploaders[0].awaited|), {});
    assert Start(c).scanners == [Booting] && Start(c).uploaders == [Awaiting(Indices(1), {})];
    var s := State([Unmarked], [Awaiting(Indices(1), {})], {});
    assert Start(c).scanners[0 := Unmarked] == s.scanners;
    assert Next(c, Start(c), Kill(0)) == Some(s) && [Kill(0)][1..] == [];
    assert Exec(c, s, []) == Some(s);
    assert 0 in s.uploaders[0].pending && LooksFor(c, s, 0, 0, 0);
    forall step | Ordinary(step) ensures Next(c, s, step).None? {
    }
    assert s.uploaders[0].Awaiting?;
  }

  /** As long as an uploader waits and no scanner has exited without a mark, something ordinary can happen:
      the barrier never deadlocks. */
  lemma NoDeadlock(c: Config, s: State)
    requires Inv(c, s) && AwaitsScanners(c) && NoneUnmarked(s) && !AllDone(s)
    ensures !Exhausted(c, s)
  {
    if Exhausted(c, s) {
      var j: nat :| j < |s.uploaders| && s.uploaders[j].Awaiting?;
      ExhaustedUploader(c, s, j);
      var k: nat :| k < |c.uploaders[j].awaited| && InVain(c, s, j, k);
      var i: nat :| i < |c.scanners| && c.scanners[i].mark == c.uploaders[j].awaited[k];
      ExhaustedScanners(c, s, i);
    }
  }

  /** Marks can be written, and no wrapper is killed. */
  ghost predicate GoodSteps(steps: seq<Step>) {
    forall n :: 0 <= n < |steps| ==> !(steps[n].WriteMark? && !steps[n].ok) && !steps[n].Kill?
  }

  ghost predicate AllHaveCommands(c: Config) {
    forall i :: 0 <= i < |c.scanners| ==> c.scanners[i].hasCommand
  }

  lemma {:induction false} NobodyUnmarked(c: Config, s: State, steps: seq<Step>)
    requires Fits(c, s) && Exec(c, s, steps).Some? && AllHaveCommands(c) && GoodSteps(steps) && NoneUnmarked(s)
    ensures NoneUnmarked(Exec(c, s, steps).value)
    decreases |steps|
  {
    if steps != [] {
      var s' := Next(c, s, steps[0]).value;
      assert GoodSteps(steps[1..]) by {
        forall n | 0 <= n < |steps[1..]|
          ensures !(steps[1..][n].WriteMark? && !steps[1..][n].ok) && !steps[1..][n].Kill?
        {
          assert steps[1..][n] == steps[n + 1];
        }
      }
      assert NoneUnmarked(s') by {
        assert !(steps[0].WriteMark? && !steps[0].ok) && !steps[0].Kill?;
      }
      NobodyUnmarked(c, s', steps[1..]);
    }
  }

  /** If scanners have commands and end, marks can be written and no wrapper is killed, then the barrier
      opens: an execution in which nothing ordinary is left to do has released every uploader. */
  lemma BarrierOpens(c: Config, steps: seq<Step>)
    requires Exec(c, Start(c), steps).Some? && AllHaveCommands(c) && AwaitsScanners(c) && GoodSteps(steps)
    requires Exhausted(c, Exec(c, Start(c), steps).value)
    ensures AllDone(Exec(c, Start(c), steps).value)
  {
    var s := Exec(c, Start(c), steps).value;
    StartInv(c);
    InvExec(c, Start(c), steps);
    NobodyUnmarked(c, Start(c), steps);
    if !AllDone(s) {
      NoDeadlock(c, s);
    }
  }

  function CountProgress(steps: seq<Step>): nat {
    if steps == [] then 0 else (if IsIdlePoll(steps[0]) then 0 else 1) + CountProgress(steps[1..])
  }

  /** The number of progressing steps in any execution is bounded by the work at its start; everything
      else is polling. */
  lemma {:induction false} ProgressIsBounded(c: Config, s: State, steps: seq<Step>)
    requires Fits(c, s) && Exec(c, s, steps).Some?
    ensures CountProgress(steps) + WorkLeft(Exec(c, s, steps).value) <= WorkLeft(s)
    decreases |steps|
  {
    if steps != [] {
      var s' := Next(c, s, steps[0]).value;
      StepsMakeProgress(c, s, steps[0], s');
      ProgressIsBounded(c, s', steps[1..]);
    }
  }

  /** A scanner that exits without a mark blocks every uploader that awaits it for good: the check
      for its mark can only fail with an error. */
  lemma MissingMarkBlocks(c: Config, s: State, j: nat, k: nat, i: nat, step: Step)
    requires Inv(c, s) && DistinctMarks(c) && j < |c.uploaders| && k < |c.uploaders[j].awaited| && i < |c.scanners|
    requires c.uploaders[j].awaited[k] == c.scanners[i].mark != "" && s.scanners[i].Unmarked?
    requires s.uploaders[j].Awaiting? && k in s.uploaders[j].pending
    requires Next(c, s, step).Some? && step != Check(j, k, CheckError)
    ensures var s' := Next(c, s, step).value;
            s'.scanners[i].Unmarked? && s'.uploaders[j].Awaiting? && k in s'.uploaders[j].pending
  {
    assert c.scanners[i].mark !in s.marks;
  }

  // ----- the barrier of a built scan pod -----

  /** The configuration that the wrappers of a built pod read from their argument vectors and
      environments. */
  function ConfigOf(i: P.Input): Config {
    Config(
      seq(|i.scanners|, k requires 0 <= k < |i.scanners| =>
        var built := P.ScannerContainer(i, i.scanners[k]);
        ScannerConfig(C.Lookup(built.env, C.CONTAINER_NAME), P.ChildArgv(built) != [])),
      seq(|i.uploaders|, k requires 0 <= k < |i.uploaders| =>
        var built := P.UploaderContainer(i, i.uploaders[k]);
        UploaderConfig(Words.Split(C.Lookup(built.env, P.SCAN_CONTAINER_NAMES)), P.ChildArgv(built) != [])))
  }

  /** Names as Kubernetes demands them of the containers of a pod. */
  ghost predicate KubernetesNames(i: P.Input) {
    && (forall c :: c in i.scanners ==> P.IsDnsLabel(c.name))
    && (forall a, b :: 0 <= a < b < |i.scanners| ==> i.scanners[a].name != i.scanners[b].name)
    && P.AreParameters(i.scannerParameters)
  }

  ghost predicate ProperNames(i: P.Input) { i.scanners != [] && KubernetesNames(i) }

  lemma ConfigAwaitsScanners(i: P.Input)
    requires ProperNames(i)
    ensures DistinctMarks(ConfigOf(i)) && AwaitsScanners(ConfigOf(i))
    ensures forall k :: 0 <= k < |i.scanners| ==> ConfigOf(i).scanners[k].mark == P.ScannerNames(i)[k] != ""
    ensures forall j :: 0 <= j < |i.uploaders| ==> ConfigOf(i).uploaders[j].awaited == P.ScannerNames(i)
  {
    var c := ConfigOf(i);
    forall k: nat | k < |i.scanners| ensures c.scanners[k].mark == P.ScannerNames(i)[k] != "" {
      P.ScannerMeaningPreserved(i, k);
    }
    forall j: nat | j < |i.uploaders| ensures c.uploaders[j].awaited == P.ScannerNames(i) {
      P.UploaderMeaningPreserved(i, j);
    }
    forall a: nat, b: nat | a < |c.scanners| && b < |c.scanners| && c.scanners[a].mark == c.scanners[b].mark
      ensures a == b
    {
      if i.scanners[a].name != i.scanners[b].name { P.ScannerNamesDistinct(i, a, b); }
    }
    forall j, k | 0 <= j < |c.uploaders| && 0 <= k < |c.uploaders[j].awaited|
      ensures exists m :: 0 <= m < |c.scanners| && c.scanners[m].mark == c.uploaders[j].awaited[k]
    {
      assert c.scanners[k].mark == c.uploaders[j].awaited[k];
    }
  }

  /** In the pod that the pipeline controller builds, an uploader's command starts only after every
      scanner's command has ended or failed to start, provided none of its existence checks failed. */
  lemma PodUploadsAfterScans(i: P.Input, steps: seq<Step>, j: nat, k: nat)
    requires ProperNames(i) && Exec(ConfigOf(i), Start(ConfigOf(i)), steps).Some?
    requires j < |i.uploaders| && k < |i.scanners|
    requires Exec(ConfigOf(i), Start(ConfigOf(i)), steps).value.uploaders[j] == Uploading({})
    ensures Exec(ConfigOf(i), Start(ConfigOf(i)), steps).value.scanners[k].Marked?
  {
    ConfigAwaitsScanners(i);
    UploadersWait(ConfigOf(i), steps, j, k, k);
  }

  /** In an exhausted run of the built pod every uploader is released if and only if none awaits a scanner
      that ended without a mark. */
  lemma PodBarrierOpensIff(i: P.Input, steps: seq<Step>)
    requires ProperNames(i) && Exec(ConfigOf(i), Start(ConfigOf(i)), steps).Some?
    requires Exhausted(ConfigOf(i), Exec(ConfigOf(i), Start(ConfigOf(i)), steps).value)
    ensures var c := ConfigOf(i); var s := Exec(c, Start(c), steps).value;
            AllDone(s) <==> forall k: nat, j: nat :: k < |s.scanners| && j < |s.uploaders| ==> !Blocks(c, s, k, j)
  {
    ConfigAwaitsScanners(i);
    BarrierOpensIff(ConfigOf(i), steps);
  }

  /** If moreover every scanner of the profile has a command, as profile validation demands, and no wrapper
      is killed, then the barrier of the built pod opens. */
  lemma PodBarrierOpens(i: P.Input, steps: seq<Step>)
    requires ProperNames(i) && forall c :: c in i.scanners ==> c.command != []
    requires Exec(ConfigOf(i), Start(ConfigOf(i)), steps).Some? && GoodSteps(steps)
    requires Exhausted(ConfigOf(i), Exec(ConfigOf(i), Start(ConfigOf(i)), steps).value)
    ensures AllDone(Exec(ConfigOf(i), Start(ConfigOf(i)), steps).value)
  {
    ConfigAwaitsScanners(i);
    forall k: nat | k < |i.scanners| ensures ConfigOf(i).scanners[k].hasCommand {
      P.ScannerMeaningPreserved(i, k);
      assert i.scanners[k].command != [];
    }
    BarrierOpens(ConfigOf(i), steps);
  }
}
