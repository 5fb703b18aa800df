/**
 The sidecar's subcommands in the form of the source (cmd/sidecar/main.go): the mark files in the
 process directory, the polling loops of an uploader and the two wrappers. Module Barrier models
 what the wrappers of all containers do together; each turn of a polling loop is one of its checks.
 */
module Sidecar {
  import opened Wrappers
  import opened Subprocess
  import B = Barrier

  /** Looking for a mark can end in this way. */
  predicate Possible(marks: set<string>, name: string, poll: B.Poll) {
    poll != B.CheckError ==> (poll == B.Found <==> B.Exists(marks, name))
  }

  /** The checks of an uploader in the model are the ways in which IsScannerComplete can end. */
  lemma CheckIsPoll(c: B.Config, s: B.State, j: nat, k: nat, poll: B.Poll)
    requires B.Fits(c, s) && j < |s.uploaders| && s.uploaders[j].Awaiting?
    requires k in s.uploaders[j].pending && k < |c.uploaders[j].awaited|
    ensures B.Next(c, s, B.Check(j, k, poll)).Some? <==> Possible(s.marks, c.uploaders[j].awaited[k], poll)
  {
  }

  class ProcessDirectory {
    /** The names of the mark files. */
    var marks: set<string>

    /** How the look for a mark ends; `statOk` tells whether the file system answers. */
    method IsScannerComplete(scanner: string, statOk: bool) returns (poll: B.Poll)
      ensures poll == B.CheckError <==> !statOk
      ensures Possible(marks, scanner, poll)
    {
      if !statOk {
        return B.CheckError;
      }
      if scanner != "" && scanner !in marks {
        return B.Missing;
      }
      return B.Found;
    }

    /** Creates the mark; it exists even if writing the exit code into it fails. The path of the empty
        name is the directory itself, which cannot be created as a file. */
    method ScanCompleteHook(scanner: string, createOk: bool, writeOk: bool) returns (ok: bool)
      modifies this
      ensures ok <==> createOk && writeOk && scanner != ""
      ensures marks == old(marks) + (if createOk && scanner != "" then {scanner} else {})
    {
      if !createOk || scanner == "" {
        return false;
      }
      marks := marks + {scanner};
      ok := writeOk;
    }
  }

  /** The answer that ends the polling of one mark is the first one that is not Missing. */
  ghost predicate DecidedAt(polls: nat -> B.Poll, n: nat) {
    polls(n) != B.Missing && forall m: nat :: m < n ==> polls(m) == B.Missing
  }

  /** One goroutine: polls until the mark is there or the check fails. `polls` are the answers in order;
      some answer, at the latest number `latest`, is not Missing. */
  method AwaitScan(polls: nat -> B.Poll, ghost latest: nat) returns (failed: bool, sleeps: nat)
    requires polls(latest) != B.Missing
    ensures DecidedAt(polls, sleeps) && sleeps <= latest
    ensures failed <==> polls(sleeps) == B.CheckError
  {
    sleeps := 0;
    while true
      invariant sleeps <= latest && forall m: nat :: m < sleeps ==> polls(m) == B.Missing
      decreases latest - sleeps
    {
      var complete := polls(sleeps);
      if complete == B.CheckError {
        return true, sleeps;
      }
      if complete == B.Found {
        return false, sleeps;
      }
      sleeps := sleeps + 1;
    }
  }

  /** The whole group: it returns only after every goroutine has its answer, with an error exactly if one
      of the checks failed. Failed checks do not end the others, which never look at the context. */
  method AwaitScans(scanners: seq<string>, polls: seq<nat -> B.Poll>, ghost latest: seq<nat>)
    returns (failed: bool, sleeps: seq<nat>)
    requires |polls| == |scanners| == |latest|
    requires forall k :: 0 <= k < |scanners| ==> polls[k](latest[k]) != B.Missing
    ensures |sleeps| == |scanners|
    ensures forall k :: 0 <= k < |scanners| ==> DecidedAt(polls[k], sleeps[k])
    ensures failed <==> exists k :: 0 <= k < |scanners| && polls[k](sleeps[k]) == B.CheckError
  {
    failed, sleeps := false, [];
    for k := 0 to |scanners|
      invariant |sleeps| == k
      invariant forall i :: 0 <= i < k ==> DecidedAt(polls[i], sleeps[i])
      invariant failed <==> exists i :: 0 <= i < k && polls[i](sleeps[i]) == B.CheckError
    {
      var oneFailed, oneSleeps := AwaitScan(polls[k], latest[k]);
      ghost var before := sleeps;
      sleeps := sleeps + [oneSleeps];
      assert forall i :: 0 <= i < k ==> polls[i](sleeps[i]) == polls[i](before[i]);
      assert sleeps[k] == oneSleeps;
      failed := failed || oneFailed;
    }
  }

  /** The `scanner` subcommand. The mark is written on every path that has a user command, after the
      command has ended or failed to start; of the paths that end in this method, only that of an empty
      command line leaves no mark. A wrapper that is killed leaves none either, see Barrier.Kill. */
  method ScannerMain(dir: ProcessDirectory, name: string, userCmd: seq<string>, startOk: bool, wait: Wait,
                     createOk: bool, writeOk: bool)
    returns (exitCode: int, events: seq<Event>)
    modifies dir
    ensures dir.marks == old(dir.marks) + (if userCmd != [] && createOk && name != "" then {name} else {})
    ensures userCmd == [] ==> events == [] && exitCode == 1
    ensures userCmd != [] ==> events != [] && events[|events| - 1] == PostStop && PreStart !in events
    ensures userCmd != [] ==> (Ended in events || StartFailed in events)
    ensures userCmd != [] && startOk && !wait.Broken? ==>
      exitCode == (if wait.Signaled? then 128 + wait.signal else wait.code)
    ensures userCmd != [] && (!startOk || wait.Broken?) ==> exitCode == 1
  {
    var cmd := BuildUserCommand(userCmd);
    if cmd.Err? {
      return 1, [];
    }
    var code, failed, happened := HookCommand(false, true, startOk, wait);
    if PostStop in happened {
      var _ := dir.ScanCompleteHook(name, createOk, writeOk);
    }
    events := happened;
    exitCode := if failed then 1 else code;
  }

  /** What the `scanner` subcommand does to the process directory is what the scanner's steps of the model do
      to the marks: start or fail to start, end, and write the mark. */
  lemma ScannerRefines(c: B.Config, s: B.State, i: nat, startOk: bool, createOk: bool)
    requires B.Fits(c, s) && i < |c.scanners| && s.scanners[i].Booting? && c.scanners[i].hasCommand
    ensures B.Exec(c, s, ScannerSteps(i, startOk, createOk)) == Some(s.(
      scanners := s.scanners[i := if createOk then B.Marked else B.Unmarked],
      marks := s.marks + if createOk then {c.scanners[i].mark} else {}))
  {
    var s1 := s.(scanners := s.scanners[i := B.Running]);
    var s2 := s.(scanners := s.scanners[i := B.Ended]);
    var s3 := s.(scanners := s.scanners[i := if createOk then B.Marked else B.Unmarked],
                 marks := s.marks + if createOk then {c.scanners[i].mark} else {});
    assert s1.scanners[i := B.Ended] == s2.scanners;
    assert s2.scanners[i := s3.scanners[i]] == s3.scanners && s.marks + {} == s.marks;
    assert B.Next(c, s2, B.WriteMark(i, createOk)) == Some(s3);
    assert [B.WriteMark(i, createOk)][1..] == [];
    assert B.Exec(c, s2, [B.WriteMark(i, createOk)]) == Some(s3);
    if startOk {
      assert ScannerSteps(i, true, createOk)[1..] == [B.ScanEnds(i), B.WriteMark(i, createOk)];
      assert [B.ScanEnds(i), B.WriteMark(i, createOk)][1..] == [B.WriteMark(i, createOk)];
    } else {
      assert ScannerSteps(i, false, createOk)[1..] == [B.WriteMark(i, createOk)];
    }
  }

  function ScannerSteps(i: nat, startOk: bool, createOk: bool): seq<B.Step> {
    if startOk then [B.StartScan(i, true), B.ScanEnds(i), B.WriteMark(i, createOk)]
    else [B.StartScan(i, false), B.WriteMark(i, createOk)]
  }

  /** The `await-scanners` subcommand. Waiting comes before the user command, which is started whether or
      not waiting reported an error; without a user command nothing is awaited. */
  method UploaderMain(userCmd: seq<string>, startOk: bool, wait: Wait) returns (exitCode: int, events: seq<Event>)
    ensures userCmd == [] ==> events == [] && exitCode == 1
    ensures userCmd != [] ==> events != [] && events[0] == PreStart && (Started in events <==> startOk)
    ensures PostStop !in events
    ensures userCmd != [] && startOk && !wait.Broken? ==>
      exitCode == (if wait.Signaled? then 128 + wait.signal else wait.code)
    ensures userCmd != [] && (!startOk || wait.Broken?) ==> exitCode == 1
  {
    var cmd := BuildUserCommand(userCmd);
    if cmd.Err? {
      return 1, [];
    }
    var code, failed, happened := HookCommand(true, false, startOk, wait);
    events := happened;
    exitCode := if failed then 1 else code;
  }

  // ----- the waiting of an uploader in the model -----

  /** The answers that the goroutine for name `k` of uploader `j` gets in an interleaving. */
  function Looks(steps: seq<B.Step>, j: nat, k: nat): seq<B.Poll> {
    if steps == [] then []
    else if steps[0].Check? && steps[0].j == j && steps[0].k == k then [steps[0].poll] + Looks(steps[1..], j, k)
    else Looks(steps[1..], j, k)
  }

  predicate Waits(s: B.State, j: nat) { j < |s.uploaders| && s.uploaders[j].Awaiting? }

  /** The command of uploader `j` is not started. */
  ghost predicate NoUpload(steps: seq<B.Step>, j: nat) { B.StartUpload(j) !in steps }

  /** A goroutine that has ended looks no more. */
  lemma {:induction false} EndedLoop(c: B.Config, s: B.State, steps: seq<B.Step>, s': B.State, j: nat, k: nat)
    requires B.Fits(c, s) && B.Exec(c, s, steps) == Some(s') && NoUpload(steps, j)
    requires Waits(s, j) && k !in s.uploaders[j].pending
    ensures Looks(steps, j, k) == [] && Waits(s', j) && k !in s'.uploaders[j].pending
    ensures k in s'.uploaders[j].failed <==> k in s.uploaders[j].failed
    decreases |steps|
  {
    if steps != [] { EndedLoop(c, B.Next(c, s, steps[0]).value, steps[1..], s', j, k); }
  }

  /** In every interleaving with the scanners, the other goroutines and the other uploaders, a goroutine goes
      on as long as the marks are missing, ends at the first other answer, and fails exactly if that is an
      error. */
  lemma {:induction false} OneLoop(c: B.Config, s: B.State, steps: seq<B.Step>, s': B.State, j: nat, k: nat)
    requires B.Fits(c, s) && B.Exec(c, s, steps) == Some(s') && NoUpload(steps, j)
    requires Waits(s, j) && k in s.uploaders[j].pending && k !in s.uploaders[j].failed
    ensures Waits(s', j)
    ensures var looks := Looks(steps, j, k);
            && (forall m :: 0 <= m < |looks| - 1 ==> looks[m] == B.Missing)
            && (k in s'.uploaders[j].pending <==> looks == [] || looks[|looks| - 1] == B.Missing)
            && (k in s'.uploaders[j].failed <==> looks != [] && looks[|looks| - 1] == B.CheckError)
    decreases |steps|
  {
    if steps != [] {
      var s1 := B.Next(c, s, steps[0]).value;
      if k in s1.uploaders[j].pending { OneLoop(c, s1, steps[1..], s', j, k); }
      else { EndedLoop(c, s1, steps[1..], s', j, k); }
    }
  }

  /** The goroutine has got the first `n` of its answers. */
  ghost predicate IsPrefix(looks: seq<B.Poll>, polls: nat -> B.Poll) {
    forall m :: 0 <= m < |looks| ==> looks[m] == polls(m)
  }

  /** A goroutine that gets the answers `polls` ends after as many of them as AwaitScan says. */
  lemma LoopEnds(looks: seq<B.Poll>, polls: nat -> B.Poll, sleeps: nat)
    requires IsPrefix(looks, polls) && DecidedAt(polls, sleeps)
    requires forall m :: 0 <= m < |looks| - 1 ==> looks[m] == B.Missing
    ensures |looks| <= sleeps + 1
    ensures looks != [] && looks[|looks| - 1] != B.Missing <==> |looks| == sleeps + 1
  {
  }

  /** What AwaitScans computes from the answers is what every interleaving of the model does with them: a
      goroutine waits exactly until it has got all its answers, whatever happens in between; once all have
      ended, exactly those have failed whose last answer is an error, and the user command starts. */
  lemma AwaitScansRefines(c: B.Config, s: B.State, steps: seq<B.Step>, s': B.State, j: nat,
    polls: seq<nat -> B.Poll>, sleeps: seq<nat>)
    requires B.Fits(c, s) && B.Exec(c, s, steps) == Some(s') && NoUpload(steps, j) && |polls| == |sleeps|
    requires j < |s.uploaders| && s.uploaders[j] == B.Awaiting(B.Indices(|polls|), {})
    requires forall k :: 0 <= k < |polls| ==> DecidedAt(polls[k], sleeps[k]) && IsPrefix(Looks(steps, j, k), polls[k])
    ensures Waits(s', j) && s'.uploaders[j].pending ==
      set k: nat | k in B.Indices(|polls|) && |Looks(steps, j, k)| <= sleeps[k]
    ensures (forall k :: 0 <= k < |polls| ==> |Looks(steps, j, k)| == sleeps[k] + 1) ==>
      B.Next(c, s', B.StartUpload(j)) == Some(s'.(uploaders := s'.uploaders[j :=
        B.Uploading(set k: nat | k in B.Indices(|polls|) && polls[k](sleeps[k]) == B.CheckError)]))
  {
    UploaderWaits(c, s, steps, s', j);
    forall k: nat ensures Agrees(s', steps, j, polls, sleeps, k) {
      if k < |polls| {
        OneLoop(c, s, steps, s', j, k);
        LoopEnds(Looks(steps, j, k), polls[k], sleeps[k]);
      } else {
        EndedLoop(c, s, steps, s', j, k);
      }
    }
    AllLoopsEnded(c, s', steps, j, polls, sleeps);
  }

  /** The state of goroutine `k` is that of its loop. */
  ghost predicate Agrees(s: B.State, steps: seq<B.Step>, j: nat, polls: seq<nat -> B.Poll>, sleeps: seq<nat>, k: nat)
    requires |polls| == |sleeps| && Waits(s, j)
  {
    && (k in s.uploaders[j].pending <==> k < |polls| && |Looks(steps, j, k)| <= sleeps[k])
    && (k in s.uploaders[j].failed <==>
         k < |polls| && |Looks(steps, j, k)| == sleeps[k] + 1 && polls[k](sleeps[k]) == B.CheckError)
  }

  lemma AllLoopsEnded(c: B.Config, s: B.State, steps: seq<B.Step>, j: nat, polls: seq<nat -> B.Poll>,
    sleeps: seq<nat>)
    requires B.Fits(c, s) && |polls| == |sleeps| && Waits(s, j)
    requires forall k: nat :: Agrees(s, steps, j, polls, sleeps, k)
    ensures s.uploaders[j].pending == set k: nat | k in B.Indices(|polls|) && |Looks(steps, j, k)| <= sleeps[k]
    ensures (forall k :: 0 <= k < |polls| ==> |Looks(steps, j, k)| == sleeps[k] + 1) ==>
      B.Next(c, s, B.StartUpload(j)) == Some(s.(uploaders := s.uploaders[j :=
        B.Uploading(set k: nat | k in B.Indices(|polls|) && polls[k](sleeps[k]) == B.CheckError)]))
  {
    var u := s.uploaders[j];
    forall k: nat
      ensures k in u.pending <==> k < |polls| && |Looks(steps, j, k)| <= sleeps[k]
    {
      assert Agrees(s, steps, j, polls, sleeps, k);
    }
    if forall k :: 0 <= k < |polls| ==> |Looks(steps, j, k)| == sleeps[k] + 1 {
      assert u.pending == {};
      forall k: nat ensures k in u.failed <==> k < |polls| && polls[k](sleeps[k]) == B.CheckError {
        assert Agrees(s, steps, j, polls, sleeps, k);
      }
      assert u.failed == set k: nat | k in B.Indices(|polls|) && polls[k](sleeps[k]) == B.CheckError;
    }
  }

  lemma {:induction false} UploaderWaits(c: B.Config, s: B.State, steps: seq<B.Step>, s': B.State, j: nat)
    requires B.Fits(c, s) && B.Exec(c, s, steps) == Some(s') && NoUpload(steps, j) && Waits(s, j)
    ensures Waits(s', j)
    decreases |steps|
  {
    if steps != [] { UploaderWaits(c, B.Next(c, s, steps[0]).value, steps[1..], s', j); }
  }
}
