/**
 Unfinished work below a search, a search or a pipeline: as long as the whole chain of searches down to
 it is stored and unfinished, nobody above it can be completed. The module says exactly which steps break
 a chain: the deletion of a search between a stored one and unfinished work, and the creation of a search
 or a pipeline below a chain that is broken already. The controller looks one level down only, so a broken
 chain can lead to a completed search above unfinished work (SearchTreeRuns.DeletedBetween).
 */
module SearchLineage {
  import opened Wrappers
  import opened Labels
  import opened SearchTree
  import opened SearchProtocol
  import opened SearchCompletion

  /** The search is stored and not completed. */
  predicate Open(n: Namespace, u: nat) { IsStored(n, u) && u !in n.finished }

  /** The search has scheduled a pipeline that is stored and not completed. */
  ghost predicate Busy(n: Namespace, u: nat) {
    exists p :: p in n.pipelines && n.pipelines[p].parent == Some(u) && !n.pipelines[p].completed
  }

  /** The search is unfinished, or one of its pipelines is, whether or not the search is still stored. */
  ghost predicate Work(n: Namespace, u: nat) { Open(n, u) || Busy(n, u) }

  /** A chain of recorded searches that begins with a stored one. */
  ghost predicate Chain(n: Namespace, path: seq<nat>) { Lineage(n, path) && IsStored(n, path[0]) }

  ghost predicate AllOpen(n: Namespace, path: seq<nat>) { forall i :: 0 <= i < |path| ==> Open(n, path[i]) }

  /** Every chain that ends with unfinished work is unfinished as a whole. */
  ghost predicate Protected(n: Namespace) {
    forall path :: Chain(n, path) && Work(n, path[|path| - 1]) ==> AllOpen(n, path)
  }

  /** The search stored as `s` lies between a stored search and unfinished work. */
  ghost predicate Between(n: Namespace, s: string) {
    s in n.searches && exists path, i :: Cuts(n, path, i, n.searches[s].uid)
  }

  ghost predicate Cuts(n: Namespace, path: seq<nat>, i: int, u: nat) {
    && 0 < i < |path| && path[i] == u && Chain(n, path)
    && (if i < |path| - 1 then Work(n, path[|path| - 1]) else Busy(n, u))
  }

  /** Above the search `u` there is a stored one, or itself, and not the whole chain is unfinished. */
  ghost predicate Broken(n: Namespace, u: nat) {
    exists path :: BrokenChain(n, path, u)
  }

  ghost predicate BrokenChain(n: Namespace, path: seq<nat>, u: nat) {
    Chain(n, path) && path[|path| - 1] == u && !AllOpen(n, path)
  }

  /** What breaks a chain. */
  ghost predicate Breaks(n: Namespace, step: Step) {
    || (step.DeleteSearch? && Between(n, step.search))
    || (step.Serve? && step.ok && Broken(n, step.request.owner))
  }

  /** Below a completed search of a protected namespace there is no unfinished work, at any depth. */
  lemma ProtectedTreeIsCompleted(n: Namespace, path: seq<nat>)
    requires Protected(n) && Lineage(n, path) && IsStored(n, path[0]) && path[0] in n.finished
    ensures !Work(n, path[|path| - 1])
  {
    assert Chain(n, path) && !Open(n, path[0]);
    assert !AllOpen(n, path);
  }

  // ----- what steps do to chains -----

  /** Identities are recorded under one name. */
  lemma StoredOnce(n: Namespace, s: string)
    requires Recorded(n) && s in n.searches
    ensures IsStored(n, n.searches[s].uid) && n.origins[n.searches[s].uid].name == s
  {
    assert SearchRecorded(n, s);
  }

  /** Parents are older than children, so no search is twice on a path. */
  lemma {:induction false} PathsAscend(n: Namespace, path: seq<nat>, i: nat, j: nat)
    requires OriginsRecorded(n) && Lineage(n, path) && i < j < |path|
    ensures path[i] < path[j]
  {
    assert OriginRecorded(n, path[j]);
    if i + 1 < j { PathsAscend(n, path, i, j - 1); }
  }

  /** A path of the namespace after the step is one of the namespace before, but for a last search that
      has just been born. */
  lemma OldPath(n: Namespace, step: Step, n': Namespace, path: seq<nat>)
    requires Next(n, step) == Some(n') && Recorded(n) && OriginsRecorded(n') && Lineage(n', path)
    requires path[|path| - 1] != n.nextUid
    ensures Lineage(n, path)
  {
    NothingAfter(n, step, n', path[|path| - 1]);
    StepBirths(n, step, n');
    forall i | 0 <= i < |path| ensures path[i] in n.origins {
      if i < |path| - 1 { PathsAscend(n', path, i, |path| - 1); }
    }
    StepGrows(n, step, n');
    PathBefore(n, n', path);
  }

  lemma PathBefore(n: Namespace, n': Namespace, path: seq<nat>)
    requires Lineage(n', path) && Grows(n, n') && forall i :: 0 <= i < |path| ==> path[i] in n.origins
    ensures Lineage(n, path)
  {
  }

  /** Nothing is recorded with a later identity than the one just given. */
  lemma NothingAfter(n: Namespace, step: Step, n': Namespace, u: nat)
    requires Next(n, step) == Some(n') && OriginsRecorded(n) && u in n'.origins
    ensures u <= n.nextUid
  {
    StepBirths(n, step, n');
    if u in n.origins { assert OriginRecorded(n, u); }
  }

  lemma NewPath(n: Namespace, n': Namespace, path: seq<nat>)
    requires Lineage(n, path) && Grows(n, n')
    ensures Lineage(n', path)
  {
  }

  /** Whether a search is stored changes only at its birth and at its deletion. */
  lemma StoredAfter(n: Namespace, step: Step, n': Namespace, u: nat)
    requires Next(n, step) == Some(n') && Recorded(n) && u in n.origins
    ensures IsStored(n', u) <==>
      IsStored(n, u) && !(step.DeleteSearch? && step.search in n.searches && n.searches[step.search].uid == u)
  {
    StepGrows(n, step, n');
    var s := n.origins[u].name;
    FreshIsUnknown(n);
    if s in n'.searches {
      if s in n.searches {
        StoredStaysSame(n, step, n', s);
        NotDeleted(n, step, n', s);
      } else {
        OnlyBirthsAddSearches(n, step, n', s);
      }
    } else if s in n.searches {
      OnlyDeletionRemoves(n, step, n', s);
    }
    if step.DeleteSearch? && step.search in n.searches { StoredOnce(n, step.search); }
  }

  lemma NotDeleted(n: Namespace, step: Step, n': Namespace, s: string)
    requires Next(n, step) == Some(n') && s in n'.searches
    ensures !(step.DeleteSearch? && step.search == s)
  {
  }

  lemma OnlyDeletionRemoves(n: Namespace, step: Step, n': Namespace, s: string)
    requires Next(n, step) == Some(n') && s in n.searches && s !in n'.searches
    ensures step == DeleteSearch(s)
  {
    if IsReconcileStep(step) { ReconcileKeepsSearch(n, step, n', s); }
    else if IsPodStep(step) { PodFrame(n, step, n'); }
    else if step.Serve? { ServeKeepsSearch(n, step.request, step.ok, step.name, n', s); }
    else { OthersRemove(n, step, n', s); }
  }

  lemma OthersRemove(n: Namespace, step: Step, n': Namespace, s: string)
    requires NextOther(n, step) == Some(n') && s in n.searches && s !in n'.searches
    ensures step == DeleteSearch(s)
  {
  }

  lemma OpenBefore(n: Namespace, step: Step, n': Namespace, u: nat)
    requires Next(n, step) == Some(n') && Recorded(n) && u in n.origins && Open(n', u)
    ensures Open(n, u)
  {
    StoredAfter(n, step, n', u);
    StepGrows(n, step, n');
  }

  // ----- pipelines -----

  /** An unfinished pipeline was one before, or the step grants it. */
  lemma BusyBefore(n: Namespace, step: Step, n': Namespace, u: nat)
    requires Next(n, step) == Some(n') && Busy(n', u)
    ensures Busy(n, u) || (Grants(step, PipelineKind) && step.request.owner == u)
  {
    var p :| p in n'.pipelines && n'.pipelines[p].parent == Some(u) && !n'.pipelines[p].completed;
    if IsReconcileStep(step) { ReconcileFrame(n, step, n'); }
    else if IsPodStep(step) { PodFrame(n, step, n'); }
    else if step.Serve? { ServeKeepsPipeline(n, step.request, step.ok, step.name, n', p); }
    else { OtherKeepsPipeline(n, step, n', p); }
  }

  /** Pipelines are scheduled by searches on record. */
  lemma BusyIsRecorded(n: Namespace, u: nat)
    requires PipelinesRecorded(n) && Busy(n, u)
    ensures u in n.origins
  {
    var p :| p in n.pipelines && n.pipelines[p].parent == Some(u) && !n.pipelines[p].completed;
    assert Labelled(n, n.pipelines[p].labels, n.pipelines[p].parent);
  }

  // ----- a completion breaks no chain -----

  /** When a search is completed, no search it has scheduled is unfinished. */
  lemma CompletionEndsChains(n: Namespace, step: Step, n': Namespace, path: seq<nat>, i: nat)
    requires Inv(n) && Next(n, step) == Some(n') && Lineage(n, path) && AllOpen(n, path) && i < |path| - 1
    ensures path[i] !in n'.finished
  {
    assert n.origins[path[i + 1]].parent == Some(path[i + 1 - 1]);
    assert Open(n, path[i + 1]) && SearchRecorded(n, n.origins[path[i + 1]].name) && Open(n, path[i]);
    if path[i] in n'.finished {
      FinishedAfterAll(n, step, n', path[i]);
    }
  }

  /** Nor is any of its pipelines. */
  lemma CompletionEndsPipelines(n: Namespace, step: Step, n': Namespace, u: nat)
    requires Inv(n) && Next(n, step) == Some(n') && Open(n, u) && Busy(n, u)
    ensures u !in n'.finished
  {
    var p :| p in n.pipelines && n.pipelines[p].parent == Some(u) && !n.pipelines[p].completed;
    assert Labelled(n, n.pipelines[p].labels, n.pipelines[p].parent);
    if u in n'.finished {
      FinishedAfterAll(n, step, n', u);
    }
  }

  /** The end of a chain is not finished by a step after which it has work left. */
  lemma WorkKeepsUnfinished(n: Namespace, step: Step, n': Namespace, u: nat)
    requires Inv(n) && Next(n, step) == Some(n') && Open(n, u) && Work(n', u)
    ensures u !in n'.finished
  {
    if !Open(n', u) {
      BusyBefore(n, step, n', u);
      if Busy(n, u) { CompletionEndsPipelines(n, step, n', u); } else { GrantFinishesNothing(n, step, n'); }
    }
  }

  /** An unfinished chain stays one in a step that breaks none, as far as it has work left at its end. */
  lemma ChainStaysOpen(n: Namespace, step: Step, n': Namespace, path: seq<nat>)
    requires Inv(n) && Next(n, step) == Some(n') && !(step.DeleteSearch? && Between(n, step.search))
    requires Chain(n, path) && AllOpen(n, path) && IsStored(n', path[0]) && Work(n', path[|path| - 1])
    ensures AllOpen(n', path)
  {
    forall i | 0 <= i < |path| ensures Open(n', path[i]) {
      assert Open(n, path[i]);
      if i < |path| - 1 { CompletionEndsChains(n, step, n', path, i); }
      else { WorkKeepsUnfinished(n, step, n', path[i]); }
      LinkStaysStored(n, step, n', path, i);
    }
  }

  lemma LinkStaysStored(n: Namespace, step: Step, n': Namespace, path: seq<nat>, i: nat)
    requires Inv(n) && Next(n, step) == Some(n') && !(step.DeleteSearch? && Between(n, step.search))
    requires Chain(n, path) && AllOpen(n, path) && IsStored(n', path[0]) && Work(n', path[|path| - 1])
    requires i < |path|
    ensures IsStored(n', path[i])
  {
    assert Open(n, path[i]) && Open(n, path[|path| - 1]);
    StoredAfter(n, step, n', path[i]);
    if !IsStored(n', path[i]) {
      if i == |path| - 1 { BusyBefore(n, step, n', path[i]); }
      assert Cuts(n, path, i, path[i]);
    }
  }

  // ----- births -----

  /** A newborn search has the parent that asked for it, or none. */
  lemma ParentOfNewborn(n: Namespace, step: Step, n': Namespace)
    requires Next(n, step) == Some(n') && Recorded(n) && n.nextUid in n'.origins
    ensures var parent := n'.origins[n.nextUid].parent;
            if Grants(step, SearchKind) then parent == Some(step.request.owner) else parent == None
  {
    FreshIsUnknown(n);
    if IsReconcileStep(step) { ReconcileFrame(n, step, n'); }
    else if IsPodStep(step) { PodFrame(n, step, n'); }
    else if step.Serve? { ServeBirth(n, step.request, step.ok, step.name, n'); }
    else { OtherBirths(n, step, n'); OtherFrame(n, step, n'); GrantsNothing(step); }
  }

  lemma ServeBirth(n: Namespace, r: Request, ok: bool, name: string, n': Namespace)
    requires NextServe(n, r, ok, name) == Some(n') && n.nextUid !in n.origins
    ensures n.nextUid in n'.origins <==> ok && r.kind == SearchKind
    ensures n.nextUid in n'.origins ==> n'.origins[n.nextUid] == Origin(name, Some(r.owner)) && Newborn(n, n', name)
  {
    AnsweredFrame(n, r, ok, Answered(n, r, ok).value);
  }

  ghost predicate Newborn(n: Namespace, n': Namespace, name: string) {
    name in n'.searches && n'.searches[name].uid == n.nextUid && n'.finished == n.finished
  }

  lemma GrantsNothing(step: Step)
    requires !step.Serve?
    ensures !Grants(step, SearchKind)
  {
  }

  /** What is above a newborn search was there before. */
  lemma AboveNewborn(n: Namespace, step: Step, n': Namespace, path: seq<nat>)
    requires Inv(n) && Next(n, step) == Some(n') && OriginsRecorded(n')
    requires Chain(n', path) && path[|path| - 1] == n.nextUid && |path| > 1
    ensures Grants(step, SearchKind) && path[|path| - 2] == step.request.owner && Chain(n, path[..|path| - 1])
  {
    var k := |path| - 1;
    var above := path[..k];
    ParentOfNewborn(n, step, n');
    assert n'.origins[path[k]].parent == Some(path[k - 1]);
    assert Lineage(n', above);
    PathsAscend(n', path, k - 1, k);
    OldPath(n, step, n', above);
    StoredAfter(n, step, n', path[0]);
  }

  /** A newborn search has no pipelines. */
  lemma NewbornIsNotBusy(n: Namespace, step: Step, n': Namespace)
    requires Recorded(n) && Next(n, step) == Some(n')
    ensures !Busy(n', n.nextUid)
  {
    FreshIsUnknown(n);
    if Busy(n', n.nextUid) {
      BusyBefore(n, step, n', n.nextUid);
      if Busy(n, n.nextUid) { BusyIsRecorded(n, n.nextUid); } else { GrantIsRecorded(n, step, n'); }
    }
  }

  lemma GrantIsRecorded(n: Namespace, step: Step, n': Namespace)
    requires Recorded(n) && Next(n, step) == Some(n') && step.Serve?
    ensures step.request.owner in n.origins
  {
    AnsweredFrame(n, step.request, step.ok, Answered(n, step.request, step.ok).value);
  }

  /** A chain that ends with a newborn search is open if its parent's chains are not broken. */
  lemma NewbornChain(n: Namespace, step: Step, n': Namespace, path: seq<nat>)
    requires Inv(n) && Next(n, step) == Some(n') && OriginsRecorded(n') && !Breaks(n, step)
    requires Chain(n', path) && path[|path| - 1] == n.nextUid && Work(n', path[|path| - 1])
    ensures AllOpen(n', path)
  {
    NewbornIsNotBusy(n, step, n');
    var k := |path| - 1;
    if k > 0 {
      AboveNewborn(n, step, n', path);
      var above := path[..k];
      assert !BrokenChain(n, above, path[k - 1]);
      GrantFinishesNothing(n, step, n');
      forall i | 0 <= i < |path| ensures Open(n', path[i]) {
        if i < k {
          assert Open(n, above[i]);
          StoredAfter(n, step, n', path[i]);
        }
      }
    }
  }

  lemma GrantFinishesNothing(n: Namespace, step: Step, n': Namespace)
    requires Next(n, step) == Some(n') && step.Serve?
    ensures n'.finished == n.finished
  {
    ServeBirths(n, step.request, step.ok, step.name, n');
  }

  lemma StepKeepsProtection(n: Namespace, step: Step, n': Namespace)
    requires Inv(n) && Protected(n) && Next(n, step) == Some(n') && OriginsRecorded(n') && !Breaks(n, step)
    ensures Protected(n')
  {
    forall path | Chain(n', path) && Work(n', path[|path| - 1]) ensures AllOpen(n', path) {
      if path[|path| - 1] == n.nextUid {
        NewbornChain(n, step, n', path);
      } else {
        OldPath(n, step, n', path);
        StoredAfter(n, step, n', path[0]);
        ChainWasOpen(n, step, n', path);
        ChainStaysOpen(n, step, n', path);
      }
    }
  }

  /** A chain with work at its end was open before the step, if the step does not break it. */
  lemma ChainWasOpen(n: Namespace, step: Step, n': Namespace, path: seq<nat>)
    requires Inv(n) && Protected(n) && Next(n, step) == Some(n') && !Breaks(n, step)
    requires Chain(n, path) && Work(n', path[|path| - 1])
    ensures AllOpen(n, path)
  {
    var u := path[|path| - 1];
    if Open(n', u) { OpenBefore(n, step, n', u); }
    else {
      BusyBefore(n, step, n', u);
      assert Grants(step, PipelineKind) && step.request.owner == u ==> !BrokenChain(n, path, u);
    }
  }

  // ----- the steps that break a chain -----

  lemma DeletionBreaks(n: Namespace, step: Step, n': Namespace)
    requires Recorded(n) && Next(n, step) == Some(n') && step.DeleteSearch? && Between(n, step.search)
    ensures !Protected(n')
  {
    var u := n.searches[step.search].uid;
    var path, i :| Cuts(n, path, i, u);
    StepGrows(n, step, n');
    NewPath(n, n', path);
    PathsAscend(n, path, 0, i);
    StoredAfter(n, step, n', path[0]);
    StoredAfter(n, step, n', u);
    WorkStays(n, step, n', path, i);
    assert Chain(n', path) && Work(n', path[|path| - 1]) && !Open(n', path[i]);
  }

  lemma WorkStays(n: Namespace, step: Step, n': Namespace, path: seq<nat>, i: nat)
    requires Recorded(n) && Next(n, step) == Some(n') && step.DeleteSearch? && step.search in n.searches
    requires Cuts(n, path, i, n.searches[step.search].uid)
    ensures Work(n', path[|path| - 1])
  {
    var last := path[|path| - 1];
    if i < |path| - 1 { PathsAscend(n, path, i, |path| - 1); }
    StoredAfter(n, step, n', last);
    DeletionFinishesNothing(n, step, n');
    assert Busy(n, last) ==> Busy(n', last);
  }

  lemma DeletionFinishesNothing(n: Namespace, step: Step, n': Namespace)
    requires Next(n, step) == Some(n') && step.DeleteSearch?
    ensures n'.finished == n.finished && n'.pipelines == n.pipelines
  {
  }

  /** A pipeline is created below a broken chain. */
  lemma PipelineBreaks(n: Namespace, step: Step, n': Namespace)
    requires Recorded(n) && Next(n, step) == Some(n') && Grants(step, PipelineKind) && Broken(n, step.request.owner)
    ensures !Protected(n')
  {
    var path :| BrokenChain(n, path, step.request.owner);
    StaysBroken(n, step, n', path, step.request.owner);
    ServedChild(n, step.request, step.name, n');
    assert Busy(n', path[|path| - 1]);
  }

  /** The answer to a request mends no chain. */
  lemma StaysBroken(n: Namespace, step: Step, n': Namespace, path: seq<nat>, u: nat)
    requires Recorded(n) && Next(n, step) == Some(n') && step.Serve? && BrokenChain(n, path, u)
    ensures BrokenChain(n', path, u)
  {
    StepGrows(n, step, n');
    NewPath(n, n', path);
    StoredAfter(n, step, n', path[0]);
    var i :| 0 <= i < |path| && !Open(n, path[i]);
    StoredAfter(n, step, n', path[i]);
    assert !Open(n', path[i]);
  }

  lemma BirthBreaks(n: Namespace, step: Step, n': Namespace)
    requires Recorded(n) && Next(n, step) == Some(n') && Grants(step, SearchKind) && Broken(n, step.request.owner)
    ensures !Protected(n')
  {
    var above :| BrokenChain(n, above, step.request.owner);
    FreshIsUnknown(n);
    StaysBroken(n, step, n', above, step.request.owner);
    ServeBirth(n, step.request, step.ok, step.name, n');
    LongerChain(n', above, step.request.owner, n.nextUid);
    assert Open(n', (above + [n.nextUid])[|above|]);
  }

  /** A broken chain is broken for the children of its last search as well. */
  lemma LongerChain(n: Namespace, above: seq<nat>, parent: nat, u: nat)
    requires BrokenChain(n, above, parent) && u in n.origins && n.origins[u].parent == Some(parent)
    ensures BrokenChain(n, above + [u], u)
  {
    var path := above + [u];
    assert forall i :: 0 < i < |path| ==> n.origins[path[i]].parent == Some(path[i - 1]);
    var i :| 0 <= i < |above| && !Open(n, above[i]);
    assert !Open(n, path[i]) && path[0] == above[0];
  }

  /** Chains stay whole in a step if and only if it neither deletes a search between a stored one and
      unfinished work nor adds a search or a pipeline below a broken chain. */
  lemma StepProtectsIff(n: Namespace, step: Step, n': Namespace)
    requires Inv(n) && Protected(n) && Next(n, step) == Some(n')
    ensures Protected(n') <==> !Breaks(n, step)
  {
    StepRecordsOrigins(n, step, n');
    if !Breaks(n, step) { StepKeepsProtection(n, step, n'); }
    else if step.DeleteSearch? { DeletionBreaks(n, step, n'); }
    else if step.request.kind == SearchKind { BirthBreaks(n, step, n'); }
    else { PipelineBreaks(n, step, n'); }
  }

  /** For a deletion: chains stay whole if and only if the search is not between a stored search and
      unfinished work. */
  lemma DeletionProtectsIff(n: Namespace, s: string, n': Namespace)
    requires Inv(n) && Protected(n) && Next(n, DeleteSearch(s)) == Some(n')
    ensures Protected(n') <==> !Between(n, s)
  {
    StepProtectsIff(n, DeleteSearch(s), n');
  }

  /** A search that is deleted after its completion, as its time to live does, is never in between. */
  lemma CompletedIsNotBetween(n: Namespace, s: string)
    requires Inv(n) && Protected(n) && s in n.searches && n.searches[s].completed
    ensures !Between(n, s)
  {
    assert SearchRecorded(n, s);
    forall path, i ensures !Cuts(n, path, i, n.searches[s].uid) {
      assert Cuts(n, path, i, n.searches[s].uid) ==> Open(n, path[i]);
    }
  }

  // ----- whole runs -----

  /** Every step is in time and breaks no chain. */
  ghost predicate Whole(n: Namespace, steps: seq<Step>)
    decreases |steps|
  {
    steps == [] || (
      && !LateAnswer(n, steps[0]) && !Breaks(n, steps[0])
      && (Next(n, steps[0]).Some? ==> Whole(Next(n, steps[0]).value, steps[1..])))
  }

  lemma {:induction false} ProtectedExec(n: Namespace, steps: seq<Step>, after: Namespace)
    requires Inv(n) && Protected(n) && Exec(n, steps) == Some(after) && Whole(n, steps)
    ensures Inv(after) && Protected(after)
    decreases |steps|
  {
    if steps != [] {
      var n' := Next(n, steps[0]).value;
      InvStepIff(n, steps[0], n');
      StepProtectsIff(n, steps[0], n');
      ProtectedExec(n', steps[1..], after);
    }
  }

  /** In every run of such steps, all searches and pipelines that are stored below a stored search that is
      completed, at any depth and whichever searches in between have been deleted since, are completed. */
  lemma WholeTreeIsCompleted(steps: seq<Step>, n: Namespace, path: seq<nat>)
    requires Exec(EMPTY, steps) == Some(n) && Whole(EMPTY, steps)
    requires Lineage(n, path) && IsStored(n, path[0]) && path[0] in n.finished
    ensures var u := path[|path| - 1];
            && (IsStored(n, u) ==> u in n.finished && n.searches[n.origins[u].name].completed)
            && forall p :: p in n.pipelines && n.pipelines[p].parent == Some(u) ==> n.pipelines[p].completed
  {
    EmptyInv();
    ProtectedExec(EMPTY, steps, n);
    ProtectedTreeIsCompleted(n, path);
    var u := path[|path| - 1];
    assert !Open(n, u) && !Busy(n, u);
    if IsStored(n, u) { assert SearchRecorded(n, n.origins[u].name); }
  }
}
