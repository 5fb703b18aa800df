/**
 One reconcile of a search in the form of the source (internal/controller/search_controller.go): a
 method with early returns that creates the pod, marks the search as started or reads its children.
 Its effect is proved to be an execution of the steps of SearchTree. A failed read or write, which
 ends a reconcile early, is the step Abandon there.
 */
module SearchReconciler {
  import opened Wrappers
  import opened Labels
  import T = SearchTree
  import F = FifoScheduler
  import C = SearchController

  /** The steps of an undisturbed reconcile. `ready` tells whether the crawler, the service account
      and the role binding are in place. */
  function StepsOf(n: T.Namespace, s: string, ready: bool): seq<T.Step> {
    if s !in n.searches || n.searches[s].completed then []
    else if !ready then [T.Fetch(s)] + ([T.Abandon(s)] + [])
    else if !n.searches[s].started then [T.Fetch(s)] + ([T.ReadOrCreatePod(s)] + ([T.MarkStarted(s)] + []))
    else T.OneReconcile(s)
  }

  /** The pod has ended and all scheduled children are finished. */
  ghost predicate Finished(n: T.Namespace, s: string) {
    && s in n.pods && T.Terminal(n.pods[s].phase)
    && T.PipelinesDone(n, s) && T.SearchesDone(n, s)
  }

  /** The namespace that an undisturbed reconcile leaves behind. */
  ghost function After(n: T.Namespace, s: string, ready: bool): T.Namespace {
    if s !in n.searches || n.searches[s].completed || !ready then n
    else if !n.searches[s].started then
      var n1 := T.WithPod(n, s);
      n1.(searches := n.searches[s := n.searches[s].(started := true)])
    else if Finished(n, s) then T.WithCompletion(n, s)
    else T.WithPod(n, s)
  }

  lemma StartRefines(n: T.Namespace, s: string)
    requires s !in n.reconciles && s in n.searches && !n.searches[s].completed && !n.searches[s].started
    ensures T.Exec(n, [T.Fetch(s)] + ([T.ReadOrCreatePod(s)] + ([T.MarkStarted(s)] + []))) == Some(After(n, s, true))
  {
    var n2 := T.UninterruptedPod(n, s);
    var n3 := T.Next(n2, T.MarkStarted(s)).value;
    assert n3.reconciles == n.reconciles;
    T.ExecFirst(n2, T.MarkStarted(s), n3, []);
  }

  /** Whatever SearchProtocol proves about all executions holds of runs of the method below. */
  lemma ReconcileRefinesSteps(n: T.Namespace, s: string, ready: bool)
    requires s !in n.reconciles
    ensures T.Exec(n, StepsOf(n, s, ready)) == Some(After(n, s, ready))
  {
    if s !in n.searches || n.searches[s].completed {
    } else if !ready {
      var n1 := T.Next(n, T.Fetch(s)).value;
      assert n1.reconciles - {s} == n.reconciles;
      T.ExecFirst(n, T.Fetch(s), n1, [T.Abandon(s)] + []);
      T.ExecFirst(n1, T.Abandon(s), n, []);
    } else if !n.searches[s].started {
      StartRefines(n, s);
    } else {
      T.UninterruptedReconcile(n, s);
    }
  }

  /** As long as crawler, service account or role binding are missing, no step of a reconcile creates a pod,
      marks the search as started, lists children or completes anything. */
  lemma UnreadySteps(n: T.Namespace, s: string)
    requires s !in n.reconciles
    ensures forall step :: step in StepsOf(n, s, false) ==> step.Fetch? || step.Abandon?
    ensures T.Exec(n, StepsOf(n, s, false)) == Some(n)
  {
    ReconcileRefinesSteps(n, s, false);
  }

  class Reconciler {
    // the namespace, as this controller sees it
    var searches: map<string, T.Search>
    var pipelines: map<string, T.Pipeline>
    var pods: map<string, T.Pod>
    ghost const requests: set<T.Request>
    ghost const reconciles: map<string, T.Progress>
    // identities and history
    var nextUid: nat
    ghost const origins: map<nat, T.Origin>
    ghost var finished: set<nat>

    ghost function View(): T.Namespace
      reads this
    {
      T.Namespace(searches, pipelines, pods, requests, reconciles, nextUid, origins, finished)
    }

    /** The pipelines that carry the label of `search`, in any order. */
    method ListPipelines(search: string) returns (list: seq<C.Item>)
      ensures C.ListsPipelines(list, View(), search)
    {
      list := [];
      var left := pipelines.Keys;
      while left != {}
        invariant left <= pipelines.Keys
        invariant forall x :: x in list ==>
          && x.name in pipelines && ScheduledBy(pipelines[x.name].labels) == Some(search)
          && (x.completionTime.Some? <==> pipelines[x.name].completed)
        invariant forall p :: p in pipelines && p !in left && ScheduledBy(pipelines[p].labels) == Some(search) ==>
          exists x :: x in list && x.name == p
        decreases |left|
      {
        var p :| p in left;
        left := left - {p};
        if ScheduledBy(pipelines[p].labels) == Some(search) {
          ghost var before := list;
          var item := C.Item(p, if pipelines[p].completed then Some(0) else None);
          list := list + [item];
          assert item in list && forall x :: x in before ==> x in list;
        }
      }
    }

    /** The searches that carry the label of `search`, in any order. */
    method ListSearches(search: string) returns (list: seq<C.Item>)
      ensures C.ListsSearches(list, View(), search)
    {
      list := [];
      var left := searches.Keys;
      while left != {}
        invariant left <= searches.Keys
        invariant forall x :: x in list ==>
          && x.name in searches && ScheduledBy(searches[x.name].labels) == Some(search)
          && (x.completionTime.Some? <==> searches[x.name].completed)
        invariant forall p :: p in searches && p !in left && ScheduledBy(searches[p].labels) == Some(search) ==>
          exists x :: x in list && x.name == p
        decreases |left|
      {
        var p :| p in left;
        left := left - {p};
        if ScheduledBy(searches[p].labels) == Some(search) {
          ghost var before := list;
          var item := C.Item(p, if searches[p].completed then Some(0) else None);
          list := list + [item];
          assert item in list && forall x :: x in before ==> x in list;
        }
      }
    }

    /** One reconcile: it leaves exactly the namespace `After`. Nothing happens to a search that is gone or
        completed, nor before everything it needs is in place. Otherwise a missing pod is created for the
        search, pending and with its template; a search that is not started is marked as such, and a
        started one is completed exactly if its pod had ended and all children with its label were finished.
        `start` is the start time that a started search has in its status. */
    method Reconcile(s: string, ready: bool, start: int, now: int)
      modifies this
      ensures View() == After(old(View()), s, ready)
      ensures !ready || s !in old(searches) || old(searches)[s].completed ==> View() == old(View())
      ensures pipelines == old(pipelines)
      ensures ready && s in old(searches) && !old(searches)[s].completed ==>
        && (s in old(pods) ==> pods == old(pods) && nextUid == old(nextUid))
        && (s !in old(pods) ==>
             && pods == old(pods)[s := T.Pod(old(nextUid), old(searches)[s].uid, T.Pending,
                                             old(searches)[s].template, F.Start())]
             && nextUid == old(nextUid) + 1)
      ensures ready && s in old(searches) && !old(searches)[s].completed && !old(searches)[s].started ==>
        searches == old(searches)[s := old(searches)[s].(started := true)] && finished == old(finished)
      ensures ready && s in old(searches) && !old(searches)[s].completed && old(searches)[s].started ==>
        var done := s in old(pods) && (old(pods)[s].phase == T.Succeeded || old(pods)[s].phase == T.Failed)
          && (forall p :: p in old(pipelines) && ScheduledBy(old(pipelines)[p].labels) == Some(s) ==>
            old(pipelines)[p].completed)
          && (forall c :: c in old(searches) && ScheduledBy(old(searches)[c].labels) == Some(s) ==>
            old(searches)[c].completed);
        searches == (if done then old(searches)[s := old(searches)[s].(completed := true)] else old(searches))
    {
      if s !in searches {
        return;
      }
      var search := searches[s];
      if search.completed {
        return;
      }
      if !ready {
        return;
      }
      if s !in pods {
        pods := pods[s := T.Pod(nextUid, search.uid, T.Pending, search.template, F.Start())];
        nextUid := nextUid + 1;
      }
      var pod := pods[s];
      if !search.started {
        searches := searches[s := search.(started := true)];
        return;
      }
      HandleCompletion(s, search, pod.phase, start, now);
    }

    /** The end of a reconcile of a started search whose pod has been read. */
    method HandleCompletion(s: string, search: T.Search, phase: T.Phase, start: int, now: int)
      requires s in searches && searches[s] == search && search.started && !search.completed
      requires s in pods && pods[s].phase == phase
      modifies this`searches, this`finished
      ensures View() == if Finished(old(View()), s) then T.WithCompletion(old(View()), s) else old(View())
    {
      var childPipelines := ListPipelines(s);
      var childSearches := ListSearches(s);
      C.ListingFindsUnfinished(childPipelines, childSearches, View(), s);
      T.NothingUnfinished(View(), s);
      var status := new C.SearchStatus(start);
      var outcome := status.HandleCompletion(childPipelines, childSearches, phase, now);
      if outcome == C.Updated {
        searches := searches[s := search.(completed := true)];
        finished := finished + {search.uid};
      }
    }
  }
}
