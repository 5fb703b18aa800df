/**
 The search controller's own code (internal/controller/search_controller.go), in its imperative
 form: the loops that keep the unfinished children and the status update at completion. Module
 SearchTree uses the same decision in its interleaving model.
 */
module SearchController {
  import opened Wrappers
  import opened Labels
  import T = SearchTree

  /** What the controller looks at in a listed pipeline or search. */
  datatype Item = Item(name: string, completionTime: Option<int>)

  datatype Condition = Condition(kind: string, status: bool, reason: string, lastTransitionTime: int)

  const STARTED := "Started"
  const COMPLETE := "Complete"

  /** The items without completion time, in order. */
  function Unfinished(items: seq<Item>): seq<Item> {
    if items == [] then []
    else if items[|items| - 1].completionTime.None? then Unfinished(items[..|items| - 1]) + [items[|items| - 1]]
    else Unfinished(items[..|items| - 1])
  }

  lemma {:induction false} UnfinishedMember(items: seq<Item>, x: Item)
    ensures x in Unfinished(items) <==> x in items && x.completionTime.None?
  {
    if items != [] {
      var k := |items| - 1;
      UnfinishedMember(items[..k], x);
      assert items == items[..k] + [items[k]];
    }
  }

  method KeepUnfinished(list: seq<Item>) returns (unfinished: seq<Item>)
    ensures unfinished == Unfinished(list)
    ensures unfinished == [] <==> forall x :: x in list ==> x.completionTime.Some?
    ensures forall x :: x in unfinished <==> x in list && x.completionTime.None?
  {
    unfinished := [];
    for i := 0 to |list|
      invariant unfinished == Unfinished(list[..i])
    {
      assert list[..i + 1][..i] == list[..i];
      if list[i].completionTime == None {
        unfinished := unfinished + [list[i]];
      }
    }
    assert list[..|list|] == list;
    forall x ensures x in unfinished <==> x in list && x.completionTime.None? { UnfinishedMember(list, x); }
    if unfinished != [] {
      UnfinishedMember(list, unfinished[0]);
    }
  }

  /** A list is a listing of the child pipelines of `search` if it holds each of them once. */
  ghost predicate ListsPipelines(list: seq<Item>, n: T.Namespace, search: string) {
    && (forall x :: x in list ==> x.name in n.pipelines)
    && (forall x :: x in list ==> ScheduledBy(n.pipelines[x.name].labels) == Some(search))
    && (forall x :: x in list ==> (x.completionTime.Some? <==> n.pipelines[x.name].completed))
    && (forall p :: p in n.pipelines && ScheduledBy(n.pipelines[p].labels) == Some(search) ==>
      exists x :: x in list && x.name == p)
  }

  ghost predicate ListsSearches(list: seq<Item>, n: T.Namespace, search: string) {
    && (forall x :: x in list ==> x.name in n.searches)
    && (forall x :: x in list ==> ScheduledBy(n.searches[x.name].labels) == Some(search))
    && (forall x :: x in list ==> (x.completionTime.Some? <==> n.searches[x.name].completed))
    && (forall p :: p in n.searches && ScheduledBy(n.searches[p].labels) == Some(search) ==>
      exists x :: x in list && x.name == p)
  }

  ghost function Names(items: seq<Item>): set<string> { set x | x in items :: x.name }

  /** The loops find exactly the names that the interleaving model calls unfinished. */
  lemma ListingFindsUnfinished(pipelines: seq<Item>, searches: seq<Item>, n: T.Namespace, search: string)
    requires ListsPipelines(pipelines, n, search) && ListsSearches(searches, n, search)
    ensures Names(Unfinished(pipelines)) == T.UnfinishedPipelines(n, search)
    ensures Names(Unfinished(searches)) == T.UnfinishedSearches(n, search)
  {
    forall x: Item
      ensures x in Unfinished(pipelines) <==> x in pipelines && x.completionTime.None?
      ensures x in Unfinished(searches) <==> x in searches && x.completionTime.None?
    {
      UnfinishedMember(pipelines, x);
      UnfinishedMember(searches, x);
    }
    forall p | p in T.UnfinishedPipelines(n, search) ensures p in Names(Unfinished(pipelines)) {
      var x :| x in pipelines && x.name == p;
    }
    forall p | p in T.UnfinishedSearches(n, search) ensures p in Names(Unfinished(searches)) {
      var x :| x in searches && x.name == p;
    }
  }

  /** How a reconcile ends: nothing to come back for, try again later, or status written. */
  datatype Outcome = Wait | RequeueAfter(seconds: nat) | Updated

  class SearchStatus {
    var startTime: Option<int>
    var completionTime: Option<int>
    var conditions: seq<Condition>

    /** The status of a search that has been started and not completed. */
    constructor (start: int)
      ensures startTime == Some(start) && completionTime == None
          && conditions == [Condition("Started", true, "SearchPodCreated", start)]
    {
      startTime, completionTime := Some(start), None;
      conditions := [Condition(STARTED, true, "SearchPodCreated", start)];
    }

    /** handleCompletion: given the two lists and the phase of the pod as it was read before the
        lists, completes the search exactly when the protocol of SearchTree allows it. */
    method HandleCompletion(pipelines: seq<Item>, searches: seq<Item>, phase: T.Phase, now: int)
      returns (outcome: Outcome)
      modifies this
      ensures outcome == Updated <==> T.Completes(phase, Names(Unfinished(pipelines)), Names(Unfinished(searches)))
      ensures outcome == Updated <==>
        && (phase == T.Succeeded || phase == T.Failed)
        && (forall x :: x in pipelines ==> x.completionTime.Some?)
        && (forall x :: x in searches ==> x.completionTime.Some?)
      ensures outcome == Wait <==>
        Unfinished(pipelines) == [] && Unfinished(searches) == [] && (phase == T.Pending || phase == T.Running)
      ensures outcome.RequeueAfter? ==> outcome.seconds == 10
      ensures startTime == old(startTime)
      ensures outcome != Updated || old(completionTime).Some? ==> unchanged(this)
      ensures outcome == Updated && old(completionTime).None? ==>
        && completionTime == Some(now)
        && |conditions| == |old(conditions)| + 1
        && conditions[..|old(conditions)|] == old(conditions)
        && var c := conditions[|old(conditions)|];
           c == if phase == T.Succeeded then Condition("Complete", true, "SearchPodSucceeded", now)
                else Condition("Complete", false, "SearchJobFailed", now)
    {
      var childPipelines := KeepUnfinished(pipelines);
      var childSearches := KeepUnfinished(searches);
      assert childPipelines != [] ==> childPipelines[0].name in Names(childPipelines);
      assert childSearches != [] ==> childSearches[0].name in Names(childSearches);
      if |childPipelines| > 0 || |childSearches| > 0 {
        return RequeueAfter(10);
      }
      match phase {
        case Failed =>
          if completionTime == None {
            completionTime := Some(now);
            conditions := conditions + [Condition(COMPLETE, false, "SearchJobFailed", now)];
          }
        case Succeeded =>
          if completionTime == None {
            completionTime := Some(now);
            conditions := conditions + [Condition(COMPLETE, true, "SearchPodSucceeded", now)];
          }
        case Pending => return Wait;
        case Running => return Wait;
        case Unknown => return RequeueAfter(10);
      }
      outcome := Updated;
    }
  }
}
