/**
 Sorting the children of a CronSearch and pruning old ones: `isSearchFinished`,
 `findExistingSearches` and the history loops of `Reconcile`
 (internal/controller/cronsearch_controller.go).
 */
module CronHistory {
  import opened Wrappers
  import opened CronNaming

  datatype ConditionStatus = True | False | Unknown

  datatype Condition = Condition(kind: string, status: ConditionStatus)

  const COMPLETE := "Complete"

  datatype Child = Child(annotation: Annotation, conditions: seq<Condition>, start: Option<int>, deleting: bool)

  /** A child as it appears in a list. */
  datatype Listed = Listed(name: string, child: Child)

  /** The status of the first completion condition. */
  function Finished(conditions: seq<Condition>): Option<ConditionStatus> {
    if conditions == [] then None
    else if conditions[0].kind == COMPLETE then Some(conditions[0].status)
    else Finished(conditions[1..])
  }

  /** The first completion condition is the one at `i`. */
  ghost predicate FirstComplete(conditions: seq<Condition>, i: nat, status: ConditionStatus) {
    && i < |conditions| && conditions[i] == Condition("Complete", status)
    && forall j :: 0 <= j < i ==> conditions[j].kind != "Complete"
  }

  method IsSearchFinished(conditions: seq<Condition>) returns (r: Option<ConditionStatus>)
    ensures r == Finished(conditions)
    ensures r.None? <==> forall c :: c in conditions ==> c.kind != "Complete"
    ensures r.Some? ==> exists i: nat :: FirstComplete(conditions, i, r.value)
  {
    UnfinishedIff(conditions);
    for i := 0 to |conditions|
      invariant Finished(conditions) == Finished(conditions[i..])
      invariant forall j :: 0 <= j < i ==> conditions[j].kind != COMPLETE
    {
      if conditions[i].kind == COMPLETE {
        assert FirstComplete(conditions, i, conditions[i].status);
        return Some(conditions[i].status);
      }
    }
    return None;
  }

  /** A search is unfinished exactly when it has no completion condition. */
  lemma {:induction false} UnfinishedIff(conditions: seq<Condition>)
    ensures Finished(conditions).None? <==> forall c :: c in conditions ==> c.kind != COMPLETE
  {
    if conditions != [] {
      UnfinishedIff(conditions[1..]);
      assert conditions == [conditions[0]] + conditions[1..];
    }
  }

  /** The children whose state is `s`, in list order. */
  function WithState(list: seq<Listed>, s: Option<ConditionStatus>): seq<Listed> {
    if list == [] then []
    else
      var k := |list| - 1;
      if Finished(list[k].child.conditions) == s then WithState(list[..k], s) + [list[k]] else WithState(list[..k], s)
  }

  lemma {:induction false} WithStateMember(list: seq<Listed>, s: Option<ConditionStatus>, x: Listed)
    ensures x in WithState(list, s) <==> x in list && Finished(x.child.conditions) == s
  {
    if list != [] {
      var k := |list| - 1;
      WithStateMember(list[..k], s, x);
      assert list == list[..k] + [list[k]];
    }
  }

  /** Every child is put into the category of its status, whatever comes before or after it. */
  lemma WithStateAppend(list: seq<Listed>, x: Listed, s: Option<ConditionStatus>)
    ensures WithState([], s) == []
    ensures WithState(list + [x], s) == WithState(list, s) + (if Finished(x.child.conditions) == s then [x] else [])
  {
    assert (list + [x])[..|list|] == list;
  }

  /** The first completion condition of a child has the status `status`. */
  ghost predicate EndedWith(c: Child, status: ConditionStatus) {
    exists i: nat :: FirstComplete(c.conditions, i, status)
  }

  ghost predicate NotEnded(c: Child) { forall d :: d in c.conditions ==> d.kind != "Complete" }

  lemma {:induction false} FinishedIs(conditions: seq<Condition>, c: Child, status: ConditionStatus)
    requires conditions == c.conditions
    ensures Finished(conditions) == Some(status) <==> EndedWith(c, status)
    decreases |conditions|
  {
    if conditions != [] {
      var rest := c.(conditions := conditions[1..]);
      FinishedIs(conditions[1..], rest, status);
      if conditions[0].kind == COMPLETE {
        assert FirstComplete(conditions, 0, conditions[0].status);
      } else {
        forall i: nat ensures FirstComplete(conditions, i + 1, status) <==> FirstComplete(rest.conditions, i, status) {
          assert forall j :: 0 <= j < |rest.conditions| ==> rest.conditions[j] == conditions[j + 1];
          assert forall j :: 0 < j < |conditions| ==> conditions[j] == rest.conditions[j - 1];
        }
        if i: nat :| FirstComplete(conditions, i, status) {
          assert FirstComplete(rest.conditions, i - 1, status);
        }
        if k: nat :| FirstComplete(rest.conditions, k, status) {
          assert FirstComplete(conditions, k + 1, status);
        }
      }
    }
  }

  /** `r` is the greatest scheduled time found in a readable annotation, if there is one. */
  ghost predicate IsMostRecent(list: seq<Listed>, r: Option<int>) {
    && (forall x :: x in list && Parse(x.child.annotation).Some? ==>
      r.Some? && Parse(x.child.annotation).value <= r.value)
    && (r.Some? ==> exists x :: x in list && Parse(x.child.annotation) == r)
  }

  /** The greatest scheduled time of the list. */
  function MostRecent(list: seq<Listed>): Option<int> {
    if list == [] then None
    else
      var k := |list| - 1;
      var before := MostRecent(list[..k]);
      var scheduled := Parse(list[k].child.annotation);
      if scheduled.Some? && (before.None? || before.value < scheduled.value) then scheduled else before
  }

  lemma {:induction false} MostRecentIsGreatest(list: seq<Listed>)
    ensures IsMostRecent(list, MostRecent(list))
  {
    if list != [] {
      var k := |list| - 1;
      MostRecentIsGreatest(list[..k]);
      assert list == list[..k] + [list[k]];
      var before, scheduled := MostRecent(list[..k]), Parse(list[k].child.annotation);
      if scheduled.Some? && (before.None? || before.value < scheduled.value) {
        assert list[k] in list && Parse(list[k].child.annotation) == MostRecent(list);
      } else if before.Some? {
        var x :| x in list[..k] && Parse(x.child.annotation) == before;
        assert x in list;
      }
    }
  }

  method FindExistingSearches(list: seq<Listed>)
    returns (active: seq<Listed>, failed: seq<Listed>, successful: seq<Listed>, mostRecent: Option<int>)
    ensures active == WithState(list, None)
    ensures failed == WithState(list, Some(False))
    ensures successful == WithState(list, Some(True))
    ensures mostRecent == MostRecent(list) && IsMostRecent(list, mostRecent)
    ensures forall x :: x in active <==> x in list && NotEnded(x.child)
    ensures forall x :: x in failed <==> x in list && EndedWith(x.child, False)
    ensures forall x :: x in successful <==> x in list && EndedWith(x.child, True)
  {
    active, failed, successful, mostRecent := [], [], [], None;
    for i := 0 to |list|
      invariant active == WithState(list[..i], None)
      invariant failed == WithState(list[..i], Some(False))
      invariant successful == WithState(list[..i], Some(True))
      invariant mostRecent == MostRecent(list[..i])
    {
      assert list[..i + 1][..i] == list[..i];
      var finished := IsSearchFinished(list[i].child.conditions);
      match finished {
        case None => active := active + [list[i]];
        case Some(False) => failed := failed + [list[i]];
        case Some(True) => successful := successful + [list[i]];
        case Some(Unknown) =>
      }
      var scheduled := Parse(list[i].child.annotation);
      if scheduled.Some? {
        if mostRecent.None? || mostRecent.value < scheduled.value {
          mostRecent := scheduled;
        }
      }
    }
    assert list[..|list|] == list;
    MostRecentIsGreatest(list);
    Categories(list);
  }

  /** What the categories are in terms of the conditions. */
  lemma Categories(list: seq<Listed>)
    ensures forall x :: x in WithState(list, None) <==> x in list && NotEnded(x.child)
    ensures forall x, s :: x in WithState(list, Some(s)) <==> x in list && EndedWith(x.child, s)
  {
    forall x ensures x in WithState(list, None) <==> x in list && NotEnded(x.child) {
      WithStateMember(list, None, x);
      UnfinishedIff(x.child.conditions);
    }
    forall x, s ensures x in WithState(list, Some(s)) <==> x in list && EndedWith(x.child, s) {
      WithStateMember(list, Some(s), x);
      FinishedIs(x.child.conditions, x.child, s);
    }
  }

  // ----- order by start time -----

  /** The comparator of the two sorts: a missing start time counts as oldest. */
  predicate Older(a: Listed, b: Listed) {
    if a.child.start.None? then b.child.start.Some?
    else b.child.start.Some? && a.child.start.value < b.child.start.value
  }

  predicate SameAge(a: Listed, b: Listed) { !Older(a, b) && !Older(b, a) }

  /** The comparator is a strict weak order, as the sort demands. */
  lemma OlderIsStrictWeakOrder(a: Listed, b: Listed, c: Listed)
    ensures !Older(a, a)
    ensures Older(a, b) ==> !Older(b, a)
    ensures Older(a, b) && Older(b, c) ==> Older(a, c)
    ensures SameAge(a, b) && SameAge(b, c) ==> SameAge(a, c)
    ensures SameAge(a, b) <==> a.child.start == b.child.start
  {
  }

  ghost predicate Ascending(s: seq<Listed>) {
    forall i, j :: 0 <= i < j < |s| ==> !Older(s[j], s[i])
  }

  /** What the library sort promises: the same elements, none before an older one. */
  ghost predicate SortedByAge(list: seq<Listed>, sorted: seq<Listed>) {
    multiset(sorted) == multiset(list) && Ascending(sorted)
  }

  /** Stands for sort.Slice; only SortedByAge is used of it. */
  method SortSlice(list: seq<Listed>) returns (sorted: seq<Listed>)
    ensures SortedByAge(list, sorted)
  {
    sorted := [];
    for i := 0 to |list|
      invariant SortedByAge(list[..i], sorted)
    {
      assert list[..i + 1] == list[..i] + [list[i]];
      var k := Position(sorted, list[i]);
      InsertKeepsOrder(sorted, k, list[i]);
      InsertKeepsElements(sorted, k, list[i]);
      sorted := sorted[..k] + [list[i]] + sorted[k..];
    }
    assert list[..|list|] == list;
  }

  method Position(sorted: seq<Listed>, x: Listed) returns (k: nat)
    ensures k <= |sorted|
    ensures forall j :: k <= j < |sorted| ==> Older(x, sorted[j])
    ensures k > 0 ==> !Older(x, sorted[k - 1])
  {
    k := |sorted|;
    while k > 0 && Older(x, sorted[k - 1])
      invariant 0 <= k <= |sorted|
      invariant forall j :: k <= j < |sorted| ==> Older(x, sorted[j])
    {
      k := k - 1;
    }
  }

  lemma InsertKeepsElements(sorted: seq<Listed>, k: nat, x: Listed)
    requires k <= |sorted|
    ensures multiset(sorted[..k] + [x] + sorted[k..]) == multiset(sorted + [x])
  {
    assert sorted == sorted[..k] + sorted[k..];
  }

  lemma InsertKeepsOrder(sorted: seq<Listed>, k: nat, x: Listed)
    requires Ascending(sorted) && k <= |sorted|
    requires forall j :: k <= j < |sorted| ==> Older(x, sorted[j])
    requires k > 0 ==> !Older(x, sorted[k - 1])
    ensures Ascending(sorted[..k] + [x] + sorted[k..])
  {
    var r := sorted[..k] + [x] + sorted[k..];
    forall i, j | 0 <= i < j < |r| ensures !Older(r[j], r[i]) {
      if j < k || i > k {
        assert !Older(sorted[if j < k then j else j - 1], sorted[if i < k then i else i - 1]);
      } else if j == k {
        assert i == k - 1 || !Older(sorted[k - 1], sorted[i]);
      } else if i < k {
        assert !Older(sorted[j - 1], sorted[i]);
      }
    }
  }

  // ----- pruning -----

  const INT32_LIMIT: int := 0x8000_0000

  /** Conversion to a 32-bit signed integer. */
  function Int32(n: int): int {
    var m := n % (2 * INT32_LIMIT);
    if m < INT32_LIMIT then m else m - 2 * INT32_LIMIT
  }

  lemma Int32IsExact(n: int)
    requires -INT32_LIMIT <= n < INT32_LIMIT
    ensures Int32(n) == n
  {
  }

  function Excess(n: nat, limit: nat): nat { if n <= limit then 0 else n - limit }

  /** The pruning loop: delete requests for the oldest searches beyond the limit. The 32-bit
      arithmetic is exact for every list a process can hold and every limit the API admits. */
  method Prune(sorted: seq<Listed>, limit: int) returns (requests: seq<Listed>)
    requires |sorted| < INT32_LIMIT
    requires 0 <= limit < INT32_LIMIT
    ensures requests == sorted[..Excess(|sorted|, limit)]
    ensures |sorted| <= limit ==> requests == []
    ensures |sorted| > limit ==> requests == sorted[..|sorted| - limit]
  {
    requests := [];
    for i := 0 to |sorted|
      invariant i <= Excess(|sorted|, limit)
      invariant requests == sorted[..i]
    {
      Int32IsExact(i);
      Int32IsExact(|sorted|);
      Int32IsExact(|sorted| - limit);
      if Int32(i) >= Int32(Int32(|sorted|) - limit) {
        break;
      }
      requests := requests + [sorted[i]];
    }
  }

  /** `requests` are delete requests for `list` under `limit`, for some order the sort may produce. */
  ghost predicate Prunes(list: seq<Listed>, limit: Option<nat>, requests: seq<Listed>) {
    match limit
    case None => requests == []
    case Some(l) => exists sorted :: SortedByAge(list, sorted) && requests == sorted[..Excess(|sorted|, l)]
  }

  lemma CutIsByAge(sorted: seq<Listed>, e: nat, d: Listed, k: Listed)
    requires Ascending(sorted) && e <= |sorted| && d in sorted[..e] && k in sorted[e..]
    ensures !Older(k, d)
  {
    var i :| 0 <= i < e && sorted[..e][i] == d;
    var j :| 0 <= j < |sorted| - e && sorted[e..][j] == k;
    assert !Older(sorted[e + j], sorted[i]);
  }

  lemma CutKeepsElements(sorted: seq<Listed>, e: nat)
    requires e <= |sorted|
    ensures multiset(sorted[..e]) + multiset(sorted[e..]) == multiset(sorted)
  {
    assert sorted == sorted[..e] + sorted[e..];
  }

  /** As many are kept as the limit and the list allow, and the others are deleted; what is deleted and what
      is kept make up the list; and no deleted search started after a kept one, where a search without
      start time counts as the first. */
  lemma PruningDropsOldest(list: seq<Listed>, limit: nat, requests: seq<Listed>) returns (kept: seq<Listed>)
    requires Prunes(list, Some(limit), requests)
    ensures |kept| == (if |list| <= limit then |list| else limit) && |requests| == |list| - |kept|
    ensures multiset(requests) + multiset(kept) == multiset(list)
    ensures forall d, k :: d in requests && k in kept ==> StartedNoLater(d, k)
  {
    var sorted :| SortedByAge(list, sorted) && requests == sorted[..Excess(|sorted|, limit)];
    SameSize(sorted, list);
    var e := Excess(|sorted|, limit);
    kept := sorted[e..];
    CutKeepsElements(sorted, e);
    forall d, k | d in requests && k in kept ensures StartedNoLater(d, k) {
      CutIsByAge(sorted, e, d, k);
    }
  }

  ghost predicate StartedNoLater(d: Listed, k: Listed) {
    d.child.start.None? || (k.child.start.Some? && d.child.start.value <= k.child.start.value)
  }

  /** The same for a list with or without limit: how many are deleted, and that they are the first started. */
  ghost predicate DropsOldest(list: seq<Listed>, limit: Option<nat>, requests: seq<Listed>) {
    && |requests| == (if limit.Some? && |list| > limit.value then |list| - limit.value else 0)
    && multiset(requests) <= multiset(list)
    && forall d, k :: d in requests && k in multiset(list) - multiset(requests) ==> StartedNoLater(d, k)
  }

  lemma PrunesDropsOldest(list: seq<Listed>, limit: Option<nat>, requests: seq<Listed>)
    requires Prunes(list, limit, requests)
    ensures DropsOldest(list, limit, requests)
  {
    if limit.Some? {
      var kept := PruningDropsOldest(list, limit.value, requests);
      assert multiset(list) - multiset(requests) == multiset(kept);
    }
  }

  lemma SameSize(a: seq<Listed>, b: seq<Listed>)
    requires multiset(a) == multiset(b)
    ensures |a| == |b|
  {
    assert |multiset(a)| == |a| && |multiset(b)| == |b|;
  }

  /** A pruned search was in the list. */
  lemma PrunedIsListed(list: seq<Listed>, limit: Option<nat>, requests: seq<Listed>, x: Listed)
    requires Prunes(list, limit, requests) && x in requests
    ensures x in list
  {
    var sorted :| SortedByAge(list, sorted) && requests == sorted[..Excess(|sorted|, limit.value)];
    assert x in sorted;
    assert x in multiset(sorted);
  }

  // ----- which search survives pruning -----

  /** How many entries are older than `x`. */
  function OlderCount(list: seq<Listed>, x: Listed): nat {
    if list == [] then 0 else (if Older(list[0], x) then 1 else 0) + OlderCount(list[1..], x)
  }

  lemma {:induction false} OlderCountConcat(a: seq<Listed>, b: seq<Listed>, x: Listed)
    ensures OlderCount(a + b, x) == OlderCount(a, x) + OlderCount(b, x)
  {
    if a == [] {
      assert a + b == b;
    } else {
      OlderCountConcat(a[1..], b, x);
      assert (a + b)[1..] == a[1..] + b;
    }
  }

  lemma CountWithout(list: seq<Listed>, i: nat, x: Listed)
    requires i < |list|
    ensures OlderCount(list, x) == OlderCount(list[..i] + list[i + 1..], x) + (if Older(list[i], x) then 1 else 0)
  {
    assert list == list[..i] + list[i..] && list[i..][1..] == list[i + 1..];
    OlderCountConcat(list[..i], list[i + 1..], x);
    OlderCountConcat(list[..i], list[i..], x);
  }

  lemma {:induction false} OlderCountBounds(list: seq<Listed>, x: Listed)
    ensures OlderCount(list, x) <= |list|
    ensures OlderCount(list, x) == 0 <==> forall y :: y in list ==> !Older(y, x)
    ensures OlderCount(list, x) == |list| <==> forall y :: y in list ==> Older(y, x)
  {
    if list != [] {
      OlderCountBounds(list[1..], x);
      assert list == [list[0]] + list[1..];
    }
  }

  lemma Removed<T>(s: seq<T>, j: nat)
    requires j < |s|
    ensures multiset(s) == multiset(s[..j] + s[j + 1..]) + multiset{s[j]}
  {
    assert s == s[..j] + [s[j]] + s[j + 1..];
  }

  lemma RemovedFirst<T>(s: seq<T>)
    requires s != []
    ensures multiset(s) == multiset(s[1..]) + multiset{s[0]}
  {
    assert s == [s[0]] + s[1..];
  }

  lemma SameWithout<T>(a: seq<T>, b: seq<T>, j: nat)
    requires multiset(a) == multiset(b) && a != [] && j < |b| && b[j] == a[0]
    ensures multiset(a[1..]) == multiset(b[..j] + b[j + 1..])
  {
    Removed(b, j);
    RemovedFirst(a);
    assert multiset(a[1..]) == multiset(a) - multiset{a[0]};
    assert multiset(b[..j] + b[j + 1..]) == multiset(b) - multiset{b[j]};
  }

  /** Taking an entry out of a list, sorting the rest and putting it back in permutes the list. */
  lemma Reinserted<T>(list: seq<T>, i: nat, rest: seq<T>, k: nat)
    requires i < |list| && k <= |rest| && multiset(rest) == multiset(list[..i] + list[i + 1..])
    ensures multiset(rest[..k] + [list[i]] + rest[k..]) == multiset(list)
  {
    Removed(list, i);
    assert rest == rest[..k] + rest[k..];
  }

  /** The count does not depend on the order of the list. */
  lemma {:induction false} OlderCountPermuted(a: seq<Listed>, b: seq<Listed>, x: Listed)
    requires multiset(a) == multiset(b)
    ensures OlderCount(a, x) == OlderCount(b, x)
  {
    if a == [] {
      SameSize(a, b);
    } else {
      assert a[0] in multiset(b);
      var j :| 0 <= j < |b| && b[j] == a[0];
      SameWithout(a, b, j);
      OlderCountPermuted(a[1..], b[..j] + b[j + 1..], x);
      CountWithout(b, j, x);
    }
  }

  /** In a sorted list everything older than `x` comes before it. */
  lemma OlderComesFirst(sorted: seq<Listed>, i: nat)
    requires Ascending(sorted) && i < |sorted|
    ensures OlderCount(sorted, sorted[i]) <= i
  {
    forall j, k | 0 <= j < k < |sorted[i..]| ensures !Older(sorted[i..][k], sorted[i..][j]) {
      assert !Older(sorted[i + k], sorted[i + j]);
    }
    var x := sorted[i];
    assert sorted == sorted[..i] + sorted[i..];
    OlderCountConcat(sorted[..i], sorted[i..], x);
    OlderCountBounds(sorted[..i], x);
    NoneOlder(sorted[i..], x);
  }

  lemma NoneOlder(list: seq<Listed>, x: Listed)
    requires Ascending(list) && list != [] && list[0] == x
    ensures OlderCount(list, x) == 0
  {
    forall y | y in list ensures !Older(y, x) {
      var j :| 0 <= j < |list| && list[j] == y;
      assert j > 0 ==> !Older(list[j], list[0]);
    }
    OlderCountBounds(list, x);
  }

  /** Where `x` goes if it is put before its equals. */
  lemma Place(sorted: seq<Listed>, x: Listed) returns (k: nat)
    requires Ascending(sorted)
    ensures k <= |sorted| && Ascending(sorted[..k] + [x] + sorted[k..])
    ensures k == OlderCount(sorted, x)
  {
    k := FirstNotOlder(sorted, x);
    CountOlder(sorted, x, k);
    PlacedAscends(sorted, k, x);
  }

  lemma FirstNotOlder(sorted: seq<Listed>, x: Listed) returns (k: nat)
    requires Ascending(sorted)
    ensures k <= |sorted|
    ensures forall j :: 0 <= j < k ==> Older(sorted[j], x)
    ensures forall j :: k <= j < |sorted| ==> !Older(sorted[j], x)
  {
    k := 0;
    while k < |sorted| && Older(sorted[k], x)
      invariant k <= |sorted|
      invariant forall j :: 0 <= j < k ==> Older(sorted[j], x)
    {
      k := k + 1;
    }
    forall j | k <= j < |sorted| ensures !Older(sorted[j], x) {
      assert j > k ==> !Older(sorted[j], sorted[k]);
    }
  }

  lemma {:induction false} CountOlder(list: seq<Listed>, x: Listed, k: nat)
    requires k <= |list|
    requires forall j :: 0 <= j < k ==> Older(list[j], x)
    requires forall j :: k <= j < |list| ==> !Older(list[j], x)
    ensures OlderCount(list, x) == k
  {
    if list != [] {
      CountOlder(list[1..], x, if k > 0 then k - 1 else 0);
    }
  }

  lemma PlacedAscends(sorted: seq<Listed>, k: nat, x: Listed)
    requires Ascending(sorted) && k <= |sorted|
    requires forall j :: 0 <= j < k ==> Older(sorted[j], x)
    requires forall j :: k <= j < |sorted| ==> !Older(sorted[j], x)
    ensures Ascending(sorted[..k] + [x] + sorted[k..])
  {
    var r := sorted[..k] + [x] + sorted[k..];
    forall i, j | 0 <= i < j < |r| ensures !Older(r[j], r[i]) {
      if i != k && j != k {
        assert !Older(sorted[if j < k then j else j - 1], sorted[if i < k then i else i - 1]);
      }
    }
  }

  lemma {:induction false} Sortable(list: seq<Listed>) returns (sorted: seq<Listed>)
    ensures SortedByAge(list, sorted)
  {
    if list == [] {
      sorted := [];
    } else {
      var rest := Sortable(list[1..]);
      var k := Place(rest, list[0]);
      sorted := rest[..k] + [list[0]] + rest[k..];
      assert list[..0] + list[1..] == list[1..];
      Reinserted(list, 0, rest, k);
    }
  }

  /** Pruning spares `x` in every order the sort may produce if and only if there is no limit or enough
      entries are older: ties, and entries without start time, do not protect it. */
  lemma SparedIff(list: seq<Listed>, limit: Option<nat>, x: Listed)
    requires x in list
    ensures (forall requests :: Prunes(list, limit, requests) ==> x !in requests) <==>
      limit.None? || OlderCount(list, x) >= Excess(|list|, limit.value)
  {
    if limit.Some? {
      var e := Excess(|list|, limit.value);
      if OlderCount(list, x) >= e {
        forall requests | Prunes(list, limit, requests) ensures x !in requests {
          SparedByOlder(list, limit.value, requests, x);
        }
      } else {
        var requests := TakenFirst(list, limit.value, x);
        assert Prunes(list, limit, requests) && x in requests;
      }
    }
  }

  lemma SparedByOlder(list: seq<Listed>, limit: nat, requests: seq<Listed>, x: Listed)
    requires Prunes(list, Some(limit), requests) && OlderCount(list, x) >= Excess(|list|, limit)
    ensures x !in requests
  {
    var sorted :| SortedByAge(list, sorted) && requests == sorted[..Excess(|sorted|, limit)];
    SameSize(sorted, list);
    OlderCountPermuted(list, sorted, x);
    forall i | 0 <= i < |requests| ensures requests[i] != x { OlderComesFirst(sorted, i); }
  }

  /** A sorted form of the list in which `x` comes before its equals. */
  lemma SortedWithFirst(list: seq<Listed>, x: Listed) returns (sorted: seq<Listed>, k: nat)
    requires x in list
    ensures SortedByAge(list, sorted) && k < |sorted| && sorted[k] == x && k == OlderCount(list, x)
  {
    var i :| 0 <= i < |list| && list[i] == x;
    var rest := Sortable(list[..i] + list[i + 1..]);
    k := Place(rest, x);
    sorted := rest[..k] + [x] + rest[k..];
    Reinserted(list, i, rest, k);
    CountOthers(list, i, rest);
  }

  lemma CountOthers(list: seq<Listed>, i: nat, rest: seq<Listed>)
    requires i < |list| && multiset(rest) == multiset(list[..i] + list[i + 1..])
    ensures OlderCount(rest, list[i]) == OlderCount(list, list[i])
  {
    CountWithout(list, i, list[i]);
    OlderCountPermuted(list[..i] + list[i + 1..], rest, list[i]);
  }

  lemma TakenFirst(list: seq<Listed>, limit: nat, x: Listed) returns (requests: seq<Listed>)
    requires x in list && OlderCount(list, x) < Excess(|list|, limit)
    ensures Prunes(list, Some(limit), requests) && x in requests
  {
    var sorted, k := SortedWithFirst(list, x);
    SameSize(sorted, list);
    requests := sorted[..Excess(|sorted|, limit)];
    assert requests[k] == x;
  }
}
