/** Labelled gauges: one integer per label set, and their total. */
module Tally {

  type Gauge<K> = map<K, int>

  function Read<K>(g: Gauge<K>, k: K): int { if k in g then g[k] else 0 }

  function Add<K>(g: Gauge<K>, k: K, d: int): Gauge<K> { g[k := Read(g, k) + d] }

  /** The sum of a gauge over all its labels. */
  ghost function Total<K(!new)>(g: Gauge<K>): int {
    if g.Keys == {} then 0
    else
      var k :| k in g;
      g[k] + Total(g - {k})
  }

  /** The total does not depend on the order in which labels are summed. */
  lemma {:induction false} TotalWithout<K(!new)>(g: Gauge<K>, k: K)
    requires k in g
    ensures Total(g) == g[k] + Total(g - {k})
    decreases |g|
  {
    var j :| j in g && Total(g) == g[j] + Total(g - {j});
    assert |(g - {j}).Keys| < |g.Keys| by {
      assert (g - {j}).Keys == g.Keys - {j};
    }
    if j != k {
      TotalWithout(g - {j}, k);
      assert (g - {k}).Keys == g.Keys - {k};
      TotalWithout(g - {k}, j);
      assert g - {j} - {k} == g - {k} - {j};
    }
  }

  /** Changing one label changes the total by the same amount. */
  lemma TotalAdd<K(!new)>(g: Gauge<K>, k: K, d: int)
    ensures Total(Add(g, k, d)) == Total(g) + d
  {
    var h := Add(g, k, d);
    TotalWithout(h, k);
    if k in g {
      TotalWithout(g, k);
      assert h - {k} == g - {k};
    } else {
      assert h - {k} == g;
    }
  }
}
