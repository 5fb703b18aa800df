/** Label maps and how the scheduler merges them (internal/utils/maps.go). */
module Labels {
  import opened Wrappers

  type LabelMap = map<string, string>

  const SCHEDULED_BY := "ocular.crashoverride.run/scheduledBy"

  /** The name of the search that scheduled an object, read from its labels. */
  function ScheduledBy(labels: LabelMap): Option<string> {
    if SCHEDULED_BY in labels then Some(labels[SCHEDULED_BY]) else None
  }

  /** Copies both maps into a fresh one; entries of `override` win. */
  method MergeMaps<K, V>(base: map<K, V>, override: map<K, V>) returns (merged: map<K, V>)
    ensures merged == base + override
  {
    merged := map[];
    merged := CopyInto(merged, base);
    assert merged == base;
    merged := CopyInto(merged, override);
  }

  method CopyInto<K, V>(dst: map<K, V>, src: map<K, V>) returns (res: map<K, V>)
    ensures res == dst + src
  {
    res := dst;
    var left := src.Keys;
    ghost var done: set<K> := {};
    while left != {}
      invariant done + left == src.Keys && done !! left
      invariant res == dst + (map k | k in done :: src[k])
      decreases left
    {
      var k :| k in left;
      res := res[k := src[k]];
      left := left - {k};
      done := done + {k};
    }
    assert (map k | k in done :: src[k]) == src;
  }

  /** The labels of a scheduled pipeline: whatever the template says, the scheduling search is recorded. */
  lemma ScheduledBySurvivesMerge(template: LabelMap, search: string)
    ensures ScheduledBy(template + map[SCHEDULED_BY := search]) == Some(search)
    ensures forall k :: k in template && k != SCHEDULED_BY ==>
      k in template + map[SCHEDULED_BY := search] && (template + map[SCHEDULED_BY := search])[k] == template[k]
  {
  }
}
