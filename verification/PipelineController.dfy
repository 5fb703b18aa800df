/**
 The pipeline reconciler in the form of the source (internal/controller/pipeline_controller.go):
 a method that reads the pipeline, changes its own copy and patches the API server, with early
 returns. Its effect is proved to be a sequence of the steps of module PipelineLifecycle.
 */
module PipelineController {
  import opened Wrappers
  import Tally
  import L = PipelineLifecycle

  /** What one reconcile does when nobody interferes, as a list of model steps. `refsOk` tells
      whether profile, downloader and uploaders could be fetched, `patchOk` whether the API server
      is reachable for patches. */
  function StepsOf(c: L.Cluster, name: string, stages: L.Stages, refsOk: bool, patchOk: bool): seq<L.Step> {
    if name !in c.objects then []
    else
      var obj := c.objects[name];
      [L.Fetch(name)] + (match L.BranchOf(obj, c.now)
        case DropMetrics => [if patchOk then L.DropOnDelete(name) else L.Abandon(name)]
        case DeleteExpired => [L.DeleteByLifetime(name)]
        case AfterCompletion =>
          if L.Metrics in obj.finalizers && !patchOk then [L.Abandon(name)]
          else [L.RecordCompletion(name)] + [if L.Expired(obj, c.now) then L.DeleteByTtl(name) else L.Abandon(name)]
        case NeedPod =>
          if !refsOk then [L.Abandon(name)]
          else [L.GetOrCreatePod(name)] + [LastStep(c, name, stages, patchOk)])
  }

  /** The pipeline lost its metrics finalizer: the gauge goes down. */
  function WithoutMetrics(c: L.Cluster, name: string): L.Cluster
    requires name in c.objects
  {
    var obj := c.objects[name];
    c.(objects := L.PatchFinalizers(c.objects, name, obj.finalizers - {L.Metrics}),
       running := Tally.Add(c.running, obj.spec.labels, -1))
  }

  function AfterDrop(c: L.Cluster, name: string, patchOk: bool): L.Cluster
    requires name in c.objects
  {
    if !patchOk then c
    else WithoutMetrics(c, name).(earlyDecrements := c.earlyDecrements + 1,
      dropped := c.dropped + {c.objects[name].uid})
  }

  function AfterRecord(c: L.Cluster, name: string): L.Cluster
    requires name in c.objects
  {
    var obj := c.objects[name];
    if L.Metrics !in obj.finalizers then c
    else WithoutMetrics(c, name).(completed := Tally.Add(c.completed, (obj.spec.labels, obj.status.phase), 1),
                                  counted := c.counted + {obj.uid})
  }

  function AfterPostCompletion(c: L.Cluster, name: string, patchOk: bool): L.Cluster
    requires name in c.objects
  {
    if L.Metrics in c.objects[name].finalizers && !patchOk then c
    else
      var c' := AfterRecord(c, name);
      if L.Expired(c.objects[name], c.now) then c'.(objects := L.Delete(c'.objects, name)) else c'
  }

  function WithPod(c: L.Cluster, name: string): L.Cluster {
    c.(pods := if name in c.pods then c.pods else c.pods[name := L.Pod(L.PodPending, c.now)])
  }

  function AfterStatus(c: L.Cluster, name: string, after: L.Status): L.Cluster
    requires name in c.objects
  {
    c.(objects := c.objects[name := c.objects[name].(status := after)])
  }

  function AfterAdd(c: L.Cluster, name: string): L.Cluster
    requires name in c.objects && !c.objects[name].deleting
  {
    var obj := c.objects[name];
    c.(objects := L.PatchFinalizers(c.objects, name, obj.finalizers + {L.Metrics}),
       running := Tally.Add(c.running, obj.spec.labels, 1),
       increments := c.increments + 1, incremented := c.incremented + {obj.uid})
  }

  /** The second half of Reconcile, once there is a pod. */
  function AfterPod(c: L.Cluster, name: string, stages: L.Stages, patchOk: bool): L.Cluster
    requires name in c.objects && name in c.pods
  {
    var obj := c.objects[name];
    if !patchOk then c
    else if obj.status.start.None? then AfterStatus(c, name, L.StartedStatus(obj.status, c.pods[name].created))
    else if L.Metrics !in obj.finalizers then (if obj.deleting then c else AfterAdd(c, name))
    else
      match L.StatusForPod(obj.status, c.pods[name].phase, stages, c.now)
      case None => c
      case Some(after) => AfterStatus(c, name, after)
  }

  /** The state one undisturbed reconcile leaves behind. */
  function After(c: L.Cluster, name: string, stages: L.Stages, refsOk: bool, patchOk: bool): L.Cluster {
    if name !in c.objects then c
    else
      match L.BranchOf(c.objects[name], c.now)
      case DropMetrics => AfterDrop(c, name, patchOk)
      case DeleteExpired => c.(objects := L.Delete(c.objects, name))
      case AfterCompletion => AfterPostCompletion(c, name, patchOk)
      case NeedPod => if refsOk then AfterPod(WithPod(c, name), name, stages, patchOk) else c
  }

  /** Executing a first step and then the rest. */
  lemma ExecFirst(c: L.Cluster, a: L.Step, c': L.Cluster, rest: seq<L.Step>)
    requires L.Next(c, a) == Some(c')
    ensures L.Exec(c, [a] + rest) == L.Exec(c', rest)
  {
    assert ([a] + rest)[1..] == rest;
  }

  lemma ExecTwo(c: L.Cluster, a: L.Step, c1: L.Cluster, b: L.Step, c2: L.Cluster)
    requires L.Next(c, a) == Some(c1) && L.Next(c1, b) == Some(c2)
    ensures L.Exec(c, [a] + [b]) == Some(c2)
  {
    ExecFirst(c, a, c1, [b]);
    assert [b] == [b] + [];
    ExecFirst(c1, b, c2, []);
  }

  lemma ExecThree(c: L.Cluster, a: L.Step, c1: L.Cluster, b: L.Step, c2: L.Cluster, d: L.Step, c3: L.Cluster)
    requires L.Next(c, a) == Some(c1) && L.Next(c1, b) == Some(c2) && L.Next(c2, d) == Some(c3)
    ensures L.Exec(c, [a] + ([b] + [d])) == Some(c3)
  {
    ExecFirst(c, a, c1, [b] + [d]);
    ExecTwo(c1, b, c2, d, c3);
  }

  lemma DropRefines(c: L.Cluster, name: string, patchOk: bool)
    requires name !in c.reconciles && name in c.objects && L.BranchOf(c.objects[name], c.now) == L.DropMetrics
    ensures L.Exec(c, [L.Fetch(name)] + [if patchOk then L.DropOnDelete(name) else L.Abandon(name)])
            == Some(AfterDrop(c, name, patchOk))
  {
    if patchOk { PatchedDropRefines(c, name); } else { AbandonRefines(c, name); }
  }

  lemma PatchedDropRefines(c: L.Cluster, name: string)
    requires name !in c.reconciles && name in c.objects && L.BranchOf(c.objects[name], c.now) == L.DropMetrics
    ensures L.Exec(c, [L.Fetch(name)] + [L.DropOnDelete(name)]) == Some(AfterDrop(c, name, true))
  {
    var c1 := L.Next(c, L.Fetch(name)).value;
    var c2 := L.Next(c1, L.DropOnDelete(name)).value;
    assert c2.reconciles == c.reconciles;
    ExecTwo(c, L.Fetch(name), c1, L.DropOnDelete(name), c2);
  }

  lemma LifetimeRefines(c: L.Cluster, name: string)
    requires name !in c.reconciles && name in c.objects && L.BranchOf(c.objects[name], c.now) == L.DeleteExpired
    ensures L.Exec(c, [L.Fetch(name)] + [L.DeleteByLifetime(name)]) == Some(c.(objects := L.Delete(c.objects, name)))
  {
    var c1 := L.Next(c, L.Fetch(name)).value;
    var c2 := L.Next(c1, L.DeleteByLifetime(name)).value;
    assert c2.reconciles == c.reconciles;
    ExecTwo(c, L.Fetch(name), c1, L.DeleteByLifetime(name), c2);
  }

  lemma AbandonRefines(c: L.Cluster, name: string)
    requires name !in c.reconciles && name in c.objects
    ensures L.Exec(c, [L.Fetch(name)] + [L.Abandon(name)]) == Some(c)
  {
    var c1 := L.Next(c, L.Fetch(name)).value;
    assert L.Idle(c1, name).reconciles == c.reconciles;
    ExecTwo(c, L.Fetch(name), c1, L.Abandon(name), c);
  }

  lemma RecordStep(c: L.Cluster, name: string, patchOk: bool, c1: L.Cluster) returns (c2: L.Cluster)
    requires name !in c.reconciles && name in c.objects && L.BranchOf(c.objects[name], c.now) == L.AfterCompletion
    requires c1 == c.(reconciles := c.reconciles[name := L.Fetched(c.objects[name])])
    ensures L.NextRecordCompletion(c1, name) == Some(c2)
    ensures c2 == AfterRecord(c, name).(reconciles := c.reconciles[name := L.Recorded(c.objects[name])])
  {
    assert c1.reconciles[name := L.Recorded(c.objects[name])] == c.reconciles[name := L.Recorded(c.objects[name])];
    c2 := L.NextRecordCompletion(c1, name).value;
  }

  lemma PostCompletionRefines(c: L.Cluster, name: string, patchOk: bool)
    requires name !in c.reconciles && name in c.objects && L.BranchOf(c.objects[name], c.now) == L.AfterCompletion
    requires L.Metrics in c.objects[name].finalizers ==> patchOk
    ensures L.Exec(c, [L.Fetch(name)] + ([L.RecordCompletion(name)] +
              [if L.Expired(c.objects[name], c.now) then L.DeleteByTtl(name) else L.Abandon(name)]))
         == Some(AfterPostCompletion(c, name, patchOk))
  {
    var last := if L.Expired(c.objects[name], c.now) then L.DeleteByTtl(name) else L.Abandon(name);
    var c1 := c.(reconciles := c.reconciles[name := L.Fetched(c.objects[name])]);
    var c2 := RecordStep(c, name, patchOk, c1);
    var c3 := LastOfPostCompletion(c, name, patchOk, c2, last);
    assert L.Next(c, L.Fetch(name)) == Some(c1);
    ExecThree(c, L.Fetch(name), c1, L.RecordCompletion(name), c2, last, c3);
  }

  lemma LastOfPostCompletion(c: L.Cluster, name: string, patchOk: bool, c2: L.Cluster, last: L.Step)
    returns (c3: L.Cluster)
    requires name !in c.reconciles && name in c.objects && (L.Metrics in c.objects[name].finalizers ==> patchOk)
    requires c2 == AfterRecord(c, name).(reconciles := c.reconciles[name := L.Recorded(c.objects[name])])
    requires last == if L.Expired(c.objects[name], c.now) then L.DeleteByTtl(name) else L.Abandon(name)
    ensures L.Next(c2, last) == Some(c3) && c3 == AfterPostCompletion(c, name, patchOk)
  {
    c3 := L.Next(c2, last).value;
    assert c3.reconciles == c.reconciles;
  }

  /** The step that ends a reconcile that has a pod. */
  function LastStep(c: L.Cluster, name: string, stages: L.Stages, patchOk: bool): L.Step
    requires name in c.objects
  {
    var obj := c.objects[name];
    var phase := if name in c.pods then c.pods[name].phase else L.PodPending;
    if obj.status.start.None? then (if patchOk then L.WriteStart(name) else L.Abandon(name))
    else if L.Metrics !in obj.finalizers then
      (if patchOk && !obj.deleting then L.AddFinalizer(name) else L.Abandon(name))
    else if patchOk && phase != L.PodUnknown then L.WriteProgress(name, stages)
    else L.Abandon(name)
  }

  /** The same state with a reconcile of `name` in flight that holds the stored object and its pod. */
  function Holding(c: L.Cluster, name: string): L.Cluster
    requires name in c.objects && name in c.pods
  {
    c.(reconciles := c.reconciles[name := L.HavePod(c.objects[name], c.pods[name])])
  }

  lemma StartRefines(c: L.Cluster, name: string, stages: L.Stages, patchOk: bool)
    requires name !in c.reconciles && name in c.objects && name in c.pods && c.objects[name].status.start.None?
    ensures L.Next(Holding(c, name), LastStep(c, name, stages, patchOk)) == Some(AfterPod(c, name, stages, patchOk))
  {
    var c3 := L.Next(Holding(c, name), LastStep(c, name, stages, patchOk)).value;
    assert c3.reconciles == c.reconciles;
  }

  lemma AddRefines(c: L.Cluster, name: string, stages: L.Stages, patchOk: bool)
    requires name !in c.reconciles && name in c.objects && name in c.pods && c.objects[name].status.start.Some?
    requires L.Metrics !in c.objects[name].finalizers
    ensures L.Next(Holding(c, name), LastStep(c, name, stages, patchOk)) == Some(AfterPod(c, name, stages, patchOk))
  {
    var c3 := L.Next(Holding(c, name), LastStep(c, name, stages, patchOk)).value;
    assert c3.reconciles == c.reconciles;
  }

  lemma ProgressRefines(c: L.Cluster, name: string, stages: L.Stages, patchOk: bool)
    requires name !in c.reconciles && name in c.objects && name in c.pods && c.objects[name].status.start.Some?
    requires L.Metrics in c.objects[name].finalizers
    ensures L.Next(Holding(c, name), LastStep(c, name, stages, patchOk)) == Some(AfterPod(c, name, stages, patchOk))
  {
    var c3 := L.Next(Holding(c, name), LastStep(c, name, stages, patchOk)).value;
    assert c3.reconciles == c.reconciles;
  }

  lemma PodRefines(c: L.Cluster, name: string, stages: L.Stages, patchOk: bool)
    requires name !in c.reconciles && name in c.objects && L.BranchOf(c.objects[name], c.now) == L.NeedPod
    ensures L.Exec(c, [L.Fetch(name)] + ([L.GetOrCreatePod(name)] + [LastStep(c, name, stages, patchOk)]))
         == Some(AfterPod(WithPod(c, name), name, stages, patchOk))
  {
    var last := LastStep(c, name, stages, patchOk);
    var withPod := WithPod(c, name);
    assert LastStep(withPod, name, stages, patchOk) == last;
    var c1 := c.(reconciles := c.reconciles[name := L.Fetched(c.objects[name])]);
    assert L.Next(c, L.Fetch(name)) == Some(c1);
    var c2 := L.Next(c1, L.GetOrCreatePod(name)).value;
    assert c2 == Holding(withPod, name) by {
      assert c2.pods == withPod.pods;
    }
    if c.objects[name].status.start.None? { StartRefines(withPod, name, stages, patchOk); }
    else if L.Metrics !in c.objects[name].finalizers { AddRefines(withPod, name, stages, patchOk); }
    else { ProgressRefines(withPod, name, stages, patchOk); }
    ExecThree(c, L.Fetch(name), c1, L.GetOrCreatePod(name), c2, last, AfterPod(withPod, name, stages, patchOk));
  }

  /** An undisturbed reconcile is an execution of model steps: everything PipelineLifecycle proves
      about all runs holds of runs of the method below. */
  lemma ReconcileRefinesSteps(c: L.Cluster, name: string, stages: L.Stages, refsOk: bool, patchOk: bool)
    requires name !in c.reconciles
    ensures L.Exec(c, StepsOf(c, name, stages, refsOk, patchOk)) == Some(After(c, name, stages, refsOk, patchOk))
  {
    if name in c.objects {
      var obj := c.objects[name];
      match L.BranchOf(obj, c.now)
      case DropMetrics => DropRefines(c, name, patchOk);
      case DeleteExpired => LifetimeRefines(c, name);
      case AfterCompletion =>
        if L.Metrics in obj.finalizers && !patchOk {
          AbandonRefines(c, name);
        } else {
          PostCompletionRefines(c, name, patchOk);
        }
      case NeedPod =>
        if refsOk { PodRefines(c, name, stages, patchOk); } else { AbandonRefines(c, name); }
    }
  }

  /** The pipeline has not exceeded its maximum lifetime. */
  predicate WithinLifetime(obj: L.Object, now: int) {
    obj.spec.maxLifetime.Some? ==> now - obj.created <= obj.spec.maxLifetime.value
  }

  predicate FreshPipeline(c: L.Cluster, name: string) {
    && name in c.objects && name !in c.pods
    && c.objects[name].status == L.NEW_STATUS && !c.objects[name].deleting && L.Metrics !in c.objects[name].finalizers
    && WithinLifetime(c.objects[name], c.now)
  }

  /** Two undisturbed reconciles take a new pipeline to its running state: started, with the
      finalizer, and one higher in the gauge of its label. */
  lemma TwoReconcilesStart(c: L.Cluster, name: string, stages: L.Stages)
    requires FreshPipeline(c, name)
    ensures var c2 := After(After(c, name, stages, true, true), name, stages, true, true);
            && c2.objects == c.objects[name := c.objects[name].(finalizers := c.objects[name].finalizers + {L.Metrics},
                 status := L.Status(Some(c.now), None, L.Downloading, [L.ScanPodCreated]))]
            && c2.pods == c.pods[name := L.Pod(L.PodPending, c.now)]
            && c2.running == Tally.Add(c.running, c.objects[name].spec.labels, 1)
            && c2.completed == c.completed && c2.now == c.now
  {
    var c1 := After(c, name, stages, true, true);
    assert c1.objects[name].status == L.Status(Some(c.now), None, L.Downloading, [L.ScanPodCreated]);
    var c2 := After(c1, name, stages, true, true);
    assert c2.objects[name].finalizers == c.objects[name].finalizers + {L.Metrics};
  }

  /** Once its pod has ended, two more reconciles complete it: the finalizer is gone, the gauge is
      back where it was, and the completed counter of its label and phase went up by one. A pipeline
      without time to live after its end is deleted by the second of them. */
  lemma TwoReconcilesFinish(c: L.Cluster, name: string, stages: L.Stages, phase: L.Phase)
    requires name in c.objects && name in c.pods
    requires phase == L.Succeeded || phase == L.Failed
    requires c.pods[name].phase == L.PodPhaseFor(phase)
    requires var obj := c.objects[name];
      && !obj.deleting && L.Metrics in obj.finalizers && WithinLifetime(obj, c.now)
      && obj.status.start.Some? && obj.status.completion.None? && obj.status.conditions == [L.ScanPodCreated]
    ensures var c2 := After(After(c, name, stages, true, true), name, stages, true, true);
            var labels := c.objects[name].spec.labels;
            var done := c.objects[name := c.objects[name].(finalizers := c.objects[name].finalizers - {L.Metrics},
              status := L.Status(c.objects[name].status.start, Some(c.now), phase,
                [L.ScanPodCreated, L.ConditionFor(phase)]))];
            var ttl := c.objects[name].spec.ttl;
            && c2.objects == (if ttl.Some? && ttl.value <= 0 then L.Delete(done, name) else done)
            && c2.pods == c.pods
            && c2.running == Tally.Add(c.running, labels, -1)
            && c2.completed == Tally.Add(c.completed, (labels, phase), 1)
  {
    var c1 := After(c, name, stages, true, true);
    var status := L.Status(c.objects[name].status.start, Some(c.now), phase, [L.ScanPodCreated, L.ConditionFor(phase)]);
    assert c1.objects[name].status == status;
    assert c1 == AfterStatus(c, name, status);
    RecordsCompletion(c1, name, stages, phase);
    var finished := c.objects[name].finalizers - {L.Metrics};
    assert c1.objects[name := c1.objects[name].(finalizers := finished)]
      == c.objects[name := c.objects[name].(finalizers := finished, status := status)];
  }

  /** The reconcile of a pipeline that has just been completed. */
  lemma RecordsCompletion(c: L.Cluster, name: string, stages: L.Stages, phase: L.Phase)
    requires name in c.objects && L.Metrics in c.objects[name].finalizers && !c.objects[name].deleting
    requires WithinLifetime(c.objects[name], c.now) && c.objects[name].status.start.Some?
    requires c.objects[name].status.completion == Some(c.now) && c.objects[name].status.phase == phase
    ensures var c' := After(c, name, stages, true, true);
            var obj := c.objects[name];
            var done := c.objects[name := obj.(finalizers := obj.finalizers - {L.Metrics})];
            && c'.objects == (if obj.spec.ttl.Some? && obj.spec.ttl.value <= 0 then L.Delete(done, name) else done)
            && c'.pods == c.pods && c'.running == Tally.Add(c.running, obj.spec.labels, -1)
            && c'.completed == Tally.Add(c.completed, (obj.spec.labels, phase), 1)
  {
  }

  // ----- a relabelled pipeline -----

  lemma {:induction false} ExecAppend(c: L.Cluster, a: seq<L.Step>, mid: L.Cluster, b: seq<L.Step>)
    requires L.Exec(c, a) == Some(mid)
    ensures L.Exec(c, a + b) == L.Exec(mid, b)
    decreases |a|
  {
    if a == [] {
      assert a + b == b;
    } else {
      var c' := L.Next(c, a[0]).value;
      assert L.Exec(c, a) == L.Exec(c', a[1..]);
      ExecAppend(c', a[1..], mid, b);
      assert (a + b)[1..] == a[1..] + b && (a + b)[0] == a[0];
    }
  }

  /** A pipeline is created and reconciled twice. */
  lemma StartedRun(name: string, spec: L.Spec, stages: L.Stages) returns (steps: seq<L.Step>, c: L.Cluster)
    requires spec.maxLifetime.None?
    ensures L.Exec(L.EMPTY, steps) == Some(c)
    ensures c.objects.Keys == {name} && c.objects[name].spec == spec && L.Metrics in c.objects[name].finalizers
    ensures c.running == Tally.Add(map[], spec.labels, 1)
  {
    var create := L.Create(name, spec, {});
    var c1 := L.Next(L.EMPTY, create).value;
    assert [create] == [create] + [];
    ExecFirst(L.EMPTY, create, c1, []);
    var rest;
    rest, c := TwiceReconciled(c1, name, stages);
    steps := [create] + rest;
    ExecAppend(L.EMPTY, [create], c1, rest);
  }

  lemma TwiceReconciled(c: L.Cluster, name: string, stages: L.Stages) returns (steps: seq<L.Step>, c2: L.Cluster)
    requires name !in c.reconciles && FreshPipeline(c, name)
    ensures L.Exec(c, steps) == Some(c2) && c2 == After(After(c, name, stages, true, true), name, stages, true, true)
    ensures name in c2.objects && c2.objects == c.objects[name := c2.objects[name]]
        && c2.objects[name].spec == c.objects[name].spec
    ensures L.Metrics in c2.objects[name].finalizers
        && c2.running == Tally.Add(c.running, c.objects[name].spec.labels, 1)
  {
    var c1 := After(c, name, stages, true, true);
    c2 := After(c1, name, stages, true, true);
    ReconcileRefinesSteps(c, name, stages, true, true);
    ReconcileRefinesSteps(c1, name, stages, true, true);
    TwoReconcilesStart(c, name, stages);
    steps := StepsOf(c, name, stages, true, true) + StepsOf(c1, name, stages, true, true);
    ExecAppend(c, StepsOf(c, name, stages, true, true), c1, StepsOf(c1, name, stages, true, true));
  }

  /** A run from the empty cluster in which the labels of a running pipeline are changed: the gauge of the
      old label still counts it, and that of the new one does not. */
  lemma Relabelled(name: string, spec: L.Spec, labels: L.Labels, stages: L.Stages)
    returns (steps: seq<L.Step>, c: L.Cluster)
    requires spec.maxLifetime.None? && labels != spec.labels
    ensures L.Exec(L.EMPTY, steps) == Some(c)
    ensures |L.HoldersWith(c.objects, labels)| == 1 && Tally.Read(c.running, labels) == 0
    ensures |L.HoldersWith(c.objects, spec.labels)| == 0 && Tally.Read(c.running, spec.labels) == 1
  {
    var first, c1 := StartedRun(name, spec, stages);
    var update := L.UpdateSpec(name, spec.(labels := labels));
    c := L.Next(c1, update).value;
    assert [update] == [update] + [];
    ExecFirst(c1, update, c, []);
    steps := first + [update];
    ExecAppend(L.EMPTY, first, c1, [update]);
    OneHolder(c, name, spec, labels);
  }

  lemma OneHolder(c: L.Cluster, name: string, spec: L.Spec, labels: L.Labels)
    requires c.objects.Keys == {name} && L.Metrics in c.objects[name].finalizers
    requires c.objects[name].spec.labels == labels != spec.labels
    ensures |L.HoldersWith(c.objects, labels)| == 1 && |L.HoldersWith(c.objects, spec.labels)| == 0
  {
    assert L.HoldersWith(c.objects, labels) == {name} && L.HoldersWith(c.objects, spec.labels) == {};
  }

  /** What handleCompletion makes of a status, given the phase of the pod. */
  ghost predicate IsProgress(before: L.Status, after: L.Status, phase: L.PodPhase, stages: L.Stages, now: int) {
    && after.start == before.start
    && (phase == L.PodSucceeded ==>
         && after.phase == L.Succeeded && after.completion == Some(now)
         && after.conditions == before.conditions + [L.CompletedSuccessfully])
    && (phase == L.PodFailed ==>
         && after.phase == L.Failed && after.completion == Some(now)
         && after.conditions == before.conditions + [L.CompletedWithFailure])
    && (phase == L.PodRunning ==>
         && (stages.downloading ==> after.phase == L.Downloading)
         && (!stages.downloading && stages.scanning ==> after.phase == L.Scanning)
         && (!stages.downloading && !stages.scanning && !stages.uploadSkipped ==> after.phase == L.Uploading)
         && (!stages.downloading && !stages.scanning && stages.uploadSkipped ==> after.phase == before.phase))
    && (phase == L.PodPending ==> after.phase == L.Succeeded)
    && (phase == L.PodUnknown ==> after == before)
    && (phase == L.PodRunning || phase == L.PodPending ==>
         after.completion == before.completion && after.conditions == before.conditions)
  }

  /** What the second half of a reconcile makes of a pipeline that has not ended: first the start time, then
      the finalizer, then the progress of its pod. */
  ghost predicate Advances(obj: L.Object, obj': L.Object, pod: L.Pod, stages: L.Stages, now: int) {
    if obj.status.start.None? then
      obj' == obj.(status := obj.status.(start := Some(pod.created), phase := L.Downloading,
                                         conditions := obj.status.conditions + [L.ScanPodCreated]))
    else if L.Metrics !in obj.finalizers then
      obj' == if obj.deleting then obj else obj.(finalizers := obj.finalizers + {L.Metrics})
    else obj' == obj.(status := obj'.status) && IsProgress(obj.status, obj'.status, pod.phase, stages, now)
  }

  class Reconciler {
    // the API server's store, as this controller sees it
    var objects: map<string, L.Object>
    var pods: map<string, L.Pod>
    const now: int
    ghost const reconciles: map<string, L.Progress>   // in flight for other pipelines
    ghost const nextUid: nat
    // the metrics registry
    var running: Tally.Gauge<L.Labels>
    var completed: Tally.Gauge<(L.Labels, L.Phase)>
    // history of metric updates
    ghost var increments: nat
    ghost var incremented: set<nat>
    ghost var counted: set<nat>
    ghost var earlyDecrements: nat
    ghost var dropped: set<nat>

    ghost function View(): L.Cluster
      reads this
    {
      L.Cluster(objects, pods, reconciles, now, nextUid, running, completed,
                increments, incremented, counted, earlyDecrements, dropped)
    }

    /** Patches the finalizer list; the answer carries the stored object. */
    method PatchFinalizers(name: string, finalizers: set<L.Finalizer>, patchOk: bool) returns (stored: Option<L.Object>)
      modifies this`objects
      ensures stored.Some? <==> patchOk && L.AcceptsFinalizers(old(objects), name, finalizers)
      ensures stored.Some?
          ==> stored.value == old(objects)[name] && objects == L.PatchFinalizers(old(objects), name, finalizers)
      ensures stored.None? ==> objects == old(objects)
    {
      if !patchOk || !L.AcceptsFinalizers(objects, name, finalizers) {
        return None;
      }
      stored := Some(objects[name]);
      objects := L.PatchFinalizers(objects, name, finalizers);
    }

    method PatchStatus(name: string, before: L.Status, after: L.Status, patchOk: bool)
      requires name in objects
      modifies this`objects
      ensures objects == if patchOk
        then old(objects)[name := old(objects)[name].(status := L.MergePatch(old(objects)[name].status, before, after))]
        else old(objects)
      ensures patchOk ==>
        var status, status' := old(objects)[name].status, objects[name].status;
        && status'.start == (if before.start == after.start then status.start else after.start)
        && status'.completion ==
          (if before.completion == after.completion then status.completion else after.completion)
        && status'.phase == (if before.phase == after.phase then status.phase else after.phase)
        && status'.conditions ==
          (if before.conditions == after.conditions then status.conditions else after.conditions)
    {
      if patchOk {
        var stored := objects[name];
        objects := objects[name := stored.(status := L.MergePatch(stored.status, before, after))];
      }
    }

    method HandlePostCompletion(name: string, pipeline: L.Object, patchOk: bool)
      requires name in objects && objects[name] == pipeline && pipeline.status.completion.Some?
      requires !(pipeline.deleting && L.Metrics in pipeline.finalizers)
      modifies this
      ensures View() == AfterPostCompletion(old(View()), name, patchOk)
      ensures !patchOk && L.Metrics in old(objects)[name].finalizers ==> View() == old(View())
      ensures var obj := old(objects)[name];
        var kept := obj.finalizers - {L.Metrics};
        patchOk || L.Metrics !in obj.finalizers ==>
          && objects - {name} == old(objects) - {name} && pods == old(pods)
          && (if obj.spec.ttl.Some? && obj.status.completion.value + obj.spec.ttl.value <= now then
                if kept == {} then name !in objects
                else name in objects && objects[name] == obj.(finalizers := kept, deleting := true)
              else name in objects && objects[name] == obj.(finalizers := kept))
      ensures var obj := old(objects)[name];
        patchOk && L.Metrics in obj.finalizers ==>
          && running == Tally.Add(old(running), obj.spec.labels, -1)
          && completed == Tally.Add(old(completed), (obj.spec.labels, obj.status.phase), 1)
      ensures L.Metrics !in old(objects)[name].finalizers ==> running == old(running) && completed == old(completed)
    {
      if L.Metrics in pipeline.finalizers {
        var answer := PatchFinalizers(name, pipeline.finalizers - {L.Metrics}, patchOk);
        if answer == None {
          return;
        }
        var stored := answer.value;
        running := Tally.Add(running, stored.spec.labels, -1);
        completed := Tally.Add(completed, (stored.spec.labels, stored.status.phase), 1);
        counted := counted + {stored.uid};
      }
      if pipeline.spec.ttl == None {
        return;
      }
      var wait := pipeline.status.completion.value + pipeline.spec.ttl.value - now;
      if wait <= 0 {
        objects := L.Delete(objects, name);
      }
    }

    /** One reconcile: it leaves exactly the state `After`, which ReconcileRefinesSteps shows to be
        an execution of model steps. */
    method Reconcile(name: string, stages: L.Stages, refsOk: bool, patchOk: bool)
      modifies this
      ensures View() == After(old(View()), name, stages, refsOk, patchOk)
      // a pipeline that is gone
      ensures name !in old(objects) ==> View() == old(View())
      // one that is deleted before its end gives the finalizer back
      ensures name in old(objects) && old(objects)[name].deleting && L.Metrics in old(objects)[name].finalizers ==>
        var obj := old(objects)[name];
        && (!patchOk ==> View() == old(View()))
        && (patchOk ==>
             && objects - {name} == old(objects) - {name} && pods == old(pods) && completed == old(completed)
             && running == Tally.Add(old(running), obj.spec.labels, -1)
             && (if obj.finalizers == {L.Metrics} then name !in objects
                 else name in objects && objects[name] == obj.(finalizers := obj.finalizers - {L.Metrics})))
      // one that has lived too long is deleted, and no other
      ensures (
        && name in old(objects) && !(old(objects)[name].deleting && L.Metrics in old(objects)[name].finalizers)
        && old(objects)[name].spec.maxLifetime.Some?
        && now - old(objects)[name].created > old(objects)[name].spec.maxLifetime.value) ==>
        && objects - {name} == old(objects) - {name} && pods == old(pods)
        && running == old(running) && completed == old(completed)
        && (if old(objects)[name].finalizers == {} then name !in objects
            else name in objects && objects[name] == old(objects)[name].(deleting := true))
      // one that has ended is deleted exactly if its time to live is over, once its metrics are recorded
      ensures (
        && name in old(objects) && !(old(objects)[name].deleting && L.Metrics in old(objects)[name].finalizers)
        && !(old(objects)[name].spec.maxLifetime.Some?
             && now - old(objects)[name].created > old(objects)[name].spec.maxLifetime.value)
        && old(objects)[name].status.completion.Some?) ==>
        var obj := old(objects)[name];
        var kept := obj.finalizers - {L.Metrics};
        && (!patchOk && L.Metrics in obj.finalizers ==> View() == old(View()))
        && (patchOk || L.Metrics !in obj.finalizers ==>
             && objects - {name} == old(objects) - {name} && pods == old(pods)
             && (if obj.spec.ttl.Some? && obj.status.completion.value + obj.spec.ttl.value <= now then
                   if kept == {} then name !in objects
                   else name in objects && objects[name] == obj.(finalizers := kept, deleting := true)
                 else name in objects && objects[name] == obj.(finalizers := kept)))
      // otherwise nothing happens before profile, downloader and uploaders are there, and then there is a pod
      ensures (
        && name in old(objects) && !(old(objects)[name].deleting && L.Metrics in old(objects)[name].finalizers)
        && !(old(objects)[name].spec.maxLifetime.Some?
             && now - old(objects)[name].created > old(objects)[name].spec.maxLifetime.value)
        && old(objects)[name].status.completion.None?) ==>
        && (!refsOk ==> View() == old(View()))
        && (refsOk ==>
             && completed == old(completed)
             && pods == if name in old(pods) then old(pods) else old(pods)[name := L.Pod(L.PodPending, now)])
        && (refsOk && !patchOk ==> objects == old(objects) && running == old(running))
        && (refsOk && patchOk ==>
             && objects - {name} == old(objects) - {name} && name in objects
             && Advances(old(objects)[name], objects[name], pods[name], stages, now))
    {
      if name !in objects {
        return;
      }
      var pipeline := objects[name];

      var wasDeleted := pipeline.deleting;
      if wasDeleted && L.Metrics in pipeline.finalizers {
        DropMetricsOnDelete(name, pipeline, patchOk);
        return;
      }

      if pipeline.spec.maxLifetime != None && now - pipeline.created > pipeline.spec.maxLifetime.value {
        objects := L.Delete(objects, name);
        return;
      }

      if pipeline.status.completion != None {
        HandlePostCompletion(name, pipeline, patchOk);
        return;
      }

      if !refsOk {
        return;
      }

      if name !in pods {
        pods := pods[name := L.Pod(L.PodPending, now)];
      }
      ReconcileWithPod(name, pipeline, pods[name], stages, patchOk);
    }

    /** The first exit of Reconcile: a deleted pipeline gives its finalizer back. */
    method DropMetricsOnDelete(name: string, pipeline: L.Object, patchOk: bool)
      requires name in objects && objects[name] == pipeline
      modifies this
      ensures View() == AfterDrop(old(View()), name, patchOk)
      ensures !patchOk ==> View() == old(View())
      ensures patchOk ==>
        && objects - {name} == old(objects) - {name} && pods == old(pods) && completed == old(completed)
        && running == Tally.Add(old(running), pipeline.spec.labels, -1)
        && (if pipeline.deleting && pipeline.finalizers - {L.Metrics} == {} then name !in objects
            else name in objects && objects[name] == pipeline.(finalizers := pipeline.finalizers - {L.Metrics}))
    {
      var answer := PatchFinalizers(name, pipeline.finalizers - {L.Metrics}, patchOk);
      if answer != None {
        var stored := answer.value;
        running := Tally.Add(running, stored.spec.labels, -1);
        earlyDecrements, dropped := earlyDecrements + 1, dropped + {stored.uid};
      }
    }

    /** The second half of Reconcile. */
    method ReconcileWithPod(name: string, pipeline: L.Object, scanPod: L.Pod, stages: L.Stages, patchOk: bool)
      requires name in objects && objects[name] == pipeline
      requires name in pods && pods[name] == scanPod
      modifies this
      ensures View() == AfterPod(old(View()), name, stages, patchOk)
      ensures pods == old(pods) && completed == old(completed) && (!patchOk ==> View() == old(View()))
      ensures patchOk && pipeline.status.start.None? ==>
        && objects == old(objects)[name := pipeline.(status := pipeline.status.(start := Some(scanPod.created),
             phase := L.Downloading, conditions := pipeline.status.conditions + [L.ScanPodCreated]))]
        && running == old(running)
      ensures patchOk && pipeline.status.start.Some? && L.Metrics !in pipeline.finalizers ==>
        if pipeline.deleting then View() == old(View())
        else
          && objects == old(objects)[name := pipeline.(finalizers := pipeline.finalizers + {L.Metrics})]
          && running == Tally.Add(old(running), pipeline.spec.labels, 1)
      ensures patchOk && pipeline.status.start.Some? && L.Metrics in pipeline.finalizers ==>
        && running == old(running)
        && objects.Keys == old(objects).Keys && objects - {name} == old(objects) - {name}
        && objects[name] == pipeline.(status := objects[name].status)
        && IsProgress(pipeline.status, objects[name].status, scanPod.phase, stages, now)
    {
      if pipeline.status.start != None {
        if L.Metrics !in pipeline.finalizers {
          var answer := PatchFinalizers(name, pipeline.finalizers + {L.Metrics}, patchOk);
          if answer != None {
            var stored := answer.value;
            running := Tally.Add(running, stored.spec.labels, 1);
            increments, incremented := increments + 1, incremented + {stored.uid};
          }
          return;
        }
        var after := HandleCompletion(pipeline.status, scanPod.phase, stages);
        if after != None {
          PatchStatus(name, pipeline.status, after.value, patchOk);
        }
        return;
      }

      var status := pipeline.status;
      status := status.(conditions := status.conditions + [L.ScanPodCreated]);
      status := status.(start := Some(scanPod.created));
      status := status.(phase := L.Downloading);
      PatchStatus(name, pipeline.status, status, patchOk);
    }

    /** The status switch of handleCompletion. */
    method HandleCompletion(before: L.Status, phase: L.PodPhase, stages: L.Stages) returns (after: Option<L.Status>)
      ensures after == L.StatusForPod(before, phase, stages, now)
      ensures after.None? <==> phase == L.PodUnknown
      ensures after.Some? ==> after.value.start == before.start
      ensures phase == L.PodSucceeded ==>
        && after.value.phase == L.Succeeded && after.value.completion == Some(now)
        && after.value.conditions == before.conditions + [L.CompletedSuccessfully]
      ensures phase == L.PodFailed ==>
        && after.value.phase == L.Failed && after.value.completion == Some(now)
        && after.value.conditions == before.conditions + [L.CompletedWithFailure]
      ensures phase == L.PodRunning || phase == L.PodPending ==>
        after.value.completion == before.completion && after.value.conditions == before.conditions
      ensures phase == L.PodRunning ==>
        after.value.phase ==
          if stages.downloading then L.Downloading
          else if stages.scanning then L.Scanning
          else if stages.uploadSkipped then before.phase else L.Uploading
      ensures phase == L.PodPending ==> after.value.phase == L.Succeeded
    {
      var status := before;
      match phase {
        case PodSucceeded =>
          status := status.(phase := L.Succeeded);
          status := status.(completion := Some(now));
          status := status.(conditions := status.conditions + [L.CompletedSuccessfully]);
        case PodFailed =>
          status := status.(phase := L.Failed);
          status := status.(completion := Some(now));
          status := status.(conditions := status.conditions + [L.CompletedWithFailure]);
        case PodRunning =>
          if stages.downloading {
            status := status.(phase := L.Downloading);
          } else if stages.scanning {
            status := status.(phase := L.Scanning);
          } else if !stages.uploadSkipped {
            status := status.(phase := L.Uploading);
          }
        case PodPending =>
          status := status.(phase := L.Succeeded);
        case PodUnknown =>
          return None;
      }
      after := Some(status);
    }
  }
}
