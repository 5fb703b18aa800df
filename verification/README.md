# Ocular: completion, metrics, schedules, barriers and admission

A Dafny model of the controllers, webhooks and in-pod wrappers of Ocular, with proofs. It has six parts.

1. **Search tree** (`FifoScheduler`, `SchedulerWorkers`, `Labels`, `SearchTree`, `SearchProtocol`, `SearchCompletion`,
   `SearchLineage`, `SearchTreeRuns`, `SearchController`, `SearchReconciler`). The scheduler of a search turns values
   from two FIFOs into child pipelines and child searches. The search controller writes a completion time only after
   it has read a terminal pod and then two empty lists of unfinished children. Pods may be killed, evicted or deleted
   and objects deleted at any moment. Main results: `SearchProtocol.InvStepIff` says exactly which step breaks the
   protocol; `SearchCompletion.CompletedTreeIsFinished` and `SearchLineage.WholeTreeIsCompleted` say what a completion
   time means for the whole tree below; `SearchLineage.StepProtectsIff` says exactly which step breaks that.
2. **Pipelines and the metrics finalizer** (`Tally`, `PipelineLifecycle`, `PipelineController`). Any number of
   pipelines, with reconciles that work on a copy, deletions, failed patches and foreign finalizers in between. Main
   results: `PipelineLifecycle.GaugeCountsHolders`, `IncrementsAreConserved`, `CompletionIsConsistent`,
   `TimesNeverChange`, `ExactUnlessRelabelled`, `GaugesAreExact`. The imperative reconciler is proved to be an execution of the
   model's steps (`PipelineController.ReconcileRefinesSteps`).
3. **CronSearch** (`CronSchedule`, `CronNaming`, `CronHistory`, `CronSearchController`, `CronRuns`, `CronRepeats`). The
   bounded search for missed activations, naming, concurrency policies and pruning, and what they give over whole runs:
   `CronRuns.RepeatsIff` says exactly when an activation runs twice, `SparedRunsIncrease` when none does.
4. **Scan pod and barrier** (`Words`, `Containers`, `ScanPod`, `Subprocess`, `Sidecar`, `Barrier`). Building the pod
   keeps each user's argument vector, every container sees its parameters and its pipeline, and uploaders wait for
   exactly the marks that the scanners write; `Barrier.BarrierOpensIff` says exactly when they are released.
5. **Parameters** (`Parameters`, `ParameterVariables`). How settings resolve, that validation and runtime agree, and
   that containers get the resolved values.
6. **Admission** (`Admission`, `AdmissionRuns`). Referential integrity and required parameters over any history of
   requests, and from an admitted pipeline to the barrier of its pod.

Protocols are step machines: a state, a deterministic step function, and lists of steps that choose the interleaving.
Code that changes state or loops is written as methods and classes, proved against specification functions about which
the lemmas speak. `Wrappers` holds two result types.

## Assumptions

- Reconciles of one object are serialised. Reads are up to date, except where a property says that a list may be stale.
- The API server keeps names unique, keeps a deleted object until its finalizers are gone, and refuses new finalizers
  on it. Requests are admitted one at a time; profiles, downloaders, crawlers and uploaders carry no finalizers.
- A pod's terminal phase is absorbing. The clock is monotone. Durations do not overflow.
- The controller does not restart while the gauge is reasoned about, and a successful finalizer patch and its gauge
  update are one step.
- Nobody but the scheduler writes the `scheduledBy` label, and nobody but the controller the metrics finalizer.
- Children of a deleted object that are garbage collected by their owner reference are deletions like any other: they
  may happen, and need not.
- A CronSearch may be edited at any time. Names and activations are kept apart whatever is edited; results on the order
  of activations hold as long as the schedule stays, those on a policy as long as the policy stays.
- Names of containers are DNS labels and distinct within a pod, as Kubernetes demands.

## Where the code is weaker than one might expect

- A Create request of a search pod may be granted after the search has been completed, which leaves an unfinished
  child below it. A step breaks the protocol if and only if it is such a late answer (`SearchProtocol.InvStepIff`).
  There is none as long as no pod ends or is deleted while one of its requests is on its way
  (`SearchCompletion.CleanRunsAreInTime`), and a wrapper does not exit so by itself unless a worker has given up on its
  request (`SearchCompletion.GentleRunsAreInTime`). `SearchTreeRuns.KilledMidRequest` and `GivenUpMidRequest` are runs
  from the empty namespace, with a killed pod and without one.
- A search is completed on its direct children only. If a search is deleted before it is completed, searches that are
  stored above it may be completed while searches or pipelines below it are not (`SearchTreeRuns.DeletedBetween`).
  All searches on the way to unfinished work stay unfinished in a step if and only if it neither deletes a search
  between a stored one and unfinished work, its own pipelines included, nor creates a search or a pipeline below a
  chain that is broken already (`SearchLineage.StepProtectsIff`). Deleting a completed search, as its time to live
  does, never does it (`SearchLineage.CompletedIsNotBetween`).
- A CronSearch may run an activation twice. It does if and only if no stored child stands for that activation or a
  later one, and nothing else forbids the run (`CronRuns.RepeatsIff`). A limit of zero for the failed or for the
  successful history makes it do so (`CronRepeats.ZeroHistoryRepeatsActivation`), and so does a positive limit when
  the search scheduled last did not start last, because pruning goes by start time and the last run is found by the
  annotation (`CronRepeats.StartOrderRepeatsActivation`). `CronHistory.SparedIff` says when pruning spares a search,
  and if the latest is always spared, no activation runs twice (`CronRuns.SparedRunsIncrease`).
- A scanner whose wrapper is killed leaves no mark, and uploaders wait for it for ever (`Barrier.BarrierOpensIff`,
  and `Barrier.KilledScannerBlocks` is a run).
- Two parameters whose names differ only in characters that a variable cannot have, such as `a-b` and `a.b`, share a
  variable (`ParameterVariables.SameVariableIff`), and only one of their values arrives
  (`ParameterVariables.SharedVariableLosesOne`).
- Updates of profiles and uploaders are not checked for parameters that lose their default. A reference stays
  satisfied exactly if it sets those parameters (`Parameters.UpdateKeepsReferences`).
- Deleting an uploader compares kinds literally, and the profile defaulter is registered for the resource `profile`
  instead of `profiles` (`config/webhook/manifests.yaml:64-65`). `AdmissionRuns.UploaderDeletionBreaksIff` says which
  deletions leave a profile with a dangling reference, and `AdmissionRuns.UnstatedKindDangles` is a history.
- The gauge of one label is off after the profile or downloader reference of a running pipeline is changed
  (`PipelineLifecycle.ExactUnlessRelabelled`, and `PipelineController.Relabelled` is a run); the total over all labels
  is not.
- A decoder whose FIFO cannot be opened never looks at its context, so shutdown depends on opens that succeed
  (`FifoScheduler.ProgressIffOpenSucceeds`).
- A pending scan pod sets the phase to Succeeded (`internal/controller/pipeline_controller.go:292`), against the
  documentation of the phases. The model does the same; no result rests on that phase before completion.

## Model

| member | source | states |
|---|---|---|
| FifoScheduler.PairInvStep | cmd/scheduler/main.go:321-353 | every step of a decoder, a worker or their channel keeps: decoded values are the attempted ones plus those in the two goroutines' hands; the channel is closed exactly when the decoder has exited |
| FifoScheduler.InvStep | cmd/scheduler/main.go:186-287 | every step of the four goroutines, the crawler and the hook keeps this for both FIFOs, and the hook has returned only if both pairs are finished |
| FifoScheduler.InvExec | cmd/scheduler/main.go:186-287 | so does every execution |
| FifoScheduler.AttemptsFollowDecodes | cmd/scheduler/main.go:199-234 | in every interleaving the values with a Create attempt are a prefix, in order, of the values decoded, at most two behind; the channel is closed at most once, by the exiting decoder |
| FifoScheduler.ClosedForGood | cmd/scheduler/main.go:343-350 | once a channel is closed, nothing is sent on it and it is not closed again |
| FifoScheduler.DrainedAtReturn | cmd/scheduler/main.go:281-287 | when the hook has returned, every decoded value has had exactly one Create attempt, in order |
| FifoScheduler.ProgressIffOpenSucceeds | cmd/scheduler/main.go:323-331 | after cancellation a step makes progress if and only if it is not a failed open, which changes nothing |
| FifoScheduler.EnabledPairStep | cmd/scheduler/main.go:321-353 | an unfinished decoder/worker pair always has an enabled step that is not a failed open |
| FifoScheduler.ProductiveStep | cmd/scheduler/main.go:281-287 | after cancellation the four goroutines and the hook never deadlock |
| FifoScheduler.ShutdownTerminates | cmd/scheduler/main.go:281-287 | after cancellation every execution with successful opens is shorter than the work that was left |
| FifoScheduler.AwaitWorkers | cmd/scheduler/main.go:281-287 | waiting for the workers ends for every scheduling order, and then nothing decoded is left without an attempt |
| SchedulerWorkers.Channel.constructor | cmd/scheduler/main.go:120-170 | a new channel is open and nothing has been sent |
| SchedulerWorkers.Channel.Send | cmd/scheduler/main.go:343 | sending appends one value; it demands an open channel |
| SchedulerWorkers.Channel.Close | cmd/scheduler/main.go:349 | closing changes no value; it demands an open channel |
| SchedulerWorkers.FifoDecoder | cmd/scheduler/main.go:313-355 | the decoder sends exactly the values decoded before the first failed decode that finds the context done, in order, and closes the channel there and only there |
| SchedulerWorkers.PipelineWorker | cmd/scheduler/main.go:244-279 | one Create request per target, in order, whether or not earlier ones failed; each is labelled with the search; one pause per success |
| SchedulerWorkers.SearchWorker | cmd/scheduler/main.go:190-237 | one labelled Create request per crawler reference, in order, whether or not earlier ones failed; one pause per success |
| SchedulerWorkers.DecoderRefinesPair | cmd/scheduler/main.go:313-355 | what the decoder method does, with a worker that takes each value at once, is a run of the decoder/worker pair: the same values decoded and attempted, and the channel closed at the same point |
| Labels.MergeMaps | internal/utils/maps.go:15-23 | the merged map has the entries of both, and the second wins |
| Labels.ScheduledBySurvivesMerge | cmd/scheduler/main.go:245 | whatever labels a pipeline template has, the created pipeline records the scheduling search, and no other label is lost |
| SearchProtocol.StepKeepsPodDone | internal/controller/search_controller.go:118-173 | once the pod of a search has ended or is gone, only a reconcile that has just started could bring one back |
| SearchProtocol.StepKeepsPipelinesDone | internal/controller/search_controller.go:419-444 | once all child pipelines are finished, no step adds an unfinished one but a granted Create request of a pod of the search |
| SearchProtocol.StepKeepsSearchesDone | internal/controller/search_controller.go:429-451 | the same for child searches |
| SearchCompletion.ExitLeavesNoRequest | cmd/scheduler/main.go:281-287 | a wrapper that has returned from its hook waits for no Create request; what it still has on its way, its worker has given up on |
| SearchProtocol.StepKeepsOwned | cmd/scheduler/main.go:227-270 | every step, a worker that gives up and a late answer included, keeps: a Create request on its way whose pod lives is one that this pod's worker has sent, for the search and with the template of that pod |
| SearchProtocol.SentIsNew | cmd/scheduler/main.go:227-270 | a request that is sent is never taken for one that the worker has given up on and that is still on its way |
| SearchProtocol.BaseStep | cmd/scheduler/main.go:227-270 | every step, late answers included, keeps the history of searches, pods and requests in agreement with what is stored |
| SearchTree.NothingUnfinished | internal/controller/search_controller.go:439-452 | the lists of unfinished children are empty exactly when all children are finished |
| SearchProtocol.StepKeepsJustified | internal/controller/search_controller.go:162-194 | a reconcile that saw a terminal pod and then empty lists may rely on both until it writes, in every step that is not a late answer |
| SearchProtocol.StepKeepsCompletedQuiet | internal/controller/search_controller.go:118-121 | a completed search stays without living pod, unfinished children and reconciles, in every step that is not a late answer |
| SearchProtocol.FinishedAfterAll | internal/controller/search_controller.go:354-410 | a search is completed only by its own reconcile, in a state in which its pod is done and all its children are finished |
| SearchProtocol.LateAnswerBreaks | cmd/scheduler/main.go:227-270 | a Create request that is granted after its parent was completed, or while a reconcile of the parent counts on empty lists, leaves an unfinished child of which nobody knows |
| SearchProtocol.ServedPipeline | cmd/scheduler/main.go:239-279 | a child pipeline keeps every label of the template but the one that names the scheduling search |
| SearchProtocol.InvStepIff | internal/controller/search_controller.go:106-194 | every step of controllers, pods, API server and users, kills, evictions and deletions at any moment included, keeps the invariant if and only if it is not such a late answer |
| SearchProtocol.InvExec | internal/controller/search_controller.go:106-194 | so does every execution without late answers |
| SearchCompletion.CompletionCoversLineage | api/v1beta1/search_types.go:39-43 | induction down the scheduling tree, by the identities recorded at creation |
| SearchCompletion.CompletedTreeIsFinished | api/v1beta1/search_types.go:39-43 | in every state reachable without late answers, every search ever scheduled below a completed one, at any depth and stored or not, was completed, has no pod that could create more and no unfinished child; or it was deleted before it was completed, or is below such a one |
| SearchCompletion.StoredDescendantsAreCompleted | api/v1beta1/search_types.go:39-43 | so a stored descendant of a completed search is completed, unless a search in between was deleted before it was completed |
| SearchCompletion.CleanRunsAreInTime | cmd/scheduler/main.go:270 | there are no late answers if no pod ends, by exit or by force, or is deleted while a Create request of it is on its way |
| SearchCompletion.PatientStep | cmd/scheduler/main.go:227-287 | as long as no worker gives up, every request of a living pod is waited for until it is answered |
| SearchCompletion.GentleRunsAreInTime | cmd/scheduler/main.go:281-287 | if no worker gives up and no pod is killed or deleted in the middle of a request, then no wrapper exits in the middle of one either, and no answer is late |
| SearchLineage.StepProtectsIff | internal/controller/search_controller.go:429-437 | a step keeps every chain of searches above unfinished work, a search or a pipeline, stored and unfinished if and only if it neither deletes a search between a stored one and unfinished work nor creates a search or a pipeline below a chain that is broken already |
| SearchLineage.DeletionProtectsIff | internal/controller/search_controller.go:429-437 | for a deletion: if and only if the search is not between a stored search and unfinished work, its own unfinished pipelines included |
| SearchLineage.CompletedIsNotBetween | internal/controller/search_controller.go:505-519 | a search that is deleted after its completion, as its time to live does, is never in between |
| SearchLineage.WholeTreeIsCompleted | api/v1beta1/search_types.go:39-43 | over every run of such steps, all searches and all pipelines that are stored below a stored completed search are completed, whichever searches in between have been deleted since |
| SearchTree.UninterruptedReads | internal/controller/search_controller.go:162-193 | an undisturbed reconcile reads the pod and both lists of one moment |
| SearchTree.UninterruptedReconcile | internal/controller/search_controller.go:354-410 | an undisturbed reconcile completes a started search if and only if its pod has ended and all its children are finished, and otherwise changes nothing but a missing pod |
| SearchTreeRuns.KilledMidRequest | cmd/scheduler/main.go:270 | a run from the empty namespace in which a pod killed with a request on its way leads to a completed search with an unfinished child; only its last step is a late answer |
| SearchTreeRuns.GivenUpMidRequest | cmd/scheduler/main.go:227-287 | the same with a worker that gives up and a wrapper that exits as usual; no pod is killed or deleted |
| SearchTreeRuns.DeletedBetween | internal/controller/search_controller.go:429-437 | a run from the empty namespace without late answers, for an unfinished search and for an unfinished pipeline at its end: all chains are whole until a search between a stored search and the unfinished work is deleted, and then the former is completed |
| SearchController.KeepUnfinished | internal/controller/search_controller.go:439-451 | the loop keeps the listed children without completion time, in order; none are kept exactly when all have one |
| SearchController.ListingFindsUnfinished | internal/controller/search_controller.go:412-454 | on a listing of the children the loops find exactly the unfinished ones |
| SearchReconciler.ReconcileRefinesSteps | internal/controller/search_controller.go:106-194 | the namespace that one undisturbed reconcile leaves is reached by a list of steps of the tree model |
| SearchReconciler.UnreadySteps | internal/controller/search_controller.go:123-158 | as long as the crawler, the service account or the role binding is missing, no step of a reconcile creates a pod, marks the search as started or completes it |
| SearchReconciler.Reconciler.Reconcile | internal/controller/search_controller.go:106-194 | nothing changes for a search that is gone or completed, nor before crawler, service account and role binding are there; otherwise a missing pod is created, pending, for this search and with its template; a new search is marked as started; and a started one is completed if and only if its pod had succeeded or failed and every listed child had a completion time |
| SearchReconciler.Reconciler.HandleCompletion | internal/controller/search_controller.go:354-410 | the completion decision on the listed children |
| SearchReconciler.Reconciler.ListPipelines | internal/controller/search_controller.go:419-427 | lists exactly the pipelines that carry the label of the search |
| SearchReconciler.Reconciler.ListSearches | internal/controller/search_controller.go:429-437 | lists exactly the searches that carry the label of the search |
| SearchController.SearchStatus.constructor | internal/controller/search_controller.go:175-190 | the status of a search marked as started |
| SearchController.SearchStatus.HandleCompletion | internal/controller/search_controller.go:354-410 | the status is written exactly if the pod has succeeded or failed and every child has a completion time; then time and condition, with the reason of the phase, are set once and nothing else changes; otherwise it waits or requeues after ten seconds |
| Tally.TotalAdd | internal/controller/pipeline_controller.go:189-199 | changing one label changes the sum over all labels by the same amount |
| PipelineLifecycle.AddedOnce | internal/controller/pipeline_controller.go:189-199 | the finalizer is only ever added to a pipeline that never had it |
| PipelineLifecycle.BooksStep | internal/controller/pipeline_controller.go:128-138 | every step keeps gauge, counters and history in agreement with the finalizers |
| PipelineLifecycle.StepKeepsAt | internal/controller/pipeline_controller.go:115-225 | every step keeps the shape of the status and what a reconcile in flight may rely on |
| PipelineLifecycle.InvStep | internal/controller/pipeline_controller.go:115-225 | every step keeps the whole invariant |
| PipelineLifecycle.InvExec | internal/controller/pipeline_controller.go:115-225 | so does every execution |
| PipelineLifecycle.GaugeCountsHolders | internal/controller/pipeline_controller.go:189-199 | over any interleaving the running gauge is the number of pipelines that hold the metrics finalizer |
| PipelineLifecycle.IncrementsAreConserved | internal/controller/pipeline_controller.go:602-613 | increments equal gauge plus completed counter plus early decrements; each pipeline is incremented at most once and then counted or taken back at most once |
| PipelineLifecycle.CompletionIsConsistent | internal/controller/pipeline_controller.go:234-268 | a completed pipeline was started and given the finalizer before; its phase, its single completion condition and its pod agree; condition types are unique |
| PipelineLifecycle.StepWritesOnce | internal/controller/pipeline_controller.go:149-151 | no step changes a start or completion time that is set |
| PipelineLifecycle.TimesNeverChange | internal/controller/pipeline_controller.go:205-222 | nor does any execution |
| PipelineLifecycle.StepAtLabel | internal/controller/pipeline_controller.go:602-612 | how a step moves the gauge of one label, and its pipeline in or out of that label |
| PipelineLifecycle.ExactUnlessRelabelled | internal/controller/pipeline_controller.go:706-712 | the gauges of all labels stay exact in a step if and only if it is not a change of the labels of a pipeline holding the finalizer |
| PipelineLifecycle.GaugesAreExact | internal/controller/pipeline_controller.go:706-712 | over every run without such changes the gauge of each label is the number of pipelines of that label that hold the finalizer |
| PipelineController.ReconcileRefinesSteps | internal/controller/pipeline_controller.go:115-225 | the state that one undisturbed reconcile of a pipeline leaves is reached by a list of steps of the lifecycle model, whatever reconciles of others are in flight |
| PipelineController.TwoReconcilesStart | internal/controller/pipeline_controller.go:171-222 | two reconciles take a new pipeline, within its lifetime if it has one, to its running state: pod, start time, finalizer, gauge up by one; foreign finalizers stay |
| PipelineController.TwoReconcilesFinish | internal/controller/pipeline_controller.go:227-303 | after its pod has ended, two more complete it: finalizer gone, gauge down by one, completed counter of its label and phase up by one; with a time to live of zero the second one also deletes it |
| PipelineController.Relabelled | internal/controller/pipeline_controller.go:706-712 | a run from the empty cluster after which the gauges of two labels are off by one |
| PipelineController.Reconciler.PatchFinalizers | internal/controller/pipeline_controller.go:130-134 | the finalizer patch succeeds exactly when the API server accepts it, and a failed one changes nothing |
| PipelineController.Reconciler.PatchStatus | internal/controller/pipeline_controller.go:301 | a field of the stored status becomes the new value if the caller changed it and stays what it was otherwise |
| PipelineController.Reconciler.DropMetricsOnDelete | internal/controller/pipeline_controller.go:128-138 | the first exit: the finalizer of a deleted pipeline goes and with it the object if no other is left, the gauge of its label goes down, and nothing else changes |
| PipelineController.Reconciler.HandlePostCompletion | internal/controller/pipeline_controller.go:594-635 | metrics are recorded at most once, and afterwards deletion is requested if and only if a time to live is set and completion time plus time to live is not later than now |
| PipelineController.Reconciler.ReconcileWithPod | internal/controller/pipeline_controller.go:189-225 | start time, phase and condition for a pipeline without start time, else the finalizer and the gauge, else the status that the phase of the pod leads to, one patch each |
| PipelineController.Reconciler.HandleCompletion | internal/controller/pipeline_controller.go:227-303 | phase, completion time and conditions for every phase of the pod; of a running one the phase is downloading, scanning or uploading in this order; none if the phase is unknown |
| PipelineController.Reconciler.Reconcile | internal/controller/pipeline_controller.go:115-225 | which of its exits a reconcile takes and what each changes, in terms of the stored object: finalizer and gauge of a deleted pipeline; deletion exactly if older than its maximum lifetime; after completion metrics and deletion exactly if the time to live is over; nothing before the references are there; then the pod, and start, finalizer or progress |
| CronSchedule.NextIsLeast | internal/controller/cronsearch_controller.go:254 | the next activation is the least one after an instant |
| CronSchedule.GetNextSchedule | internal/controller/cronsearch_controller.go:226-277 | fails exactly if the schedule does not parse or more than 100 activations were missed; otherwise gives the greatest missed activation, or none, and the next; at most 101 rounds |
| CronSchedule.MeetsSpecIff | internal/controller/cronsearch_controller.go:235-277 | the specification in full: missed are the activations after the last run, or the creation of the CronSearch, and after now minus the deadline in seconds; more than 100 are an error, else the last of them is the missed run |
| CronSchedule.SpecIsUnique | internal/controller/cronsearch_controller.go:226-277 | that specification admits one result |
| CronSchedule.DeadlineFilters | internal/controller/cronsearch_controller.go:241-248 | the starting deadline filters: same next activation, and the same missed run exactly if it is later than the deadline |
| CronSchedule.TooLateOnlyIfClockMoved | internal/controller/cronsearch_controller.go:162-170 | the too-late check can only fire if the clock has advanced since the schedule was computed |
| CronNaming.NumeralInjective | internal/controller/cronsearch_controller.go:281 | different numbers have different numerals |
| CronNaming.DecimalStandsFor | internal/controller/cronsearch_controller.go:281 | a numeral stands for its number in the decimal system, without leading zero |
| CronNaming.NameIs | internal/controller/cronsearch_controller.go:281 | the name of a search is that of the CronSearch, a dash, and the second of the run in decimal digits |
| CronNaming.SameNameSameActivation | internal/controller/cronsearch_controller.go:279-281 | two runs have the same name if and only if they are the same activation |
| CronNaming.AnnotationRoundTrip | internal/controller/cronsearch_controller.go:213-224 | the scheduled-at annotation gives back the instant written if and only if it is a whole second |
| CronHistory.IsSearchFinished | internal/controller/cronsearch_controller.go:203-211 | the status of the first condition of type Complete, and none exactly if there is no such condition |
| CronHistory.UnfinishedIff | internal/controller/cronsearch_controller.go:203-211 | unfinished exactly without a completion condition |
| CronHistory.FinishedIs | internal/controller/cronsearch_controller.go:203-211 | a search has ended with a status if and only if that is the status of its first completion condition |
| CronHistory.WithStateAppend | internal/controller/cronsearch_controller.go:317-326 | a category is made up of the listed children of its status, each as often and in the order as listed |
| CronHistory.Categories | internal/controller/cronsearch_controller.go:317-326 | active are the children without completion condition, failed and successful those whose first one is false or true |
| CronHistory.WithStateMember | internal/controller/cronsearch_controller.go:317-326 | a child is in a category if and only if it is listed and has that state |
| CronHistory.MostRecentIsGreatest | internal/controller/cronsearch_controller.go:328-337 | the most recent time is the greatest readable annotation of the list |
| CronHistory.FindExistingSearches | internal/controller/cronsearch_controller.go:309-345 | sorts the children into active, failed and successful by their first completion condition, in order, and finds the greatest scheduled time |
| CronHistory.OlderIsStrictWeakOrder | internal/controller/cronsearch_controller.go:106-111 | the comparator of the history sort is a strict weak order, a missing start time counting as oldest |
| CronHistory.Prune | internal/controller/cronsearch_controller.go:112-121 | nothing is asked to go if the list is within the limit, and else as many from the old end as it is longer; the 32-bit arithmetic is exact |
| CronHistory.PruningDropsOldest | internal/controller/cronsearch_controller.go:105-141 | as many searches are kept as limit and list allow, the others are deleted, together they make up the list, and no deleted one started after a kept one |
| CronHistory.PrunesDropsOldest | internal/controller/cronsearch_controller.go:105-141 | the same for a list with or without limit |
| CronHistory.PrunedIsListed | internal/controller/cronsearch_controller.go:105-141 | only listed searches are deleted |
| CronHistory.SparedIff | internal/controller/cronsearch_controller.go:105-141 | pruning spares a search in every order that the sort may produce if and only if there is no limit or at least the excess of the list started before it |
| CronSearchController.Cluster.Delete | internal/controller/cronsearch_controller.go:180 | a delete request marks one search; for a search that is gone it changes nothing |
| CronSearchController.Cluster.DeleteAll | internal/controller/cronsearch_controller.go:112-121 | history deletions go on after errors: everything is marked but what failed |
| CronSearchController.Cluster.DeleteActive | internal/controller/cronsearch_controller.go:177-185 | replacing stops at the first error, and otherwise marks every active search |
| CronSearchController.Cluster.PruneHistory | internal/controller/cronsearch_controller.go:105-122 | one history list: as many deletions as it is longer than the limit, none without a limit, and of the searches that started first |
| CronSearchController.Cluster.PruneHistories | internal/controller/cronsearch_controller.go:105-141 | the same for both history lists and their limits |
| CronSearchController.DueRun | internal/controller/cronsearch_controller.go:143-170 | the run that is due: not suspended, missed, at most 100, not too late |
| CronSearchController.Cluster.StartRun | internal/controller/cronsearch_controller.go:172-196 | concurrency policy and creation |
| CronSearchController.Cluster.Reconcile | internal/controller/cronsearch_controller.go:63-201 | one reconcile: exactly when a search is created, under which name and in which state; how many and which searches of either history list are deleted; that nothing else changes |
| CronSearchController.CreatesIff | internal/controller/cronsearch_controller.go:143-196 | the condition for a creation in full: suspension, schedule, missed activations since the last run and the deadline, at most 100 of them, the last one, not too late by now, policy, answers and a free name |
| CronRuns.NamesRun | internal/controller/cronsearch_controller.go:279-301 | over any run, also with stale lists and whatever is edited, every stored search is named after its annotation |
| CronRuns.NoSharedActivation | internal/controller/cronsearch_controller.go:279-295 | over any run, also with stale lists and whatever is edited, no two stored searches share an activation |
| CronRuns.UneditedRun | internal/controller/cronsearch_controller.go:63-201 | a run without edits is one of these |
| CronRuns.CreatedAfterListed | internal/controller/cronsearch_controller.go:78-84 | a created search is scheduled strictly later than every listed child |
| CronRuns.RepeatsIffNothingNewer | internal/controller/cronsearch_controller.go:235-255 | an activation that has passed is created again if and only if none has passed since; never an earlier one |
| CronRuns.CreationTimesIncrease | internal/controller/cronsearch_controller.go:187-196 | with fresh lists, while the latest search stays stored, creation times strictly increase, so no activation runs twice |
| CronRuns.BooksRun | internal/controller/cronsearch_controller.go:187-196 | over any run with fresh lists and edits of anything but the schedule everything created was an activation that had passed, and every stored search is named after one that ran |
| CronRuns.RepeatsIff | internal/controller/cronsearch_controller.go:78-84 | an activation that ran before is created again if and only if no stored search stands for it or a later one and everything else permits it: not suspended, no later activation has passed, at most 100 missed, in time, policy and answers |
| CronRuns.RunsNeverGoBack | internal/controller/cronsearch_controller.go:226-277 | over any such run, whatever is deleted, creation times never decrease |
| CronRuns.IncreasesIff | internal/controller/cronsearch_controller.go:187-196 | creation times go on increasing in a reconcile if and only if it does not meet the condition for repeating the last one |
| CronRuns.SparedRunsIncrease | internal/controller/cronsearch_controller.go:105-141 | if users leave the latest search and the history limits of the moment spare it, no activation runs twice over any such run |
| CronRuns.ForbidKeepsOne | internal/controller/cronsearch_controller.go:172-175 | over any run with fresh lists in which the policy is Forbid, whatever else is edited, at most one search is unfinished |
| CronRuns.ReplaceLeavesOne | internal/controller/cronsearch_controller.go:177-185 | under the Replace policy a reconcile that creates a search leaves it as the only unfinished one not marked for deletion |
| CronRuns.ActiveSearchesAreKept | internal/controller/cronsearch_controller.go:105-141 | except under Replace a reconcile leaves every unfinished search as it was |
| CronRepeats.ZeroHistoryRepeatsActivation | internal/controller/cronsearch_controller.go:124-141 | for either history list a legal run with a limit of zero in which one activation is executed twice |
| CronRepeats.StartOrderRepeatsActivation | internal/controller/cronsearch_controller.go:124-141 | a legal run with a limit of one in which the search that is scheduled last started first, is pruned, and its activation is executed twice |
| Words.RoundTrip | cmd/sidecar/main.go:91 | splitting a joined list gives it back if and only if it is not empty and its words have no commas |
| Words.JoinIs | internal/controller/pipeline_controller.go:472-475 | a joined list has one comma between two words |
| Containers.ApplyOptionsTo | internal/containers/options.go:55-63 | options act in order on a copy |
| Containers.ApplyOptionsToAll | internal/containers/options.go:65-75 | options act in order on every container in place |
| Containers.ApplyAllConcat | internal/containers/options.go:55-75 | applying two lists of options is applying their concatenation |
| Containers.LookupConcat | internal/containers/options.go:18-22 | variables appended under other names hide nothing |
| Containers.CommandKept | internal/containers/options.go:36-41 | only wrapping and additional arguments touch the command line |
| Containers.NameKept | internal/containers/options.go:30-34 | only a prefix touches the name |
| ScanPod.WrapScanners | internal/controller/pipeline_controller.go:416-434 | the scanner containers in place, and the list of their names |
| ScanPod.PopulateScanPod | internal/controller/pipeline_controller.go:414-491 | the init containers, and then all scanners and all uploaders, each with the name, command line, environment, working directory and mounts that the source gives it |
| ScanPod.PopulateInitContainers | internal/controller/pipeline_controller.go:377-408 | the container that brings the wrapper, and the downloader with its parameters, working directory and mounts |
| ScanPod.PopulateContainers | internal/controller/pipeline_controller.go:414-491 | scanners first, then uploaders, by the options in their order |
| ScanPod.ScannerContainerIs | internal/controller/pipeline_controller.go:416-429 | a built scanner field by field: name, command line, the container's own variables, those of the pipeline and the parameters in this order, working directory, mounts |
| ScanPod.UploaderContainerIs | internal/controller/pipeline_controller.go:448-483 | a built uploader field by field: name, command line with artifact arguments, the container's own variables, its parameters, its name and those of the pipeline in this order, the awaited names, working directory, mounts |
| ScanPod.ContainersAre | internal/controller/pipeline_controller.go:414-491 | the same for all containers, and the awaited names are those of the scanners with their prefix |
| ScanPod.ScannerSeesParameters | internal/containers/options.go:86-93 | a scanner sees for each parameter variable the last value given, whatever variables its container defines |
| ScanPod.UploaderSeesParameters | internal/containers/options.go:86-93 | so does an uploader |
| ScanPod.UploaderSeesItself | internal/controller/pipeline_controller.go:458-461 | an uploader sees its own name, that of its container, the awaited names and every variable of the pipeline |
| ScanPod.ContainersKnowPipeline | internal/controller/pipeline_controller.go:540-592 | every scanner and uploader sees target, version, downloader, profile, pipeline, pod, namespace and the directories, whatever variables the user set |
| ScanPod.ScannerMeaningPreserved | internal/controller/pipeline_controller.go:416-434 | a scanner's child gets exactly command ++ args, and its mark is the container's own name in the process directory, whatever variables the user set |
| ScanPod.UploaderMeaningPreserved | internal/controller/pipeline_controller.go:468-491 | an uploader's child gets exactly command ++ args ++ artifact arguments, and the list it splits is exactly the list of the scanners' mark names |
| ScanPod.ScannerNamesCommaFree | internal/controller/pipeline_controller.go:431-434 | names of valid containers have no commas |
| ScanPod.ScannerNamesDistinct | internal/controller/pipeline_controller.go:431-434 | distinct containers have distinct marks |
| Subprocess.BuildUserCommand | internal/process/subprocess.go:26-41 | fails exactly on the empty vector and otherwise keeps every word in place |
| Subprocess.HookCommand | internal/process/subprocess.go:50-109 | pre-start hook before the command; post-stop hook last, once, on every way out; the exit codes of all outcomes |
| Sidecar.ProcessDirectory.IsScannerComplete | cmd/sidecar/main.go:143-153 | a mark is found exactly if it exists; an answer other than found or not-found is an error |
| Sidecar.ProcessDirectory.ScanCompleteHook | cmd/sidecar/main.go:155-172 | the mark exists afterwards exactly if it did before or its file could be created |
| Sidecar.AwaitScan | cmd/sidecar/main.go:122-137 | one polling loop ends at the first answer that is not missing, with an error exactly if that answer is one |
| Sidecar.AwaitScans | cmd/sidecar/main.go:116-141 | the group returns after every loop has ended, with an error exactly if one of them had one |
| Sidecar.ScannerMain | cmd/sidecar/main.go:98-109 | a scanner whose wrapper is not killed leaves a mark exactly if it has a command and the file can be created, after the command ended or failed to start, and exits with the command's code |
| Sidecar.UploaderMain | cmd/sidecar/main.go:85-97 | waiting comes before the uploader's command, which is started whether or not waiting failed |
| Sidecar.CheckIsPoll | cmd/sidecar/main.go:143-153 | the checks of the barrier model are exactly the ways in which the look for a mark can end |
| Sidecar.OneLoop | cmd/sidecar/main.go:122-137 | in every interleaving of the barrier model a goroutine looks again exactly while marks are missing, ends at the first other answer and fails exactly if that is an error |
| Sidecar.AwaitScansRefines | cmd/sidecar/main.go:116-141 | what the methods compute from the answers is what every interleaving of the barrier model does with them: which goroutines still wait, and, once all have ended, which failed and that the command starts |
| Sidecar.ScannerRefines | cmd/sidecar/main.go:98-109 | what the scanner subcommand does to the marks is reached by the scanner's steps of the barrier model |
| Barrier.InvExec | cmd/sidecar/main.go:116-172 | every interleaving, kills of wrappers included, keeps: marks are those of finished scanners; what an uploader no longer waits for is there or its check failed |
| Barrier.UploadersWait | cmd/sidecar/main.go:116-141 | an uploader's command starts only after every awaited scanner's command has ended or failed to start, except for scanners whose existence check failed |
| Barrier.StepsMakeProgress | cmd/sidecar/main.go:122-137 | every step but an idle poll reduces the work left |
| Barrier.NoDeadlock | cmd/sidecar/main.go:116-141 | while an uploader waits and no scanner has exited without a mark, something other than an idle poll, an error or a kill can happen |
| Barrier.BarrierOpens | cmd/sidecar/main.go:116-141 | if scanners have commands, marks can be written and no wrapper is killed, an exhausted execution has released every uploader |
| Barrier.BarrierOpensIff | cmd/sidecar/main.go:98-141 | an exhausted execution has released every uploader if and only if none awaits a scanner that ended or was killed without a mark, but for checks that failed |
| Barrier.KilledScannerBlocks | cmd/sidecar/main.go:98-141 | a run in which a scanner's wrapper is killed and nothing but idle polls, errors and kills can happen any more while the uploader still waits |
| Barrier.ProgressIsBounded | cmd/sidecar/main.go:122-137 | the number of steps other than idle polls is bounded |
| Barrier.MissingMarkBlocks | cmd/sidecar/main.go:98-103 | a scanner that exits without a mark, or is killed, blocks its uploaders for good |
| Barrier.ConfigAwaitsScanners | internal/controller/pipeline_controller.go:431-476 | in a built pod marks are distinct and every uploader awaits exactly the scanners' marks |
| Barrier.PodUploadsAfterScans | internal/process/subprocess.go:58-76 | the safety result for the pod that the controller builds |
| Barrier.PodBarrierOpens | internal/validators/containers.go:27-29 | the progress result for the pod that the controller builds, given non-empty scanner commands and no kill |
| Barrier.PodBarrierOpensIff | internal/controller/pipeline_controller.go:431-476 | the exact condition for that pod, kills included |
| Parameters.ParseParameters | internal/resources/parameters.go:15-42 | one value for every defined name and no other: of the last setting of that name its parent's value if it asks for one and there is a parent, and its own value otherwise; without a setting the default of the last definition, or nothing |
| Parameters.ResolvesIff | internal/resources/parameters.go:15-42 | there is exactly one such assignment of values, and it is the one that validation and runtime agree on |
| Parameters.LastSettingFound | internal/resources/parameters.go:31-40 | a parameter has a last setting if and only if some setting names it |
| Parameters.SettingApplies | internal/resources/parameters.go:31-40 | a further setting decides its own parameter and no other |
| Parameters.NonEmptyParameters | internal/containers/contiditonal.go:31-47 | the filter's own computation agrees with the resolution of parameters on which values are empty |
| Parameters.FilterConditionalContainers | internal/containers/contiditonal.go:28-55 | selects, in order, exactly the containers without condition or whose parameter resolves to a non-empty value |
| Parameters.SelectedMember | internal/containers/contiditonal.go:16-26 | a container is selected if and only if it occurs with a condition that holds |
| Parameters.SelectedAppend | internal/containers/contiditonal.go:16-55 | a container is selected if it has no condition or the value of its parameter is not empty; selected ones stay in order |
| Parameters.ValidateParameterReference | internal/validators/parameters.go:70-90 | reports exactly the required parameters without a setting, in order |
| Parameters.ValidateNoParentParameters | internal/validators/parameters.go:92-107 | reports exactly the settings that ask for a parent's value |
| Parameters.ValidateParentParameters | internal/validators/parameters.go:109-137 | reports exactly the settings with two sources or an undefined parent parameter |
| Parameters.ParseSetParameters | internal/validators/parameters.go:54-68 | splits definitions into those with a setting, by the last one of their name, and those without |
| Parameters.ParseNewRequiredParameters | internal/webhook/v1beta1/common.go:16-30 | the required definitions whose name is new |
| Parameters.ValidatedSourceResolves | internal/controller/pipeline_controller.go:447-457 | a validated setting with a parent source gets exactly the value that the profile resolves, never the fallback |
| Parameters.RequiredComeFromSettings | internal/validators/parameters.go:79-87 | every required parameter of a validated reference is taken from a setting |
| Parameters.NoParentMeansOwnValue | internal/validators/parameters.go:92-107 | without parent sources the parent's values are irrelevant |
| Parameters.UpdateKeepsReferences | internal/webhook/v1beta1/common.go:16-30 | after an update that passes the check for new required parameters, a reference is satisfied if and only if it sets every parameter that lost its default |
| Parameters.LosingADefaultBreaksReferences | internal/webhook/v1beta1/common.go:24-27 | a concrete update that passes the check and leaves a reference unsatisfied |
| ParameterVariables.ParameterToEnvironmentVariable | pkg/runtime/parameters.go:16-27 | the prefix and then the name with an underscore for every character that a variable cannot have |
| ParameterVariables.SameVariableIff | pkg/runtime/parameters.go:16-27 | two names share a variable if and only if they are equally long and differ only where both have such characters or underscores |
| ParameterVariables.ParseParameterEnvVars | internal/containers/parameters.go:18-33 | one variable with its resolved value for every parameter, in some order |
| ParameterVariables.UploaderGetsValues | internal/containers/options.go:86-93 | in the built pod an uploader finds the resolved value of every parameter under its variable, unless two of its parameters share one |
| ParameterVariables.ScannerGetsValues | internal/containers/options.go:86-93 | so does a scanner |
| ParameterVariables.SharedVariableLosesOne | internal/containers/parameters.go:25-32 | of two parameters that share a variable one value is lost |
| Admission.DefaultKeepsTarget | internal/resources/references.go:156-162 | defaulting a kind does not change what a reference stands for, and afterwards the reference matches exactly that object |
| Admission.FromReferenceIs | internal/resources/references.go:42-154 | a reference finds the object of its namespace if it states that kind or none, the cluster's object if it states the cluster kind, and is invalid otherwise |
| Admission.ProfileFromReferenceIs | internal/resources/references.go:73-91 | a profile reference finds the profile of its namespace if it states that kind or none, and is invalid otherwise |
| Admission.PipelineObject.Default | internal/webhook/v1beta1/pipeline_webhook.go:46-64 | kinds and service account are set where they were missing and stay otherwise, names and parameters stay, and the status is pending |
| Admission.SearchObject.Default | internal/webhook/v1beta1/search_webhook.go:49-54 | the kind of the crawler reference is set where it was missing, and nothing else changes |
| Admission.DefaultUploaderRefs | internal/webhook/v1beta1/profile_webhook.go:49-57 | in place every uploader reference without kind gets one, and nothing else changes |
| Admission.ProfileProblems | internal/validators/pipelines.go:37-63 | exactly the problems there are with the profile reference: not found, wrong kind, each required parameter without setting, each setting from a parent, no scanner selected |
| Admission.DownloaderProblems | internal/validators/pipelines.go:65-78 | exactly the problems there are with the downloader reference |
| Admission.VolumeConflicts | internal/validators/pipelines.go:80-87 | reports exactly the volume names that both use |
| Admission.ValidatePipeline | internal/validators/pipelines.go:29-106 | accepts a pipeline if and only if it is valid in the store of that moment, and else reports exactly the problems there are, the length of the name, the volumes in conflict and the service account included |
| Admission.ValidateContainerDefinition | internal/validators/containers.go:21-32 | accepts exactly a short name and a non-empty command |
| Admission.AddVolumes | internal/validators/profiles.go:56-62 | reports a problem exactly if a volume name occurs twice |
| Admission.UploaderProblems | internal/validators/profiles.go:41-54 | exactly the problems there are with an uploader reference |
| Admission.ValidateProfile | internal/validators/profiles.go:27-74 | accepts a profile if and only if its uploader references, containers and volumes are valid, and else reports exactly the problems there are, each repeated volume included |
| Admission.UploaderVolumesAppend | internal/validators/profiles.go:41-62 | the volumes of every uploader that is found count |
| Admission.ValidateSearch | internal/webhook/v1beta1/search_webhook.go:95-119 | accepts a search if and only if its crawler exists and its parameters are set, and else reports exactly the problems there are |
| Admission.ValidateUpdateSearch | internal/webhook/v1beta1/search_webhook.go:79-93 | an update is allowed if and only if a service account that was set is kept and no problem of the new search is reported |
| Admission.DependantPipelines | internal/webhook/v1beta1/clusterdownloader_webhook.go:124-138 | finds a dependant pipeline if and only if there is one, for both scopes |
| Admission.DependantSearches | internal/webhook/v1beta1/clustercrawler_webhook.go:157-171 | finds a dependant search if and only if there is one, for both scopes |
| Admission.DependantCronSearches | internal/webhook/v1beta1/clustercrawler_webhook.go:173-187 | finds a dependant cron search if and only if there is one, for both scopes |
| Admission.DependantProfiles | internal/webhook/v1beta1/uploader_webhook.go:141-158 | finds exactly the profiles with a matching reference |
| Admission.PipelineReferences | internal/webhook/v1beta1/profile_webhook.go:126-140 | finds exactly the pipelines of the namespace that name the profile |
| Admission.ValidateDeleteDownloader | internal/webhook/v1beta1/downloader_webhook.go:107-125 | a deletion is allowed if and only if no pipeline refers to the downloader |
| Admission.ValidateDeleteCrawler | internal/webhook/v1beta1/crawler_webhook.go:124-158 | a deletion is allowed if and only if no search or cron search refers to the crawler |
| Admission.ValidateDeleteUploader | internal/webhook/v1beta1/uploader_webhook.go:120-139 | a deletion is allowed if and only if no profile has a literally matching reference |
| Admission.ValidateDeleteProfile | internal/webhook/v1beta1/profile_webhook.go:104-124 | a deletion is allowed if and only if no pipeline names the profile |
| Admission.RefusedIffReferred | internal/webhook/v1beta1/downloader_webhook.go:107-141 | with kinds stated, the deletion of a downloader of either scope is refused exactly if some stored reference finds that very object |
| Admission.CrawlerRefusedIffReferred | internal/webhook/v1beta1/crawler_webhook.go:124-174 | the same for crawlers |
| Admission.UploaderRefusedIffReferred | internal/webhook/v1beta1/uploader_webhook.go:120-158 | the same for uploaders |
| Admission.ValidateUpdateProfile | internal/webhook/v1beta1/profile_webhook.go:74-101 | an update is allowed if and only if the profile is valid and every dependant pipeline sets all newly required parameters |
| Admission.PipelinesSetNewIff | internal/webhook/v1beta1/profile_webhook.go:79-98 | the condition in full: every pipeline that names the profile has a setting for every required parameter whose name is new |
| Admission.ValidateUpdateUploader | internal/webhook/v1beta1/uploader_webhook.go:74-117 | an update is allowed if and only if every matching reference of every profile sets all newly required parameters and the container is valid |
| AdmissionRuns.DeletionSpares | internal/webhook/v1beta1/common.go:32-35 | a reference of definite kind survives the deletion of anything it does not match |
| AdmissionRuns.StepKeepsPipelines | internal/webhook/v1beta1/downloader_webhook.go:107-141 | every admitted request leaves the references of stored pipelines resolvable |
| AdmissionRuns.StepKeepsSearches | internal/webhook/v1beta1/crawler_webhook.go:124-174 | every admitted request leaves the crawler references of stored searches resolvable |
| AdmissionRuns.InvExec | internal/webhook/v1beta1/clustercrawler_webhook.go:121-171 | every history of requests keeps the invariant |
| AdmissionRuns.ReferencesNeverDangle | internal/validators/pipelines.go:38-73 | over any history of requests no stored pipeline's profile or downloader reference and no stored search's crawler reference dangles, for both scopes, nor does a profile's uploader reference that states its kind |
| AdmissionRuns.ServiceAccountStays | internal/webhook/v1beta1/search_webhook.go:79-93 | over any history a search keeps the service account that it once has until it is deleted |
| AdmissionRuns.UploaderDeletionBreaksIff | internal/webhook/v1beta1/uploader_webhook.go:120-158 | an admitted deletion of an uploader leaves a profile with a dangling reference if and only if some profile refers to it without stating the kind |
| AdmissionRuns.UnstatedKindDangles | internal/webhook/v1beta1/uploader_webhook.go:120-158 | a history from the empty store in which an admitted deletion leaves a dangling reference |
| AdmissionRuns.ProfileUpdateKeepsIff | internal/webhook/v1beta1/profile_webhook.go:79-98 | after an admitted profile update a pipeline's reference stays satisfied if and only if it sets the parameters that lost their default |
| AdmissionRuns.UploaderUpdateKeepsIff | internal/webhook/v1beta1/uploader_webhook.go:77-105 | the same for uploaders of both scopes and references that state their kind |
| AdmissionRuns.ParametersStaySet | internal/validators/parameters.go:54-90 | over any history in which no profile or uploader parameter loses its default, all stored references keep setting all required parameters |
| AdmissionRuns.AdmittedPipelineHasScanners | internal/validators/pipelines.go:55-59 | in any reachable store an admitted pipeline builds at least one scanner, and every scanner has a command |
| AdmissionRuns.AdmittedBarrierOpens | internal/validators/profiles.go:65-67 | so the barrier of its pod opens if no wrapper is killed |

## Left out

- Kubernetes client, caches, watches, leader election, logging, encoding and generated code: abstract steps and answers.
- The cron parser, time zones, `@every` and unsatisfiable schedules: a schedule is its set of activations.
- FIFO delivery by the kernel: results speak of values already decoded; buffered values may be lost with a closed reader.
- Stage statuses and the exit-code tests in `determineScanPodStageStatuses`: they are inputs, and no result rests on them.
- Wake-up times (`RequeueAfter`) of pipelines, searches and cron searches, and the search's own time to live beyond deletion.
- Service accounts, role bindings, volumes, resources and metadata of the created pods, and the cleaning of artifact paths.
- Restarts of the controller, and of pods after a search has completed.
- The hook's signal forwarding, and what a mark file contains.
- Updates of (cluster) downloaders and crawlers: their check looks at the first dependant only, so nothing is claimed about parameters after them; runs admit more of these updates than the webhooks do.
- References from cron searches to crawlers: they are not checked when a cron search is created.
- Later changes of a profile's scanners: an update may leave a stored pipeline without selected scanners; the result about scanners is about the moment of admission.
- Internal errors of the API server during admission: they refuse the request and are not reported as problems.
- CronHistory.SortSlice: stands for the library sort; only that it permutes and orders is used.
- Admission.ValidatePipeline: the accompanying messages of the field errors are not modelled.
- SchedulerWorkers.Channel.constructor: the receiving end is not part of the class; the rendezvous of sender and receiver is in `FifoScheduler`.
- SchedulerWorkers.Channel.Send: does not wait for a receiver, for the same reason; `SchedulerWorkers.DecoderRefinesPair` connects the two.
- SchedulerWorkers.Channel.Close: what a receiver observes after the close is in `FifoScheduler`.
- ScanPod.PopulateScanPod: volumes, image pull secrets, resources and security options of the pod are not modelled; artifact arguments are an input.
- Sidecar.AwaitScan: the answers are inputs that end the loop; when marks appear is in `Barrier`, and `Sidecar.OneLoop` connects the two.
- Sidecar.AwaitScans: runs the loops one after the other; `Sidecar.AwaitScansRefines` is about every interleaving of them.
- Sidecar.ScannerMain: a kill of the wrapper is not an outcome of the method; it is the step `Kill` of `Barrier`.
- CronRuns.RepeatsIffNothingNewer: takes the creation as given, and holds for stale lists as well; what leads to a creation is in `CronRuns.RepeatsIff`, for fresh lists.
- CronRuns.CreationTimesIncrease: takes as given that the latest search stays stored; when it does is in `CronRuns.SparedRunsIncrease`.
