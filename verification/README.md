# Verified model of the pipeline operator

The operator turns a pipeline of tasks into runs, and a run into Kubernetes
jobs that wait for one another. Two reconcilers do the work. The run reconciler
gates jobs by repeated local passes over the job list and folds their
annotations into the run's status. The pipeline reconciler decides when a
scheduled pipeline executes next, persists the decision and starts a sleeping
goroutine that later fires or gives up. This project models both, and the
translation between them, and proves what they guarantee over all runs.

## Layout

| file | contents |
|---|---|
| JobStates.dfy | job states, rank and category tables, the state read off a Kubernetes job |
| Gating.dfy | one loop iteration and one pass of the job gate, as functions on the store |
| GatingRuns.dfy | all runs of the gate: passes cut off anywhere, pod progress, trigger edits; safety, cycles, trapped sets |
| Acyclicity.dfy | dependency paths, cycles and ranks, and how they determine one another |
| Creation.dfy | crash-safe creation, jobs created unsuspended |
| WrongOrder.dfy | lists in which a job waits for a later one: exactly these can miss a predecessor |
| Triggers.dfy, Endings.dfy | what a trigger does to a job and its run; which runs can end |
| Convergence.dfy, Tightness.dfy | passes on a cluster that stands still: the settled store, the bounds, and that they are attained |
| Progress.dfy | passes on a cluster that finishes the jobs let go: every job completes, and such passes are runs |
| Aggregation.dfy, Listings.dfy | counters, run state, sorted list, completion test |
| RunReconciler.dfy | the run reconciler's loops as methods on stored objects |
| Schedules.dfy | the schedule decision and the goroutine's check, as functions on the status |
| ScheduleRuns.dfy | all interleavings of the schedule protocol |
| PipelineReconciler.dfy | the schedule code as methods on a copy of the pipeline, with optimistic updates |
| Naming.dfy, Translation.dfy | generated names, and tasks to jobs |
| Volumes.dfy | volumes, mounts and their paths |
| Durations.dfy | the duration mini-language |
| Options.dfy | an optional value |

`dafny verify dfyconfig.toml` checks the whole project.

## Environment

What the cluster may do is stated in three predicates.
`GatingRuns.MayObserve`: job objects are not deleted, successes are not taken
back, a suspended job that has not started does not start, and an active job
has a pending or running first pod. `Mode.early` says whether a job may start
before its first update pass; `Mode.dead` names jobs that never succeed.
`Progress.Finishes`: between two passes every unsuspended job that has been
through an update pass finishes; on a prompt cluster so does one that has only
been created. `Progress.RoundsAreRuns` and `OrderlyRounds` show that such
clusters exist and that their passes are runs of `GatingRuns`.
`ScheduleRuns.Enabled`: a goroutine reads the clock no earlier than its pending
date; otherwise clock readings may come in any order. Only the results about
unchanged schedules assume that they are in order (`OnTime`). One iteration of the gate, one successful
reconcile and each of the goroutine's read, create and final write are atomic,
because every update carries the version it was read at and a refused update
changes nothing. Reads return the latest stored object.

The store of Kubernetes jobs is keyed by the run-job-name label. Names of
Kubernetes jobs are injective in it (`Translation.KJobNameInjective`), so the
lookup by name and the listing by label address the same entry.

Times are nanoseconds. The API keeps whole seconds, so every stored time is
rounded down (`Schedules.Stored`). A positive duration that does not reach the
next whole second therefore persists a pending date that is already over
(`Schedules.FuturePendingIff`, `RecoveryIntoThePast`).

## Where the code departs from its comments

The model follows the code.

- A job is created suspended only if its trigger is set (api/v1/run_types.go:505-512). With predecessors and no trigger it can start before them; `Creation.SafeFromCreationIff` says exactly when that is excluded.
- The trigger is consulted only while scanning predecessors (internal/controller/run_controller.go:340-361), although the comment above lists it as a reason of its own. A triggered job without predecessors is unsuspended, but stays annotated waiting, so its run never ends: `Triggers.TriggeredRunNeverEnds`. Only the text "true" does this; `Endings.CanEndIff` lists all that keeps a run from ending if no job starts before its first update pass, `CanEndAnyhowIff` all that does if jobs may.
- A missing predecessor ends the whole pass (internal/controller/run_controller.go:351-353). Uninterrupted creation never meets one, but a crash during creation can leave one behind if a job waits for a later job of the list or for none: exactly then a pass can fail this way (`WrongOrder.NeverMissingIff`). If that job is the first the waiting job looks for, the crash alone is enough, and no job after the waiting one is ever created (`WrongOrder.WrongOrderGetsStuck`, `StuckForever`); otherwise a pass fails once the entries before the missing one have passed. The runs shown for the latter finish jobs before their first update pass.
- An active job with an unexpected pod phase reads as deleted, which lets its successors run (api/v1/run_types.go:802-807, 823). "Stopping" is never produced.
- The comment ranks run before pre-run before post-run (api/v1/run_types.go:144); the table puts failed first, and deleting and stopping below completed (api/v1/run_types.go:124-134). `Aggregation.RankFollowsCommentIff` says for which listings that makes no difference.
- The unit for weeks is missing from the pattern (api/v1/pipeline_types.go:120), so weeks scan to nothing (`Durations.ScanOfRender`: exactly the six units of the pattern read back), and the start date is compared through a variable that is still zero (api/v1/pipeline_types.go:161-164), so it is ignored, which does no harm exactly when it is not in the future (`Durations.StartIgnoredIff`).
- A goroutine between its check and its create can be overtaken by a reconcile that takes it for lost (internal/controller/pipeline_controller.go:257-260). `ScheduleRuns.RaceCreatesTwoRuns` runs a non-repeating schedule twice this way. `CreatesFromLatestIff` says when a create belongs to the latest decision, `AtMostOnceIff` and `CreateIsOnlyIff` when there is only one run.

## Model

| member | source | states |
|---|---|---|
| JobStates.DeterminedStates | api/v1/run_types.go:798-824 | for each state, exactly which jobs are annotated with it; stopping and unknown never occur |
| JobStates.PassedIff | internal/controller/run_controller.go:355-357 | exactly when the annotation of a job lets its successors run |
| Gating.GateOpenIff | internal/controller/run_controller.go:340-362 | a job is unsuspended iff all its predecessors exist and have passed, and it has none if triggered |
| Gating.GateMissingIff | internal/controller/run_controller.go:348-353 | the pass fails iff the first predecessor that stops the scan does not exist |
| Gating.CreatedSuspendedIff | api/v1/run_types.go:505-512 | a job is created suspended iff its trigger is one of the six texts Go reads as true |
| RunReconciler.JobStore.FindBefore | internal/controller/run_controller.go:331-338 | the loop finds the RunBefore list of the first job with the label's name, or none |
| RunReconciler.JobStore.IsSuspending | internal/controller/run_controller.go:340-361 | the scanning loop with its break ends as the gate function says: held, absent or open |
| RunReconciler.JobStore.EnsureKJobList | internal/controller/run_controller.go:260-371 | the loop over the job list leaves the store and the error of `Gating.Pass`, for an API failure at any job |
| GatingRuns.GateSafety | internal/controller/run_controller.go:318-362 | in every run, an unsuspended job that has been updated has all direct predecessors succeeded |
| GatingRuns.AncestorsSucceeded | internal/controller/run_controller.go:318-362 | if no job starts before its first update, all transitive ancestors of a started job have succeeded |
| GatingRuns.DescendantsOfDeadNeverStart | internal/controller/run_controller.go:340-362 | no descendant of a job that never succeeds ever starts |
| GatingRuns.CycleNeverStarts | internal/controller/run_controller.go:340-362 | no job on a dependency cycle ever starts |
| GatingRuns.TrappedForever | internal/controller/run_controller.go:340-362 | a set of waiting jobs each blocked by the set or by a dead job stays suspended and waiting in every later state |
| Creation.ExistingJobsFormPrefix | internal/controller/run_controller.go:269-296 | wherever passes are cut off, the existing jobs are a prefix of the job list |
| Creation.MissingUnreachable | internal/controller/run_controller.go:340-353 | if no job waits for a later one or for none, the missing-predecessor error cannot occur in any run |
| Creation.UninterruptedPassCreatesAll | internal/controller/run_controller.go:269-296 | after any run of such a list the next whole pass succeeds and every job exists |
| WrongOrder.NeverMissingIff | internal/controller/run_controller.go:269-353 | for distinct names: no run misses a predecessor, and one whole pass always creates what is missing, each iff no job waits for a later one or for none |
| WrongOrder.UntriggeredNeverMissingIff | internal/controller/run_controller.go:269-353 | for untriggered lists without self-dependencies, and runs without edits, that is: iff the list is ordered |
| WrongOrder.WrongOrderGetsStuck | internal/controller/run_controller.go:269-353 | a crash after creating job i reaches a stuck state whenever job i waits first for a job not created by then |
| WrongOrder.StuckForever | internal/controller/run_controller.go:346-353 | from a stuck state no job after job i is created in any later state of any run |
| Creation.UnheldJobStartsEarly | api/v1/run_types.go:505-512 | a run in which a job created unsuspended starts before its predecessors |
| Creation.SafeFromCreationIff | api/v1/run_types.go:505-512 | started jobs have succeeded predecessors in every run iff every job with predecessors is created suspended |
| Triggers.TriggeredWaits | api/v1/run_types.go:800-801 | without edits a triggered job is only ever annotated waiting, and with predecessors never starts |
| Triggers.TriggeredRunNeverEnds | internal/controller/run_controller.go:481 | the completion test fails in every state of a run with a triggered job |
| Triggers.PassUpdatesTriggers | internal/controller/run_controller.go:323-325 | a pass without error rewrites a trigger annotation "true" iff the listed trigger is "false", leaves all others, and creates jobs with the listed one |
| Triggers.EditReleases | internal/controller/run_controller.go:323-325 | after all triggers are edited away, one whole pass without error leaves no job triggered |
| Endings.CanEndIff | internal/controller/run_controller.go:318-481 | without edits and early starts, some run passes the completion test iff names are distinct, dependencies are jobs of the run, none is triggered and there is no cycle |
| Endings.CanEndAnyhowIff | internal/controller/run_controller.go:318-481 | if jobs may start early, and triggers are "true" or read as false as in translated runs: iff names are distinct, none is triggered and the first predecessor of each job is a job of the run |
| Endings.CanStillEndIff | internal/controller/run_controller.go:318-481 | once its jobs exist, a run without early starts can still end, by editing its triggers away, iff the untriggered list is plain and acyclic, wherever it stands |
| Acyclicity.AcyclicIff | internal/controller/run_controller.go:340-361 | falling ranks, no path back to its start, and bounded paths are the same condition |
| Acyclicity.LongestChain | internal/controller/run_controller.go:340-361 | the rank used in the bounds is the length of a longest RunBefore chain ending at the job |
| Convergence.Convergence | internal/controller/run_controller.go:269-367 | if no RunBefore chain has more than depth edges, 2(depth+1) passes settle any list, depth+2 an ordered one, and later passes change nothing |
| Convergence.UniqueFixedPoint | internal/controller/run_controller.go:269-367 | a pass changes nothing iff the store is the settled one, which depends only on what the cluster reports |
| Tightness.BoundsAreAttained | internal/controller/run_controller.go:269-367 | for every depth there is a run that one pass fewer than either bound does not settle |
| Progress.EveryJobCompletes | internal/controller/run_controller.go:340-364 | where the cluster finishes every job let go, untriggered runs are completed for good from pass 2(depth+1)+1 on, counting the creating pass, and one pass earlier if jobs may finish before their first update |
| Progress.CompletesFromAnyStore | internal/controller/run_controller.go:340-364 | from any store with all jobs there and none triggered, 2(depth+1) passes complete them all |
| Progress.RoundsAreRuns | internal/controller/run_controller.go:269-367 | passes with a permitted report of the cluster after each are a run, so the safety results hold on the way |
| Progress.SomeRunCompletes | internal/controller/run_controller.go:340-364 | every such job list has a run without edits and early starts that completes every job |
| Progress.CompletedRunIsReported | internal/controller/run_controller.go:412-489 | any listing of such a store gives run state completed, all jobs counted completed, and a true completion test |
| Aggregation.RunStateIsMaximum | api/v1/run_types.go:826-832 | the fold gives the one state of highest rank among the jobs |
| Aggregation.RunStateByListing | api/v1/run_types.go:124-134 | for each run state, exactly which states have to be listed and which not |
| Aggregation.RunStateOrderFreeIff | api/v1/run_types.go:124-134 | the run state is independent of listing order iff some state is ranked or all are equal |
| Aggregation.RankFollowsCommentIff | api/v1/run_types.go:124-144 | the run state is of the category the comment ranks highest iff a failed job is listed only with ended ones and no deleting or stopping job is outranked |
| Aggregation.CountersSum | internal/controller/run_controller.go:404-455 | the eight counters add up to the number of jobs iff every annotation is one of the eight states |
| Aggregation.CountersByPlace | internal/controller/run_controller.go:404-455 | each of the eight counters is the number of places at which its state is listed |
| Aggregation.RunEndedIff | internal/controller/run_controller.go:481 | with as many annotations as listed jobs, the completion test holds iff all are post-run |
| Aggregation.SortedListFollowsJobs | internal/controller/run_controller.go:457-468 | any sorted permutation of a listing with one entry per job is in the order of the job list |
| Aggregation.UnlistedFirst | internal/controller/run_controller.go:457-468 | entries of jobs the run does not list are sorted before all but the first listed job |
| Aggregation.JobIndexFacts | internal/controller/run_controller.go:457-461 | the index holds exactly the listed names, each with its last position |
| Listings.RunEndedIffAllPostRun | internal/controller/run_controller.go:481 | for any listing order the completion test holds iff every job exists and is post-run |
| Listings.CountersOfStore | internal/controller/run_controller.go:401-455 | for any listing order, each counter is the number of stored jobs annotated with its state |
| Listings.ReportFollowsJobs | internal/controller/run_controller.go:457-468 | the reported list has each job at its position in the job list, with its object name, annotation and reason |
| RunReconciler.Tally | internal/controller/run_controller.go:401-455 | the counting loop computes the fold and the multiplicity of each of the eight states |
| RunReconciler.BuildIndex | internal/controller/run_controller.go:457-461 | the name-to-position map, last one winning |
| RunReconciler.SortJobStates | internal/controller/run_controller.go:463-466 | sorting in place keeps the entries and orders them by job position |
| RunReconciler.UpdateRunStatus | internal/controller/run_controller.go:373-500 | one attempt writes the pipeline's end date iff the run ended, then counters, state and sorted list; a refused pipeline write leaves all as it was, a refused run write leaves the end date written |
| Schedules.LaunchIff | internal/controller/pipeline_controller.go:253-316 | exactly when a reconcile starts a goroutine, and every field it stores then; the last execution is forgotten iff the date changed |
| Schedules.WriteIff | internal/controller/pipeline_controller.go:253-284 | exactly when a reconcile only writes, and what it takes back: the start of an emptied date, or a superseded pending date |
| Schedules.FailIff | internal/controller/pipeline_controller.go:274-277 | an unreadable date is an error iff it would be used |
| Schedules.RemovalDecision | internal/controller/pipeline_controller.go:236-251 | without a schedule in the spec everything stored about one is cleared |
| Schedules.PanicIff | internal/controller/pipeline_controller.go:253 | a nil schedule is dereferenced iff a date is pending without one |
| Schedules.StoredFields | internal/controller/pipeline_controller.go:305-309 | storing keeps every field, and of every time its whole second |
| Schedules.DecideKeepsGood | internal/controller/pipeline_controller.go:233-309 | a reconcile never dereferences nil on a good status and only writes good ones: nil-safe, exclusive, inside the end date |
| Schedules.CheckMeaning | internal/controller/pipeline_controller.go:351-396 | a goroutine passes iff the stored status still has its start, pending and end date, repeat flag and count, before the end date |
| Schedules.LostHandlerRecovery | internal/controller/pipeline_controller.go:253-309 | after a lost goroutine at most two reconciles persist a fresh pending date, unless it would pass the end date; it lies in the future iff the duration reaches the next whole second |
| Schedules.FuturePendingIff | internal/controller/pipeline_controller.go:294-307 | a stored pending date is in the future iff the duration reaches the next whole second |
| Schedules.RecoveryIntoThePast | internal/controller/pipeline_controller.go:253-309 | a lost goroutine and a positive duration whose recovery persists a date already over |
| ScheduleRuns.NoNilDereference | internal/controller/pipeline_controller.go:241-386 | in every reachable state no reconcile and no goroutine dereferences a nil schedule, and every snapshot is complete |
| ScheduleRuns.RunningExcludesPending | internal/controller/pipeline_controller.go:253-417 | while an execution is marked running nothing is pending and no goroutine passes its check |
| ScheduleRuns.NothingWithoutSchedule | internal/controller/pipeline_controller.go:236-309 | in every reachable state a status without schedule has no start, pending date, last start or count, and a stored schedule has a date |
| ScheduleRuns.RemovalClears | internal/controller/pipeline_controller.go:241-251 | after the schedule is removed, an accepted reconcile leaves nothing of it stored and no goroutine that may fire |
| ScheduleRuns.EmptiedDateWithdraws | internal/controller/pipeline_controller.go:268-272 | after the date is emptied, no goroutine may fire once a reconcile is accepted |
| ScheduleRuns.UnreadableDateKeeps | internal/controller/pipeline_controller.go:274-277 | a reconcile of an unreadable date changes nothing |
| ScheduleRuns.ChangedDateForgets | internal/controller/pipeline_controller.go:291-307 | a launch under a changed date clears the last execution and its count; goroutines with another start may not fire |
| ScheduleRuns.CloseMarksRunning | internal/controller/pipeline_controller.go:412-417 | an accepted final write stores the start of the execution, no end, nothing pending, and one more execution |
| ScheduleRuns.NothingLaunchesWhileRunning | internal/controller/pipeline_controller.go:263-266 | from an accepted final write on nothing is decided, in every run in which no run ends and the schedule is not removed |
| ScheduleRuns.EndFrees | internal/controller/run_controller.go:481-489 | the end of a run stores the end date and so ends the execution, and changes nothing else |
| ScheduleRuns.UndisturbedFires | internal/controller/pipeline_controller.go:301-417 | a launched decision nobody disturbs creates exactly one run, counts it and marks it as executing |
| ScheduleRuns.OnlyLatestFires | internal/controller/pipeline_controller.go:351-417 | with distinct instants, only the latest persisted decision passes its check or has its final write accepted |
| ScheduleRuns.LatestIff | internal/controller/pipeline_controller.go:301-396 | with distinct instants the stored start date is a goroutine's own iff its decision is the latest and not withdrawn; under a lasting schedule, iff it is the latest |
| ScheduleRuns.CreatesFromLatestIff | internal/controller/pipeline_controller.go:351-410 | under a lasting schedule a created run belongs to the latest decision iff the stored start date at the create is still the goroutine's |
| ScheduleRuns.DistinctWhileUnchanged | internal/controller/pipeline_controller.go:253-307 | while the schedule is unchanged and pending dates are stored in the future, no two decisions have the same stored start instant |
| ScheduleRuns.UnchangedLatestIff | internal/controller/pipeline_controller.go:301-417 | for such a schedule a goroutine's decision is the latest iff the stored start date is its own, and only the latest passes its check or closes |
| ScheduleRuns.RunsInWindow | internal/controller/pipeline_controller.go:331-405 | every scheduled run is executed between its pending date and its end date, and stored pending dates respect the end date |
| ScheduleRuns.RepeatedCountsRuns | internal/controller/pipeline_controller.go:291-417 | creates since the last reset = the stored count + those in flight + those whose final write was lost |
| ScheduleRuns.AtMostOnceIff | internal/controller/pipeline_controller.go:286-417 | an unchanged non-repeating schedule has created as many runs as are counted (at most one), lost their final write or are in flight; so at most one iff these are at most one |
| ScheduleRuns.CreateIsOnlyIff | internal/controller/pipeline_controller.go:286-410 | a create makes the only run of such a schedule iff none is counted, lost its final write or is in flight |
| ScheduleRuns.AtMostOnceWhileClean | internal/controller/pipeline_controller.go:286-417 | an unchanged non-repeating schedule with pending dates stored in the future and no final write lost or bound to be lost has at most one run, counting those in flight |
| ScheduleRuns.RaceCreatesTwoRuns | internal/controller/pipeline_controller.go:257-410 | an interleaving without crashes, with the clock in order and pending dates in the future, that creates two runs of a non-repeating schedule, the first from an overtaken decision |
| PipelineReconciler.ApiServer.UpdateStatus | internal/controller/pipeline_controller.go:309-311 | a write succeeds iff the copy is current, stores rounded times, bumps the version iff something changed, and refreshes the copy |
| PipelineReconciler.ScheduleDue | internal/controller/pipeline_controller.go:263-319 | the second half of the reconcile commits exactly the decision function's outcome |
| PipelineReconciler.EnsureScheduleExecution | internal/controller/pipeline_controller.go:233-319 | field-by-field changes and write-back commit exactly the decision; a goroutine is started iff it was persisted, with a copy of what was stored |
| PipelineReconciler.Recheck | internal/controller/pipeline_controller.go:321-396 | the chain of comparisons lets the goroutine on iff the check function passes, with the current copy and version |
| PipelineReconciler.CloseExecution | internal/controller/pipeline_controller.go:412-420 | the final write counts the execution, marks it running and clears pending iff nothing was written since the read |
| PipelineReconciler.ExecuteSchedule | internal/controller/pipeline_controller.go:321-420 | undisturbed, the goroutine creates its run and closes the execution iff its check passes and the name is free, and otherwise changes nothing |
| Naming.BaseNameRecovered | api/v1/run_types.go:881-884 | splitting a generated name at its last dash recovers the base name, for any hash |
| Naming.HexForm | api/v1/run_types.go:881-884 | the hash is written in base sixteen, lower case, without leading zeros |
| Naming.ShortNameInjective | api/v1/run_types.go:881-884 | generated names are equal iff base names and hashes are |
| Naming.ShortNameSlashFree | api/v1/run_types.go:881-884 | a name generated from a slash-free base is not empty and slash-free |
| Translation.NewRunJobs | api/v1/run_types.go:348-397 | the nested loops build the renamed job of every task, in order, with the hash of run name and namespace |
| Translation.EdgesPreserved | api/v1/run_types.go:348-397 | RunBefore entries keep place and number and name a job iff the task's entry names its task; triggers are kept |
| Translation.NamesPreserved | api/v1/run_types.go:348-397 | a reference is dangling among the jobs iff it is among the tasks |
| Translation.ListShapePreserved | api/v1/run_types.go:348-397 | distinct names and dependency order hold of the jobs iff of the tasks |
| Translation.ChainsPreserved | api/v1/run_types.go:348-397 | dependency paths of tasks and of jobs correspond |
| Translation.AcyclicityPreserved | api/v1/run_types.go:348-397 | the job graph is acyclic iff the task graph is |
| Translation.PlainRunIff | api/v1/run_types.go:348-397 | which pipelines translate to runs that `Progress.EveryJobCompletes` applies to |
| Translation.KJobNameInjective | api/v1/run_types.go:532-539 | jobs of a run share a Kubernetes name iff they share their name, for any hash function |
| Translation.KJobNamesAcrossRuns | api/v1/run_types.go:532-539 | jobs of any runs share a Kubernetes name iff they share their name and the hash of job name, run name and namespace |
| Volumes.BuildMount | api/v1/run_types.go:687-732 | the statements of one loop round build the mount function's value |
| Volumes.ParseVolumeMountList | api/v1/run_types.go:676-737 | succeeds iff every entry names a volume, with one mount per entry in list order |
| Volumes.ParseVolumes | api/v1/run_types.go:638-669 | succeeds on exactly the same inputs, with the first occurrences of the volume names |
| Volumes.VolumesAgreeWithMounts | api/v1/run_types.go:638-737 | mounts name exactly the volumes, volumes are unrepeated in first-use order, a mount is read-only iff it is an input |
| Volumes.EntriesByPlace | api/v1/run_types.go:679-681 | run inputs, run outputs, job inputs, job outputs, in this order, inputs only being read-only |
| Volumes.NamedIff | api/v1/run_types.go:854-863 | a name is accepted iff something is left between its outer slashes that starts with no other |
| Volumes.TrimForms | api/v1/run_types.go:857-858 | one leading and one trailing slash are dropped, no more |
| Volumes.MountPathForms | api/v1/run_types.go:694-729 | the mount path from prefix and override as given, with the default prefix and the added slash |
| Volumes.PathRoundTripIff | api/v1/run_types.go:687-731 | volume name and subpath rejoin to the trimmed name iff the part after its first slash has no slash at its ends |
| Volumes.DefaultMountPathIff | api/v1/run_types.go:694-729 | the default mount path is prefix, slash and trimmed name iff that name is a plain volume or a clean path |
| Volumes.PlainSubPath | api/v1/run_types.go:687-727 | without a run directory the subpath is what follows the volume in the name, trimmed |
| Volumes.RunDirectoryPath | api/v1/run_types.go:718-727 | with one, it is the run name and below it what follows the volume |
| Volumes.RunPathsCollideIff | api/v1/run_types.go:718-727 | with nothing to trim, two entries of a run share a subpath iff their names continue alike |
| Volumes.RunsIsolated | api/v1/run_types.go:718-730 | subpaths with a run directory contain one another only within one run |
| Volumes.GeneratedRunsIsolated | api/v1/run_types.go:718-730 | run names generated from slash-free pipeline names separate any two runs whose pipeline or hash differs |
| Durations.ScanIsLeftmost | api/v1/pipeline_types.go:120-122 | the scanner finds the leftmost non-overlapping matches of the pattern and nothing else |
| Durations.AddToken | api/v1/pipeline_types.go:123-146 | one round of the loop fails iff the number exceeds 64 bits and otherwise adds number times unit, modulo 2^64 |
| Durations.DurationFromDateString | api/v1/pipeline_types.go:113-149 | fails iff a number does not fit in 64 bits; otherwise the exact sum, wrapped once |
| Durations.ScanOfRender | api/v1/pipeline_types.go:119-148 | rendering numbers with units and scanning gives them back iff all units are among the six of the pattern |
| Durations.RenderedTotal | api/v1/pipeline_types.go:119-148 | the total of a rendered list is the exact sum of number times unit |
| Durations.UnitLetters | api/v1/pipeline_types.go:120 | exactly the letters s, m, h, d, M and y are units |
| Durations.UnitWorth | api/v1/pipeline_types.go:131-143 | what each unit is worth in nanoseconds |
| Durations.ReadableIff | api/v1/pipeline_types.go:123-127 | a number is readable iff it is at most the greatest 64-bit integer |
| Durations.DecimalForm | api/v1/pipeline_types.go:123-127 | the numbers rendered and read are decimal, most significant digit first |
| Durations.LeadForms | api/v1/pipeline_types.go:115-118 | the lead is the time until a start to come, within 64 bits |
| Durations.SaturateForms | api/v1/pipeline_types.go:115-118 | a time difference outside 64 bits becomes the nearest one inside |
| Durations.TotalsAdd | api/v1/pipeline_types.go:119-148 | totals add over joined texts |
| Durations.ExactIff | api/v1/pipeline_types.go:131-143 | the 64-bit result is exact iff the total fits in 63 bits |
| Durations.NoIntermediateOverflow | api/v1/pipeline_types.go:131-143 | if the total fits, no product and no partial sum on the way overflows |
| Durations.WeeksScanToNothing | api/v1/pipeline_types.go:120 | a number of weeks is not recognised |
| Durations.StartIgnoredIff | api/v1/pipeline_types.go:115-118 | ignoring the start of a date string gives the duration that honouring it would iff the start is not in the future |
| Durations.Duration | api/v1/pipeline_types.go:160-177 | the cron result if the text is a cron expression, otherwise the date total; the start date has no influence |

## Left out

- The Kubernetes client, informer caches and watches: reads in the model return the latest stored object, so a stale cache is not covered.
- External deletion of Kubernetes jobs, and edits of names or dependencies of a run's jobs: the store only grows and the graph of a run is fixed.
- Jobs of other runs that would share a run-job-name label through a hash collision.
- The retry loop around the run status update: one attempt is modelled.
- Status fields without influence on gating or scheduling (run count, created and updated dates of the pipeline), metadata, pod templates, resources, images, commands, environment variables and volume claims: copied or single-branch code.
- The additional container and pod specs merged over a job's template: a foreign library.
- Cron parsing and the hash: uninterpreted functions. The rendering of a spec in a run's name: any name may come out, new or taken.
- ensureRunExists: creates a run if its name is free; its contract would restate its body.
- Whether a run's executed date survives creation: the model records the date in the create request.
- RunReconciler.SortJobStates: insertion sort stands in for the library's sort; only order and contents are used.
- Creation.SafeFromCreationIff: for distinct job names and runs without trigger edits, since an edit can change what a job is created with.
- Progress.EveryJobCompletes: for runs without triggers, dangling dependencies, repeated names and cycles; with any of these no run without edits and early starts ends (`Endings.CanEndIff`).
- ScheduleRuns.OnlyLatestFires: at the goroutine's read and final write; at the create in between it can fail (`ScheduleRuns.RaceCreatesTwoRuns`), exactly as `ScheduleRuns.CreatesFromLatestIff` says.
- WrongOrder.NeverMissingIff: for distinct job names; over runs in which jobs may start before their first update pass and triggers may be edited.
- Endings.CanEndAnyhowIff: for triggers that are "true" or read as false; jobs created suspended by another text that reads as true are covered by `Endings.CanEndIff`, without early starts.
