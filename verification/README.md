# Inspection core: a verified model

This project models the algorithmic core of an offline inspection service and proves what its code,
tests and documentation promise of it. Everything is written in Dafny and checked by
`dafny verify dfyconfig.toml`.

**Stage runtime** (`Units`, `Parallel`, `Executor`). Planned units run in a bounded window over a
process pool; when the pool breaks, what is in flight is drained and the units without a result run
again one at a time. The pools are the environment of a stage: which submissions are accepted and
which results come back are arbitrary functions of the unit, and the units that complete next are
chosen by a nondeterministic assignment, so every contract holds for every completion order and every
crash point. `Executor` puts the barriers EXTRACT, PREPARE, INSPECT and the prepare cache around it,
with a possible stop of the process between any two changes of the prepared directories.

**Archives** (`CentralDirectory`, `MemberPath`, `Unpack`, `UnpackSelection`). The scan of raw member
names in a ZIP central directory (layouts of PKWARE's APPNOTE.TXT, sections 4.3.12 and 4.3.14 to
4.3.16), the normalisation of member paths, and the chunked unpack loop with its byte budgets and
per-member rollback over a map from paths to bytes, from the member names as the archive lists them.

**Measurement units** (`Alignment`, `Observations`, `Bindings`). The memoised acronym alignment of
column names, the folding of CSV rows over several files, and the confirmation of bindings.

**History and daily health** (`Baseline`, `HistoryWinners`, `Sums`, `Texts`, `DailyPoints`, `DailyHealth`). The
median baseline, the record that stands for an instant, deduplication, numerator/denominator pairing,
pooled rates and the current judgement. Values are reals and instants are integers.

**Tables** (`Migration`, `MigrationStore`, `Maintenance`, `Scope`, `Auth`). The v5 to v6 migration,
maintenance operations with idempotency keys, the effective KPI scope in its three computations, and
users with their sessions. A table is a map or a sequence with its unique keys, and a commit is one
atomic change.

Code that changes state step by step is a class or a method with loops, proved against a
specification function or predicate; the properties are lemmas about that specification. Stored text
results, display columns and messages are dropped.

## Where the code differs from what one would expect

Each of these is a lemma with a concrete input or an exact condition:

- A file member whose path an earlier member turned into a directory aborts the whole archive
  (`UnpackSelection.FileAfterItsChild`); without such members an archive never aborts
  (`UnpackSelection.NeverAborts`), and in general it aborts exactly at the first blocked member
  (`UnpackSelection.GreedySelection`).
- A plain archive whose comment repeats the end signature is located by the last repetition instead of its
  own end record (`CentralDirectory.LocatesPlain`, `CentralDirectory.LastSignatureDecides`); one whose comment
  ends with that signature is refused (`CentralDirectory.CommentEndsInSignature`).
- A ZIP64 directory behind a locator and an end record that do not repeat their signatures is located exactly
  when the archive comment has at most 65515 bytes, 20 fewer than the format allows
  (`CentralDirectory.LocatesZip64`); `CentralDirectory.EmptyZip64NotLocated` is such an archive.
- The aligner never tries an abbreviation where the next word equals the token, so it misses some
  segmentations (`Alignment.SegmentationMissed`); `Alignment.MatchesExactly` says which ones it finds.
- The day value "latest" of points of several objects is the value of the greatest key that has one, and it
  is of a latest instant exactly when no other object or period has a later value
  (`DailyHealth.LatestExactly`); `DailyHealth.LatestAcrossObjects` is a day on which it is not.
- A disabled v5 derived row can be audited as recovered while it is left pending
  (`Migration.RecoveredThoughPending`), and a binding without a metric can be migrated although the
  insert of its unit failed (`Migration.UnitBindingReference`, and `Migration.BindingWithoutUnit` for tables on
  which it happens).
- A retry that was stopped after it recovered an audit cannot be resumed under its key: the replay is
  refused and deletes the operation (`Maintenance.StoppedRetryRefused`, with `Maintenance.RetryStoppedTooLate`
  as such a run); the same goes for a resolve call that was stopped after it materialized its row
  (`Maintenance.StoppedResolveRefused`).
- A session survives a password change by its own user (`Auth.SessionEnds`, `Auth.SurvivesPasswordChange`).

Two properties rest on an invariant that the writers keep. Metric ids are never empty: registration and binding
calls keep it (`Bindings.RunsOwnEachOnce`), so do materialization (`Maintenance.RunsKeepNames`) and migration
(`Migration.MigrationKeepsConsistency`), and on such tables ownership of every metric is unique and the three scope
computations agree (`Scope.NamedScopesAgree`). And a legacy key of the v6 resources names the resource in its row:
the references of migrated rows are stated for such tables, which an empty database is and every migration keeps
(`Migration.RunsKeepConsistency`).

## Model

| member | source | states |
|---|---|---|
| Parallel.StageRunner.RunStage | app/services/parallel.py:169-245 | One slot for each plan: the serial outcome unless that unit's own recovery run was lost; nothing is submitted twice to one pool and nothing measured runs again; how the stage ends is decided by policy and environment; a degraded stage makes every later one serial (class invariant); the log has one block for each unit in plan order |
| Parallel.StageRunner.RunParallel | app/services/parallel.py:247-292 | For every completion order and crash point the pending units are partitioned into measured and unsettled; nothing is unsettled unless degraded; degraded exactly when some submission was refused or some result did not come back; never more in flight than the workers |
| Parallel.StageRunner.FillWindow | app/services/parallel.py:260-269 | Submits from the head of the queue until the window is full, the queue is empty or a submission is refused, and then the refused unit is back at the head |
| Parallel.StageRunner.SettleAll | app/services/parallel.py:273-290 | Settling any set of in-flight units moves each of them to measured or to crashed, and to exactly one |
| Parallel.StageRunner.Settle | app/services/parallel.py:332-342 | A shared-pool result counts only when it came back and is not a crash |
| Parallel.StageRunner.RecoverUnits | app/services/parallel.py:294-315 | Every unsettled unit is measured once: its own outcome, or the crash outcome when its run was lost |
| Parallel.StageRunner.RunSerially | app/services/parallel.py:222-224 | Every pending unit gets its serial outcome, with the error lines in plan order |
| Parallel.StageRunner.RunPooled | app/services/parallel.py:204-221 | Shared pool and recovery together measure exactly the pending units, each by the pool that settled it |
| Parallel.StageRunner.RunSingle | app/services/parallel.py:157-167 | A single rerun gives the serial outcome and writes the same block |
| Parallel.StageRunner.ExecutePlan | app/services/parallel.py:344-359 | An exception of a unit becomes its crash outcome and one error line |
| Parallel.StageRunner.FlushUnit | app/services/parallel.py:409-422 | A block is planning lines, worker lines, then the hook |
| Parallel.RefinesSerial | app/services/parallel.py:202-230 | A stage differs from the serial stage only at units whose own recovery run was lost, and there by the crash outcome; with none lost, outcomes and hooks are those of the serial stage |
| Parallel.HooksInPlanOrder | app/services/parallel.py:226-230 | The hooks of a stage are called once for each unit with an outcome, in plan order |
| Executor.TaskExecutor.RunAll | app/services/executor.py:363-413 | An extraction error means only extraction results and no change of states or directories; otherwise one result for each extraction and visible rule in scope, a settled state for each of these rules with a prepare, and no rule runs on a missing, failed or outdated directory; every unit runs at most once in each pool; with no recovery run lost, as always under a serial policy, results, states and markers are those of the run without pools; the directories stay sound wherever the run ends |
| Executor.TaskExecutor.RunIsSerial | app/services/executor.py:389-413 | Whatever the policy, the pools and the completion order, a run that loses no recovery run leaves the results, prepare states and markers of the run without pools |
| Executor.TaskExecutor.RunPrepares | app/services/executor.py:391-396 | After the prepare stage every owner is settled by its plan and outcome, HIT or REBUILT means that its marker is the rule's hash, a unit that ran left a marker exactly when it reported REBUILT, no other state or marker changed, and every unit ran at most once in each pool |
| Executor.TaskExecutor.PreparedSerially | app/services/executor.py:391-396 | With no recovery run lost, the prepare stage leaves exactly the states and markers that it leaves without pools |
| Executor.TaskExecutor.PlanPrepare | app/services/executor.py:164-232 | Rejected patterns fail, no match skips, an equal marker hits; only a plan that needs a worker wipes the owner directory, and then its marker is gone |
| Executor.TaskExecutor.FinishPrepare | app/services/executor.py:234-249 | Only a prepare that reported REBUILT gets a marker, even with a stop between report and marker |
| Executor.TaskExecutor.FinishPrepares | app/services/executor.py:396-396 | The hook calls in plan order turn every planned owner into a settled one |
| Executor.TaskExecutor.RunsOnlyWhenReady | app/services/executor.py:251-278 | A visible rule in scope with a prepare is settled, and it gets a request only when its current version reported REBUILT since the directory was last wiped |
| Executor.TaskExecutor.RunExtraction | app/services/executor.py:365-370 | Every extraction runs and is recorded, also after one that failed; the run is blocked exactly when one of them is an error |
| Executor.TaskExecutor.RunOne | app/services/executor.py:346-358 | A single run is the short circuit of its plan or the rule body, and is recorded |
| Executor.TaskExecutor.RunStages | app/services/executor.py:389-413 | The results after both stages, for every environment of either stage, with the plans and histories they come from |
| Executor.TaskExecutor.AssignOrder | app/services/executor.py:93-96 | The order of a result is the last position of its code in the whole plan |
| Executor.PreparedStore.WriteMarker | app/services/executor.py:236-238 | A marker equals the hash whose prepare reported REBUILT since the last wipe (class invariant) |
| CentralDirectory.RejectUnsafeRawNames | app/core/archive.py:170-208 | The reader's walk gives what the specification reads off the bytes, and its check of the seek position never fires |
| CentralDirectory.NeverSeekMismatch | app/core/archive.py:203-206 | No file makes the scan end with a seek mismatch |
| CentralDirectory.FindDirectory | app/core/archive.py:170-190 | The end record is the last one in the tail, and its fields or the ZIP64 record give the directory |
| CentralDirectory.FindZip64Directory | app/core/archive.py:151-167 | The locator in the tail leads to the ZIP64 record, whose size and offset must lie in the file |
| CentralDirectory.ReadEntry | app/core/archive.py:192-206 | One step reads the entry at the position and moves behind it, by at least 46 bytes |
| CentralDirectory.WalkEncoded | app/core/archive.py:191-208 | Over entries laid out back to back the walk visits exactly their names up to the first that holds a NUL, and otherwise ends on the directory size |
| CentralDirectory.WalkAccepted | app/core/archive.py:191-208 | A walk that accepts has read entries without NUL, laid out back to back |
| CentralDirectory.AcceptsDirectories | app/core/archive.py:170-208 | A located directory is accepted exactly when its bytes are such a list of entries |
| CentralDirectory.PlainRoundTrip | app/core/archive.py:170-208 | For a whole plain archive the scan visits the encoded names and accepts exactly when none holds a NUL; with a comment that repeats the end signature it scans what the last repetition leads to |
| CentralDirectory.LocatesPlain | app/core/archive.py:175-190 | Size and offset come from the end record of an archive that ends with it, unless its comment repeats the end signature |
| CentralDirectory.LastSignatureDecides | app/core/archive.py:178-190 | For every comment, the fields behind the last end signature are taken for the end record |
| CentralDirectory.CommentEndsInSignature | app/core/archive.py:178-183 | An archive whose comment ends with the end signature is refused |
| CentralDirectory.LocatesZip64 | app/core/archive.py:151-190 | When neither end record nor locator repeats its signature, a ZIP64 directory is located exactly when the comment leaves room for the locator in the tail |
| CentralDirectory.EmptyZip64NotLocated | app/core/archive.py:173-177 | An empty ZIP64 archive is located with a comment of 65515 bytes and not with one more |
| CentralDirectory.DecodeEncode | app/core/archive.py:192-196 | Little-endian fields read back what was written |
| MemberPath.NormalizeMemberPath | app/core/archive.py:75-105 | The loop gives the specified parts or refuses the path |
| MemberPath.NormalizedIsClean | app/core/archive.py:75-105 | An accepted path has only proper parts: none empty, ".", ".." or with a separator |
| MemberPath.NormalizeCanonical | app/core/archive.py:75-105 | Normalising the joined parts again gives the same parts exactly when the first does not look like a drive |
| Unpack.CopyBody | app/core/archive.py:335-345 | The chunk loop succeeds exactly for a body that opens, ends and fits both limits; otherwise it reports which limit the first chunk too many breaks; the disk never holds more than the total limit at a write |
| Unpack.ProcessMember | app/core/archive.py:316-367 | One round of the loop is one step of the specification over whole bodies |
| Unpack.FailMember | app/core/archive.py:254-269 | Rollback deletes the partial target and records or raises the error; on a directory it aborts |
| Unpack.StepBytes | app/core/archive.py:338-350 | A step adds no more bytes to the disk than to the total |
| Unpack.UnpackMembers | app/core/archive.py:315-367 | The loop is a complete run of the specification, within the byte budget throughout |
| Unpack.UnpackArchive | app/core/archive.py:282-504 | From the names and types of the members: too many files or, without a handler, a refused member abort before anything is written; otherwise the result is that of the run over the normalised members; and in no case is a file or directory made at a path with an unclean part |
| Unpack.CheckMember | app/core/archive.py:221-395 | The name and type checks of a ZIP member and of a TAR member, in their different orders; a file that passes has a clean path |
| Unpack.RunPaths | app/core/archive.py:315-367 | A run makes files and directories only at and above the paths of its members |
| UnpackSelection.SelectionStep | app/core/archive.py:316-367 | On an empty root each member is kept exactly when it is next in the greedy selection, and aborts exactly when it is blocked |
| UnpackSelection.SelectionAfter | app/core/archive.py:315-367 | After every member the total is the bytes of the surviving files, and these are the greedy selection so far |
| UnpackSelection.GreedySelection | app/core/archive.py:315-380 | Unpacking into an empty root aborts exactly when some member is blocked, at the first such; otherwise it leaves exactly the greedy selection |
| UnpackSelection.NeverAborts | app/core/archive.py:315-380 | If no path is an ancestor of another, nothing aborts |
| UnpackSelection.FileAfterItsChild | app/core/archive.py:266-269 | A readable small file is blocked when an earlier member made its path a directory |
| UnpackSelection.ExistingFiles | app/core/archive.py:266-269 | In any root a step leaves an existing file alone except in the one named case, in which it deletes it |
| Alignment.Matcher.Match | app/services/kpi_measurement_units.py:512-530 | The memoised search equals the left-to-right scan from every pair of positions, and the memo stays sound |
| Alignment.TokensMatch | app/services/kpi_measurement_units.py:509-532 | The search from the start equals the deterministic scan |
| Alignment.MatchesExactly | app/services/kpi_measurement_units.py:509-532 | The aligner accepts exactly the token lists with a segmentation that prefers equal tokens |
| Alignment.SegmentationMissed | app/services/kpi_measurement_units.py:519-520 | A valid segmentation that the aligner does not find |
| Alignment.MatchesItself | app/services/kpi_measurement_units.py:509-532 | Every token list matches itself |
| Alignment.DenominatorIndices | app/services/kpi_measurement_units.py:535-559 | A rate column gets a denominator exactly when one and only one request column matches |
| Alignment.AliasCanonicalNames | app/services/kpi_measurement_units.py:562-575 | Aliased are exactly the names with company under their denominator, each sent to the first such name |
| Alignment.AliasesShareDenominator | app/services/kpi_measurement_units.py:562-575 | The alias map is idempotent, and two names get the same canonical name exactly when they share a denominator column |
| Observations.ClassifyRow | app/services/kpi_measurement_units.py:1788-1822 | The source columns of a row give its first number, or one of the three reasons for having none |
| Observations.AddRowSummarizes | app/services/kpi_measurement_units.py:1784-1831 | Counting one more row keeps an observation the summary of its rows |
| Observations.FoldFile | app/services/kpi_measurement_units.py:1763-1858 | The row loop leaves for every object the summary of its rows with the sources of those without a number, and the time series of the rows with a number and a time |
| Observations.MergeSummarizes | app/services/kpi_measurement_units.py:1349-1366 | Merging two observations gives the observation of all their rows |
| Observations.MergeInto | app/services/kpi_measurement_units.py:1874-1890 | Merging two dictionaries gives the dictionary of the rows together |
| Observations.FoldedAtOnce | app/services/kpi_measurement_units.py:1763-1890 | Folding file by file and merging equals folding all rows at once |
| Observations.InspectUnit | app/services/kpi_measurement_units.py:1752-1890 | The file loop summarizes the rows of every metric, chains their time series, and summarizes those of every object over all metrics |
| Observations.ObservationLaws | app/services/kpi_measurement_units.py:1784-1913 | Rows are valid, null, not applicable or a parse error; zeros are valid; the average lies between the extremes |
| Observations.LabelsMean | app/services/kpi_measurement_units.py:1895-1913 | What the finalised read status and value pattern say of the rows |
| Observations.ObjectCounters | app/services/kpi_measurement_units.py:1883-1890 | Every object-level counter is the sum of that counter over the metrics |
| Bindings.BindingService.SetStatus | app/services/kpi_measurement_units.py:1199-1231 | A confirmation is refused exactly when another unit has the metric confirmed |
| Bindings.BindingService.BatchConfirm | app/services/kpi_measurement_units.py:1234-1328 | Each distinct id is reported once, with the outcome that table and set of ids give it |
| Bindings.BindingService.Register | app/services/kpi_measurement_units.py:900-978 | Registering changes one row's metric, adds at most one resource, and refuses each bad request with its error |
| Bindings.RunsKeepOwner | app/services/kpi_measurement_units.py:1199-1328 | If each metric with an id is confirmed under one unit, every sequence of the three calls keeps it so |
| Bindings.BatchOrder | app/services/kpi_measurement_units.py:1234-1328 | A batch in another order or with repetitions gives the same table and outcomes |
| Bindings.RepeatedBatch | app/services/kpi_measurement_units.py:1234-1328 | A repeated batch changes no row and keeps every outcome but "confirmed", which becomes "already confirmed" |
| Bindings.RunsOwnEachOnce | app/services/kpi_measurement_units.py:900-1328 | Every sequence of the three calls keeps metric ids non-empty, and so the ownership of every metric unique |
| Baseline.MedianOfPermutation | app/services/kpi_history.py:289-298 | The median does not depend on the order of the samples |
| Baseline.BaselineOfPermutation | app/services/kpi_history.py:283-325 | The whole baseline point does not depend on the order of the samples |
| Baseline.HalfOfHistoryIsNormal | app/services/kpi_history.py:295-309 | With three or more samples, at least half of them would be judged normal |
| Baseline.ThresholdCoversMad | app/services/kpi_history.py:297-303 | The threshold is at least the median absolute deviation, which is not negative |
| Baseline.SignificanceIsMonotone | app/services/kpi_history.py:304-309 | The significance moves from lower over normal to higher as the value grows, and reaches each |
| Baseline.SignificanceIsDeviation | app/services/kpi_history.py:294-315 | Significant exactly when off the baseline by more than the threshold; the ratio restores the deviation |
| HistoryWinners.SelectWinners | app/services/kpi_history.py:459-472 | One record for each instant, in order of time, from a task that completed last |
| HistoryWinners.SelectionIsUnique | app/services/kpi_history.py:463-472 | With one record for each task and instant, the order of reading does not matter |
| DailyPoints.Deduplicate | app/services/kpi_daily_health.py:98-139 | One merged point for each key that occurs, in key order |
| DailyPoints.DeduplicationIsUnique | app/services/kpi_daily_health.py:98-139 | That meaning determines the list |
| DailyPoints.DeduplicationIsIdempotent | app/services/kpi_daily_health.py:689-692 | Deduplicating a deduplicated list changes nothing |
| DailyPoints.SettledIsFixed | app/services/kpi_daily_health.py:504-508 | So does deduplicating any part of it that keeps the order |
| DailyPoints.RestrictionCommutes | app/services/kpi_daily_health.py:562-564 | Restricting to a day or a group and deduplicating commute |
| DailyPoints.DeduplicationConservesTotals | app/services/kpi_daily_health.py:119-130 | Totals of numerators and denominators are conserved |
| DailyPoints.MergedValueBetween | app/services/kpi_daily_health.py:118-128 | A merged value is missing exactly when every duplicate lacks one, and else within their range |
| DailyPoints.PairDerived | app/services/kpi_daily_health.py:204-224 | Exactly the keys with a value on both sides, once each and in key order |
| DailyPoints.PairingIsOneToOne | app/services/kpi_daily_health.py:219-224 | No point belongs to two pairs |
| DailyPoints.PairingOfDeduplicated | app/services/kpi_daily_health.py:689-695 | Deduplicating first gives the same pairs, and the pairing is unique |
| DailyHealth.AggregateDay | app/services/kpi_daily_health.py:142-201 | The bucket of the day's deduplicated points, and its date |
| DailyHealth.DaySpan | app/services/kpi_daily_health.py:142-201 | First and last instant are those of the points that the bucket counts: the ones with a value, or all when none has one |
| DailyHealth.DayValueBetween | app/services/kpi_daily_health.py:174-194 | Except for sums the day value is within the values of the points, and missing only when all are |
| DailyHealth.LatestExactly | app/services/kpi_daily_health.py:185-186 | "Latest" is the merged value of the greatest key that has one, and no value is later exactly when no other object or period has a later one |
| DailyHealth.LatestWithinGroup | app/services/kpi_daily_health.py:185-186 | So within one object and period "latest" is the value of the latest instant that has one |
| DailyHealth.LatestAcrossObjects | app/services/kpi_daily_health.py:806-808 | A day of two objects on which it is the earlier one |
| DailyHealth.PooledBetweenRates | app/services/kpi_daily_health.py:242-256 | With positive denominators the pooled rate is between the smallest and the largest pair rate, for either template |
| DailyHealth.PooledIsPercentage | app/services/kpi_daily_health.py:244-264 | Parts within their wholes give 0 to 100; a zero total means that every whole is zero |
| DailyHealth.ComplementaryRates | app/services/kpi_daily_health.py:254-256 | Success and reverse rate add up to 100 and agree in everything else |
| DailyHealth.CloseReportsAreConsistent | app/services/kpi_daily_health.py:456-497 | Reported rates within t of their own pairs stay within t after weighting and pooling |
| DailyHealth.JudgementIsMonotone | app/services/kpi_daily_health.py:291-329 | A better value is never judged more severely |
| DailyHealth.JudgementMirrors | app/services/kpi_daily_health.py:319-328 | The two directions are mirror images |
| DailyHealth.JudgedNormalIff | app/services/kpi_daily_health.py:291-329 | When exactly a value is judged normal |
| DailyHealth.WorstIsLeast | app/services/kpi_daily_health.py:275-280 | The metric's status occurs among its groups and none is more severe |
| DailyHealth.WorstOfSameStatuses | app/services/kpi_daily_health.py:275-280 | It depends only on which statuses occur |
| DailyHealth.DerivedNormalIff | app/services/kpi_daily_health.py:609-653 | When exactly a derived group is normal, for whatever rounding of its value and denominator |
| Migration.MigrationOnlyAdds | app/services/kpi_v6_migration.py:94-128 | No row is changed or deleted and both unique keys of every table are kept |
| Migration.WritesAreIdempotent | app/services/kpi_v6_migration.py:94-95 | Writing the same again changes nothing |
| Migration.SecondRunAddsNothing | app/services/kpi_v6_migration.py:308-710 | A second run on unchanged v5 tables leaves all tables as they are |
| Migration.SecondRunCountsTheSame | app/services/kpi_v6_migration.py:703-710 | And it returns the same counts |
| Migration.CountsCoverAllRows | app/services/kpi_v6_migration.py:703-710 | Counts and skipped rows add up to all rows; only derived rows are skipped |
| Migration.NewRow | app/services/kpi_v6_migration.py:336-701 | Every row that a run adds to a v6 table was made from a mapped v5 row of that kind, under that row's type |
| Migration.MetricBindingReferences | app/services/kpi_v6_migration.py:414-472 | On tables with consistent legacy keys, a new binding row with a metric has unit and metric resource under its own type |
| Migration.UnitBindingReference | app/services/kpi_v6_migration.py:421-440 | On such tables and without a metric, it has its unit resource exactly when that insert did not fail or the row was there before |
| Migration.BindingWithoutUnit | app/services/kpi_v6_migration.py:421-440 | A binding that is migrated without its unit |
| Migration.DerivedReferences | app/services/kpi_v6_migration.py:509-592 | On such tables, a new derived row has unit and metric under its type, the other two under some type, and is no confirmed binding's identity |
| Migration.MaintenanceReferences | app/services/kpi_v6_migration.py:638-686 | On such tables, a new maintenance row has unit and metric under its type |
| Migration.MigrationKeepsConsistency | app/services/kpi_v6_migration.py:336-389 | A migration keeps legacy keys consistent and adds no resource with an empty id |
| Migration.RunsKeepConsistency | app/services/kpi_v6_migration.py:308-710 | So does any number of migrations, each of the v5 tables of its time, and none loses a row |
| Migration.BindingTypes | app/services/kpi_v6_migration.py:429-440 | A mapped binding's type is the only evidence for its unit and its metric |
| Migration.RecoveredIsMapped | app/services/kpi_v6_migration.py:390-409 | A resource or binding is audited as recovered exactly when it was disabled and mapped |
| Migration.RecoveredThoughPending | app/services/kpi_v6_migration.py:560-636 | When exactly a derived row is audited as recovered although it was left pending |
| Migration.PendingButAuditedRecovered | app/services/kpi_v6_migration.py:608-634 | It happens for a disabled row whose numerator is no resource |
| MigrationStore.BuildEvidence | app/services/kpi_v6_migration.py:321-332 | The dictionary holds for every id the types of the tasks that mention it |
| MigrationStore.V6Store.MigrateResources | app/services/kpi_v6_migration.py:336-409 | The resource loop writes and counts what the specification says, and collects the mapped ids |
| MigrationStore.V6Store.MigrateBinding | app/services/kpi_v6_migration.py:413-507 | One binding is attributed, written, left pending and audited as specified |
| MigrationStore.V6Store.MigrateDerived | app/services/kpi_v6_migration.py:524-636 | The same for one derived row, given the confirmed bindings |
| MigrationStore.V6Store.MigrateMaintenance | app/services/kpi_v6_migration.py:639-701 | The same for one maintenance row |
| MigrationStore.V6Store.Migrate | app/services/kpi_v6_migration.py:308-710 | The whole run gives the specified tables and counts |
| Maintenance.MaintenanceDb.Retry | app/services/kpi_measurement_scope.py:750-855 | Every commit prefix of a retry is one of the specified states; the invariant holds and progress is monotone even if the call stops |
| Maintenance.MaintenanceDb.Resolve | app/services/kpi_measurement_scope.py:1217-1330 | The same for a resolve call, with materialization and its rollback |
| Maintenance.RetryKeeps | app/services/kpi_measurement_scope.py:720-855 | A retry, completed or stopped, keeps counts balanced and recovered rows unchanged |
| Maintenance.ResolveKeeps | app/services/kpi_measurement_scope.py:1197-1330 | A resolve keeps them too, and materialized rows stand in the v6 tables |
| Maintenance.MaterializeStands | app/services/kpi_measurement_scope.py:925-1214 | A successful materialization deletes nothing and leaves the row and its references under the assigned type |
| Maintenance.RunsKeep | app/services/kpi_measurement_scope.py:657-1330 | Over any run: recovered, materialized and finished rows never change again, attempts only grow, succeeded + failed + pending = total, and materialized rows stand |
| Maintenance.FinishedKeyReplays | app/services/kpi_measurement_scope.py:657-717 | Replaying a finished key changes nothing at any later time |
| Maintenance.RunsKeepNames | app/services/kpi_measurement_scope.py:925-960 | No run stores a v6 resource with an empty id |
| Maintenance.StoppedRetryRefused | app/services/kpi_measurement_scope.py:785-798 | The replay of a stopped retry is refused and deletes the operation exactly when one of the audits it processed was recovered; otherwise it is accepted and retries every audit |
| Maintenance.RetryStoppedTooLate | app/services/kpi_measurement_scope.py:785-798 | A retry whose replay is refused |
| Maintenance.StoppedResolveRefused | app/services/kpi_measurement_scope.py:1258-1266 | The replay of a stopped resolve is refused and deletes the operation exactly when the materialization had succeeded; otherwise it is accepted |
| Scope.ResolveMeasurementScope | app/services/kpi_measurement_scope.py:1347-1382 | Exactly the effective items, each identity once |
| Scope.ConfirmedMetricIds | app/services/kpi_measurement_scope.py:108-132 | The confirmed metrics of a unit that are metric resources, each once |
| Scope.DefinedDerivedIds | app/services/kpi_measurement_scope.py:135-163 | The defined metrics that are not confirmed ones |
| Scope.ResolveTaskScope | app/services/kpi_scope.py:316-369 | Exactly the admitted items, each identity once, in identity order |
| Scope.UnitBaseMetrics | app/services/kpi_scope.py:180-246 | The confirmed metrics of a unit with exactly their source bindings |
| Scope.FreezeScope | app/services/kpi_scope.py:369-387 | The fingerprint's arguments: the enabled units in the order of their names, with or without an item, and the admitted items in the order of their identities, each with its configuration |
| Scope.FingerprintIgnoresOrder | app/services/kpi_scope.py:76-177 | They do not depend on the order in which the tables return their rows |
| Scope.LoadScope | app/services/kpi_daily_health_snapshot.py:198-299 | Exactly the confirmed bindings, and the defined rows that no confirmed binding replaces |
| Scope.InternalDependencies | app/services/kpi_daily_health_snapshot.py:185-195 | Exactly the numerators and denominators with an internal name |
| Scope.SelectHealthMetrics | app/services/kpi_daily_health_snapshot.py:509-535 | Exactly the admitted items without the internal metrics, each identity once |
| Scope.ScopesAgree | app/services/kpi_measurement_scope.py:1347-1382 | The computations agree exactly when no enabled unit defines a nameless metric; the snapshot is the scope without internal metrics |
| Scope.NamedScopesAgree | app/services/kpi_measurement_scope.py:1347-1382 | On tables without an empty resource id all three agree, and base wins over derived |
| Auth.ApplyKeepsSessions | app/services/auth.py:50-272 | Every call keeps sessions on existing users with their current role |
| Auth.ApplyKeepsAdmin | app/services/auth.py:113-222 | No call removes the last administrator |
| Auth.RunsKeep | app/services/auth.py:50-272 | Both over every sequence of calls |
| Auth.NoSessionSurvives | app/services/auth.py:113-203 | A session seen after a role change, reset, deletion or renewal of its user was started by a later login |
| Auth.SessionEnds | app/services/auth.py:75-268 | When exactly a session ends, and that it is otherwise unchanged |
| Auth.SurvivesPasswordChange | app/services/auth.py:75-88 | A session that still resolves after a password change of its user |
| Auth.SessionStarts | app/services/auth.py:225-239 | Sessions start only by a login of their user |
| Auth.ResolvedIsCurrent | app/services/auth.py:256-269 | A resolved session has not expired and carries the role its user has now |
| Auth.AuthStore.UpdateUserRole | app/services/auth.py:113-141 | The new tables and the result of a role change, including every refusal |
| Auth.AuthStore.ResetUserPassword | app/services/auth.py:144-163 | The new tables and the result of a reset |
| Auth.AuthStore.RemoveUser | app/services/auth.py:166-185 | The new tables and the result of a deletion |
| Auth.AuthStore.EnsureDefaultAdmin | app/services/auth.py:188-222 | The new tables and the result of the initialisation |
| Auth.AuthStore.CreateUser | app/services/auth.py:50-72 | The new tables and the result of a creation |
| Auth.AuthStore.ChangePassword | app/services/auth.py:75-88 | The new tables and the result of a password change |
| Auth.AuthStore.Login | app/services/auth.py:225-241 | The new session, or the refusal |
| Auth.AuthStore.ResolveSession | app/services/auth.py:256-271 | The session, or its removal when it expired |

## Left out

- HTTP routing, schemas, command line, build scripts, benchmarks and web pages: no algorithm of their own.
- Real file systems, links and path resolution, the internals of zlib, zipfile and tarfile, SHA-256 and PBKDF2: paths map to bytes, decompression is what it yields, hashes are functions.
- SQLAlchemy sessions, SQLite locking and schema rebuilds: a commit is one atomic change, and the whole migration is one.
- Wall clock, durations, memory figures, metrics counters and message texts; of the logs only the order of the stage runtime's lines and hooks is kept, and not the lines that planning of the executor writes by itself.
- Regular expressions and Unicode normalisation of column names, case folding, and upper-casing: arbitrary functions.
- Floating point: numbers are reals, and not-a-number and infinities do not occur. The rounding to six digits for display is an arbitrary function where a rounded number is judged, and dropped elsewhere.
- Executor.PreparedStore.Wipe: does not model a deletion that fails or stops half-way, because the source ignores such failures; a marker that survives one is outside the model.
- Executor.PreparedStore.WriteMarker: writing the marker is one step; a partly written marker differs from every hash.
- Executor.TaskExecutor.RunAll: the single-rule rerun with its dependency checks is not modelled beyond its parts; a rule's own files in its prepared directory are not tracked.
- MigrationStore.V6Store.Migrate: an insert either fails for a row or not, as a fixed function of the row; a failure of the pending or audit tables themselves rolls the whole transaction back and is not modelled.
- Migration.WritesAreIdempotent: the two revision rows that the migration initialises are not part of the tables.
- Maintenance.RunsKeep: calls do not overlap, and no other code deletes v6 rows between them; the random identifier of an operation is replaced by its idempotency key.
- Scope.SelectHealthMetrics: the metrics of a unit are listed by identifier instead of by display order, and the configuration attached to each item is dropped.
- Scope.FreezeScope: what the configuration of an item looks like is an arbitrary function of its rows, and the result of the query for the enabled units is an argument.
- DailyHealth.AggregateDay: the daily trend against the day before and the assembly of the report from its groups are not modelled; they would add easier members.
- `_merge_duplicate_points` of the history index has the shape of the daily deduplication, and the remaining filters of the history trend are queries.
- Auth.AuthStore.Login: tokens are arguments; a token that is already stored is refused by its primary key.
- Owner uniqueness for `discover_measurement_bindings`, which looks only at enabled owners and at the metric found by name.
- `kpi_workbench`, `kpi_team_focus` and the terminal publication: counting, paging and one compare-and-set.
