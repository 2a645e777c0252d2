# Verified model of the maintenance jobs

This project models the stateful core of the repository's scheduled jobs and proves what those jobs promise:

* **Statistics roll-up** (`internal/stats`). Per-tenant counter indices move through the phases p1 (daily), p2 (hourly
  buckets), p3 (weekly index, daily buckets) and p4 (yearly index, daily buckets). An index is a map from document id to
  document, an alias is a set of index names, counters are integers, and every call to the search cluster may fail, with or
  without having taken effect.
* **Acknowledgement processing** (`internal/acknowledgement`). Cursor paging over a table the pages themselves change, the
  latest request of each entity, guarded batch updates with a retry and a per-row fallback, and three kinds of marks.
* **Credential-expiry triggers** (`internal/cp_alerts/jobs`). A retry state machine with a cached date.
* **Device documents, streaming counts and storage cleanup** (`internal/insights`, `internal/importrequest`,
  `internal/sandbox`).

`dafny verify dfyconfig.toml` checks the whole project.

## How the files fit together

| file | content |
|---|---|
| `SetSums`, `Sorting`, `Text` | regrouping laws for finite sums; sorting by a number; split, join, replace and number texts |
| `Documents`, `TimeRanges`, `Paging`, `RollUp`, `PageRolls` | keys and windows, query ranges, after-key paging, conservation and phase composition, the pages a roll-up writes |
| `Validation`, `ValidationMeaning`, `SharedTarget`, `Wildcard`, `Checks` | the count comparison as it runs, exactly when acceptance is sound and complete, also in shared targets, under wildcards and in the cluster |
| `Cluster`, `Traces`, `Lifecycle`, `Merges`, `Reruns`, `ParallelRollover` | the no-loss invariant, traces of states, one index and one group as they are rolled, all groups with the outcome of each, runs that are repeated after failures, and interleaved workers |
| `Calendar`, `IndexNames`, `WeekGroups`, `YearGroups` | ISO weeks and age tests, name round trips, week and year grouping |
| `Plans`, `DayMigration`, `WeekMigration`, `YearOrder`, `YearMigration`, `Migrations`, `LateDays` | the three migrations from listed names to the end, repeated any number of times, in which order they succeed, how one prepares the next, and the days that come too late |
| `EntityUpdates`, `AckPage`, `AckProcessing`, `AckBatches`, `AckRun`, `AckMeaning` | the acknowledgement job from one SQL statement up to the whole run, and what the run writes, said from the acknowledgements |
| `CredentialTriggers`, `CredentialJob` | one trigger, one series, one job run, many job runs |
| `DeviceDocument`, `DeviceStreams` | the device merge, streaming forms |
| `HourPaths`, `StorageCleanup` | the hour folder pattern, retention cleanup |

Requests that fail are logged: `SearchCluster.refused` for the cluster, `EntityTables.refused` and `AckTable.failures` for
the acknowledgement tables, `Secrets.held` for rows another writer holds, `ObjectStore.refused` for object batches. Contracts
say of a failure which logged request, or which state, is its reason; so an operation may not give up on its own account. A
`calm` cluster or secrets table logs nothing.

## Hypotheses

* A source index does not change while it is rolled, and every document has `tags.db_ts_win`.
* No-loss holds when the window divides the query range and its alignment and when existing targets are not deleted first
  (`SafeConfig`). The methods have no such precondition: their contracts are conditional on it, and
  `PageRolls.CutBucketLosesHalf` and `Cluster.DeletingTheTargetLoses` show what happens otherwise. The 1h/1h and 24h/24h
  settings of the lifecycle satisfy it.
* A migration may start on any listed sources that are served: each is in its alias, or its complete and checked copy is
  (`Checks.Ready`). So a run may follow any failed run, also one that swapped the alias and could not delete.
* The hash in `newDocKey` is injective on its text; `IndexNames.DocKeyUniqueIff` says exactly
  when the text determines the bucket and its source.
* The server pages composite buckets in some strict total order in which a blank operator comes before "N/A".
* Acknowledgements: entity and request ids are not empty, a request belongs to one entity, a failed statement changes no row.
* Credentials: one job at a time, distinct thresholds per series, only the four known statuses (the exact role of the last one
  is `CredentialTriggers.NextDueAgreesIff`).

## What the proofs found

* The last validation range is one millisecond too long. When a later day has already been merged into the shared target, its
  midnight documents are counted for the earlier day too and the earlier day's correct roll-up is refused on every attempt
  (`ValidationMeaning.LaterDayBlocksEarlier`, `SharedTarget.TwoDayWitness`; exactly when a roll-up is accepted in a shared
  target is `SharedTarget.SharedTargetAcceptedIff`). In ascending order every day is accepted
  (`Plans.AscendingJobsAreOrderly`, `Merges.RunMerges`). The p1 to p2 and the p3 to p4 migration sort their indices
  that way, so they succeed (`DayMigration.DaysAreOrderly`, `YearOrder.OldestFirstIsOrderly`); the p2 to p3 migration takes
  them as listed.
* When a range has both blank and missing operators, the missing-operator count overwrites the blank one. A loss of
  blank-operator counts is then accepted (`ValidationMeaning.MaskedLossIsAccepted`); an accepted pair has equal sums exactly
  when the overwritten sums are equal (`ValidationMeaning.AcceptedSumsIff`); and a correct roll-up is refused exactly when a
  non-zero count is masked (`ValidationMeaning.CorrectRollUpAcceptedIff`).
* Validation reads `name*`, so an index with a longer name takes part in the comparison (`Wildcard.LongerNameCounts`). When
  that leaves the counts of an index alone is `Wildcard.ViewCountsIff`, and when it makes a finished copy fail is
  `Checks.CopyRefusedExactly`.
* A p3 name of a tenant called "p4", or of year 1970, is never parsed back (`IndexNames.P3NameParsesBackIff`).
* An unknown trigger status is treated as due but not counted for `next_due_at`; the two agree exactly when no such trigger
  comes first.
* The hour folder pattern is not anchored: hour=115 is read as hour 11, and of two date paths in a key the first is read
  (`HourPaths.MisreadFolders`), so a recent hour below an old date path is deleted (`StorageCleanup.RecentHourDeleted`).
  Retention is kept exactly for the folders that are not read as an earlier hour than they name
  (`StorageCleanup.RetentionKeptIff`).
* Only p1 indices of schema v2 keep a week from being merged; a p1 index of schema v3 does not. A week is merged while one of
  its days still waits exactly as `LateDays.MergedTooEarlyIff` says (`LateDays.LateMonday` is such a list), and once the day
  after it is in the week's target the late day is refused (`LateDays.LateDayIsRefused`).
* The day test is wrong for day 0 after a leap year, and the name parser accepts such names (`LateDays.DayZeroIsAccepted`).
* A colon in a tag or in the source's name lets another bucket share the hashed text, and so the document id, always
  (`IndexNames.DocKeyUniqueIff`).
* The age tests compare year*52+week and year*365+day. Within a year they are exact, across years they may be late by one week or
  day for each year passed, never early (`Calendar.WeekTestInYear`, `WeekTestReaches`, `WeekTestIsSafe`, and the same for days).
* The week-number split is wrong for negative years only (`Calendar.YearWeekRoundTripIff`).

## Model

| member | source | states |
|---|---|---|
| `TimeRanges.SplitByTimeRanges` | internal/stats/rollover.go:183-209 | the loop's ranges are laid end to end from the aligned start, cover [min, max], only the last is one millisecond longer, and none starts after max |
| `TimeRanges.ExactlyOneRange` | internal/stats/rollover.go:183-201 | an instant is in some range iff it lies between the first start and the last end, and never in two |
| `TimeRanges.BucketsWholeIff` | internal/stats/rollover.go:183-209 | no histogram bucket straddles two ranges iff every inner boundary is a multiple of the window |
| `PageRolls.CutBucketLosesHalf` | internal/stats/rollover.go:301-347 | in any tiling a bucket cut by the boundary of two ranges is written by those two alone, twice under one id, and exactly the earlier half of its counts is lost |
| `PageRolls.MisfitLosesCounts` | internal/stats/rollover.go:183-209 | seven-minute windows over the hour ranges the code computes are such a case: of counts a and b only b is kept |
| `TimeRanges.BucketStaysInRange` | internal/stats/rollover.go:301-348 | with a fitting window, a document's whole bucket and the bucket start lie in the document's range |
| `Paging.FetchPage` | internal/store/os/utils.go:235-313 | a page holds, ascending, the smallest keys above the cursor, and all of them if it is short |
| `Paging.PageAdvances` | internal/stats/rollover.go:304-316 | moving the cursor to a page's last key removes exactly that page from view, strictly fewer keys remain |
| `Documents.ComputeTotal` | internal/stats/rollover.go:719-763 | the server's one-pass sum is the mathematical total over the matching documents |
| `Documents.FloorCompose` | internal/stats/lifecycle.go:57-95 | rolling to a window and then to a multiple of it lands in the coarse bucket of the original time |
| `Documents.NormKeyOfStamp` | internal/stats/rollover.go:362-375 | the written document has the normalised coarse key of every document of its bucket |
| `Documents.StampIsWritten` | internal/stats/rollover.go:318-375 | the written document: the bucket's start and total, four tags with "N/A" for absent or blank ones, everything else as in the sample |
| `Documents.SameBucketIff` | internal/stats/rollover.go:301-316 | two documents fall into one bucket iff their nine tags (absent being "N/A") and their windows are the same |
| `Documents.SameNormIff` | internal/stats/rollover.go:362-375 | the normalised keys by which totals are kept are the same iff so are the tags, four of them up to blanks, and the windows |
| `RollUp.Conservation` | internal/stats/rollover.go:301-347 | for every property that buckets respect, the roll-up and its source have the same total |
| `RollUp.RollUpConserves` | internal/stats/rollover.go:301-347 | every normalised key keeps its total in every coarser window |
| `RollUp.TargetParts` | internal/stats/common.go:575-578 | a shared target's total is the sum of its sources' parts: sources never overwrite each other |
| `RollUp.MergeConserves` | internal/stats/lifecycle.go:336-350 | merging any set of indices into any targets keeps every normalised key's total |
| `RollUp.PhasesCompose` | internal/stats/lifecycle.go:57-95 | p1 to p4 gives, per normalised key and UTC day, the raw total, which is also that of one direct daily roll-up |
| `RollUp.RollUpIsDeterminate` | internal/stats/rollover.go:318-347 | two complete runs over a frozen source agree on ids, timestamps and counters |
| `Cluster.RetryIsIdempotent` | internal/stats/rollover.go:318-347 | from whatever a cut-short attempt left, once every bucket is written the target has the ids, timestamps and counters of any single complete roll-up |
| `Validation.PaginateAgg` | internal/stats/rollover.go:647-717 | paging by 100 yields exactly the counts map, including which of two colliding operators survives; a calm server never fails it |
| `Validation.CompareRange` | internal/stats/rollover.go:585-625 | one range is reported equal iff the two counts maps are equal |
| `Validation.CompareRanges` | internal/stats/rollover.go:585-636 | accepts iff all ranges agree and, for a positive minimum, some range has counts |
| `Validation.ValidateNewData` | internal/stats/rollover.go:564-636 | the same over the ranges it computes itself; a failed search never accepts |
| `ValidationMeaning.CountExactIff` | internal/stats/rollover.go:638-717 | a compared count is the true sum iff no non-zero blank-operator sum is overwritten |
| `ValidationMeaning.CountedTogetherIff` | internal/stats/rollover.go:638-717 | two documents are compared in one count iff source, name, namespace, the tenant unless skipped, and the operator (absent, blank and "N/A" being one) are the same |
| `ValidationMeaning.CountIsSumLessMasked` | internal/stats/rollover.go:638-717 | a compared count is the true sum less what is overwritten |
| `ValidationMeaning.AcceptedSumsIff` | internal/stats/rollover.go:564-636 | an accepted pair has equal sums of a group over the whole span iff the sums overwritten in its ranges have equal totals |
| `ValidationMeaning.AcceptedIsSound` | internal/stats/rollover.go:564-636 | so acceptance means equal sums for every group that masks nothing |
| `ValidationMeaning.MaskedLossIsAccepted` | internal/stats/rollover.go:564-717 | a real loss is accepted: for any two counts, a source with a blank and a missing operator and a target that holds only the one document the code writes for the latter, over the range the code computes |
| `ValidationMeaning.RangeAcceptedIff` | internal/stats/rollover.go:585-625 | one range of a correct roll-up agrees iff its source masks nothing there |
| `ValidationMeaning.CorrectRollUpAcceptedIff` | internal/stats/rollover.go:564-636 | a correct roll-up alone in its ranges is accepted iff its source masks nothing |
| `ValidationMeaning.ForeignCountsBlock` | internal/stats/lifecycle.go:341-350 | counts of another source in a checked range make validation refuse |
| `SharedTarget.SharedRangeIff` | internal/stats/lifecycle.go:341-350 | in a shared target a range of a correct roll-up agrees iff, for every group, foreign and masked sums cancel and no foreign group is new |
| `SharedTarget.SharedTargetAcceptedIff` | internal/stats/lifecycle.go:341-350 | a correct roll-up in a shared target is accepted iff that holds in every range |
| `SharedTarget.TwoDayWitness` | internal/stats/lifecycle.go:336-350 | for any counts of two neighbouring days: in ascending order both are accepted, with the later day first the earlier one is refused |
| `ValidationMeaning.LaterDayBlocksEarlier` | internal/stats/lifecycle.go:336-350 | once the next day is in the shared target, the earlier day's correct roll-up is always refused |
| `Cluster.ViewShowsIndex` | internal/store/os/utils.go:245-313 | the wildcard query counts the index itself when no longer-named index has documents in the range |
| `Wildcard.ViewCountsIff` | internal/store/os/utils.go:245-313 | the wildcard query counts what the index itself does iff for every group the longer-named indices add exactly what is additionally overwritten, and no group is new |
| `Wildcard.LongerNameCounts` | internal/store/os/utils.go:245-313 | two indices, d1 and d10, whose view d1* has other counts than d1 |
| `Wildcard.WildAcceptedIff` | internal/stats/rollover.go:564-636 | with any longer names and any other sources in the target, a correct roll-up is accepted iff in every range and for every group what the wildcards and other sources add cancels out |
| `Cluster.BulkKeeps` | internal/stats/rollover.go:765-792 | writing any part of a source's roll-up keeps no-loss and earlier progress |
| `Cluster.SwapKeeps` | internal/store/os/utils.go:78-121 | taking copied and checked sources out of the alias together keeps no-loss |
| `Cluster.DeleteKeeps` | internal/store/os/utils.go:138-151 | deleting a source whose checked copy is in the alias keeps no-loss |
| `Cluster.SwapReplaces` | internal/store/os/utils.go:78-121 | after the alias request the target stands for the sources in that alias, and nothing else changes |
| `Cluster.DeleteRemoves` | internal/store/os/utils.go:138-151 | a deleted index is in no alias, every other index keeps its documents and aliases |
| `Cluster.BulkWrites` | internal/stats/rollover.go:765-792 | the target has the documents of the batch and what it had, other indices are as they were |
| `Cluster.WrittenIsCopied` | internal/stats/rollover.go:301-348 | when every bucket has its document, the target is the complete roll-up |
| `Cluster.GoneIsCounted` | internal/stats/rollover.go:235-268 | a deleted source is, key by key, counted in a recorded target that is in the alias |
| `Traces.GoneWasAccepted` | internal/stats/rollover.go:235-268 | over whole runs: a source that a run removed was compared with its target and found equal, while still frozen, in an earlier state of the trace |
| `Traces.WrittenAsOneRun` | internal/stats/rollover.go:318-347 | a source whose buckets are all written has the documents of one complete run |
| `Cluster.CompletedRunConserves` | internal/stats/lifecycle.go:336-388 | when all sources are gone the targets carry exactly what they held together |
| `Cluster.DeletingTheTargetLoses` | internal/stats/rollover.go:293-299 | deleting a shared target first leaves an earlier source's counts nowhere |
| `PageRolls.BuildBatch` | internal/stats/rollover.go:318-342 | a page becomes one document per bucket, with the bucket's total in the range and the normalised tags |
| `PageRolls.RangeTotalIsBucketTotal` | internal/stats/rollover.go:301-342 | the range's total for a bucket is the whole index's total |
| `Lifecycle.SearchCluster.BulkIndex` | internal/stats/rollover.go:765-792 | writes all of the batch, or on an error any part of it |
| `Lifecycle.SearchCluster.UpdateAliases` | internal/store/os/utils.go:78-121 | one atomic swap that needs an existing target; an error may hide a success |
| `Lifecycle.SearchCluster.DeleteIndex` | internal/store/os/utils.go:138-151 | removes the index and its alias entries; an error may hide a success |
| `Lifecycle.SearchCluster.FindMinMaxTimestamp` | internal/stats/rollover.go:394-411 | the true extremes, zeros for an empty index |
| `Lifecycle.SearchCluster.RollPage` | internal/stats/rollover.go:304-347 | one page is read and written through good states only |
| `Lifecycle.SearchCluster.RollRange` | internal/stats/rollover.go:301-348 | terminates, visits each bucket of the range once in order, and has written all of them unless a call failed |
| `Lifecycle.SearchCluster.RollRanges` | internal/stats/rollover.go:301-348 | all ranges in turn: success means every bucket of the source is written |
| `Lifecycle.SearchCluster.DoRolloverAndValidate` | internal/stats/rollover.go:270-358 | success means every bucket written, the two indices compared and found equal in a state of this call, and the target as one complete run would leave it; failure means that a request made to roll this source failed, or that it is missing, a setting is not positive, or the finished copy is missing or differs |
| `Lifecycle.SearchCluster.Validate` | internal/stats/rollover.go:564-636 | success means the two wildcard views were compared and accepted; a calm failure means they differ |
| `Lifecycle.SearchCluster.Rollover` | internal/stats/rollover.go:235-268 | whichever call fails, every state passed through keeps no-loss; a source it removed was found equal to its target on the way; a failure has one of the reasons of rolling it, or its alias or delete request failed |
| `Lifecycle.SearchCluster.RollAll` | internal/stats/lifecycle.go:341-350 | the sources before the first failure are written and were found equal, later ones are untouched, and the failure has a reason |
| `Lifecycle.SearchCluster.SwapAndDelete` | internal/stats/lifecycle.go:352-388 | alias first, then deletes one by one, through states that keep no-loss |
| `Lifecycle.SearchCluster.MergeIndices` | internal/stats/lifecycle.go:336-388 | every state of a merge keeps no-loss; every source it removed was found equal on the way; the sources rolled before the first failure are gone, also when one failed, unless an alias or delete request for them failed; the failed one has its reason |
| `Merges.RunMerges` | internal/stats/lifecycle.go:184-245 | all groups, each with its outcome: a failed group never stops the others, except that the year loop stops when an alias or delete call fails; errors counts the failed ones, each with its own reason; in a calm cluster an orderly sequence of sources ends without an error |
| `Merges.OrderlyMergeSucceeds` | internal/stats/lifecycle.go:336-388 | in an orderly run of a calm cluster the next group does not fail |
| `Merges.LeftHasReason` | internal/stats/lifecycle.go:336-388 | a source that is still there after a run is the failed one of its group, with its reason, or comes after that one, or was rolled and its alias or delete request failed |
| `PageRolls.AllRangesWritten` | internal/stats/rollover.go:301-348 | when all ranges are written every bucket of the index is |
| `Checks.CopyRefusedIff` | internal/stats/rollover.go:564-636 | when no longer-named index and no other source shows in the compared ranges, a finished copy is refused iff its source masks a count |
| `Checks.UndisturbedIsClear` | internal/stats/lifecycle.go:341-350 | a source that nothing from before and nothing merged earlier disturbs is seen that way |
| `Checks.UndisturbedSucceeds` | internal/stats/lifecycle.go:341-350 | in a calm cluster such a source, with no blank operator, has no reason to fail |
| `Checks.CopyRefusedExactly` | internal/stats/rollover.go:564-636 | in any cluster a finished copy is refused iff for some group in some compared range that does not cancel out |
| `ParallelRollover.CursorMoves` | internal/stats/rollover.go:304-347 | after a page is written every bucket behind the moved cursor is |
| `ParallelRollover.StepKeepsInv` | internal/stats/rollover.go:235-268 | each step of a worker (reading a page of its range, writing it, comparing, swapping, deleting), failing or not, keeps no-loss and what the others rely on |
| `ParallelRollover.RecordedWasAccepted` | internal/stats/rollover.go:349-357 | a pair is recorded as validated only after a step in which the two indices were found equal |
| `ParallelRollover.RunKeepsInv` | internal/stats/rollover.go:88-118 | the invariant holds in every state of every interleaving |
| `ParallelRollover.ParallelRunsLoseNothing` | internal/stats/rollover.go:88-118 | in every reachable state a missing source is aliased and counted key by key, and was found equal to its target in an earlier state while still frozen |
| `Calendar.IsoWeekRule` | internal/stats/common.go:432-437 | January 4 is in week 1 and weeks run from 1 to 53 (section 4.1.4 of ISO 8601:2004) |
| `Calendar.NextWeek` | internal/stats/rollover.go:794-803 | the year*52+week number grows by one per week, except that week 53 and the next week 1 coincide |
| `Calendar.WeekKeyDrift` | internal/stats/rollover.go:794-803 | over k weeks the number grows by at most k and lags at most one per year |
| `Calendar.WeekTestIsSafe` | internal/stats/rollover.go:800-803 | for a threshold of at least zero a positive week test means a true distance of more than that many weeks |
| `Calendar.WeekTestInYear` | internal/stats/rollover.go:800-803 | within one ISO year the week test holds iff the true distance is more than the threshold |
| `Calendar.WeekTestReaches` | internal/stats/rollover.go:800-803 | for a threshold of at least zero a true distance of more than the threshold and the ISO years passed makes the week test hold |
| `Calendar.DayKeyDrift` | internal/stats/rollover.go:805-810 | over k days the year*365+day number grows by at most k and lags at most one per year |
| `Calendar.DayTestSafeIff` | internal/stats/rollover.go:805-810 | the day test never calls a date older than it is, whatever today, iff the number it compares is not below that of the true date |
| `Calendar.KeyOfDate` | internal/stats/rollover.go:805-810 | that is so for every day number from 1 on, also past the end of the year |
| `Calendar.DayTestIsSafe` | internal/stats/rollover.go:805-810 | for those a positive day test means a true distance of more than that many days |
| `Calendar.DayTestInYear` | internal/stats/rollover.go:805-810 | within one year the day test holds for a real date iff the true distance is more than the threshold |
| `Calendar.DayTestReaches` | internal/stats/rollover.go:805-810 | for a threshold of at least zero a true distance of more than the threshold and the years passed makes the day test hold |
| `Calendar.DayZeroMisread` | internal/stats/rollover.go:805-810 | for day 0 after a leap year it is not so |
| `Calendar.YearWeekRoundTripIff` | internal/stats/common.go:418-430 | splitting a year-week number gives back the week date iff the year is not negative |
| `Calendar.SameWeekIff` | internal/stats/common.go:418-437 | two days have one year-week number iff they are in one Monday-to-Sunday week |
| `Calendar.WeeksAreReal` | internal/stats/common.go:432-437 | for every year the weeks 1 to 52 have a Monday with that week date |
| `Calendar.KnownDays` | internal/stats/common.go:432-437 | January 1, 1970 is a Thursday and where instants count from, January 1, 2000 a Saturday; 2000 has 366 days and 1900 has 365 |
| `Calendar.KnownWeeks` | internal/stats/common.go:432-437 | January 20, 2025 is in week 4 of 2025, and January 1, 2021 in week 53 of 2020 |
| `WeekGroups.GroupByTenantAndWeek` | internal/stats/lifecycle.go:280-295 | each group is the in-order list of that tenant's indices of that week, and none is empty |
| `WeekGroups.ExactlyOneGroup` | internal/stats/lifecycle.go:280-295 | a listed index is in the group of its own tenant and week and in no other |
| `WeekGroups.ListIndices` | internal/stats/lifecycle.go:264-278 | exactly the parsed p2 indices and the p1 indices of schema v2, in the order listed |
| `WeekGroups.WeeksToMerge` | internal/stats/lifecycle.go:280-329 | exactly the due weeks without an unrolled day, each once |
| `WeekGroups.MergeP2Indices` | internal/stats/lifecycle.go:256-334 | the same from the listed names |
| `WeekGroups.WeeksOfTenant` | internal/stats/lifecycle.go:297-329 | the same for the weeks of one tenant |
| `WeekGroups.MergedWeeksAreComplete` | internal/stats/lifecycle.go:256-334 | a merged day is in a week strictly before this one by more than the threshold, and no day of that calendar week still waits |
| `WeekGroups.WaitingInNames` | internal/stats/lifecycle.go:264-278 | an index is waited for iff it is listed, parses and is a p1 index of schema v2 |
| `LateDays.WeekMergedIff` | internal/stats/lifecycle.go:256-334 | by the listed names: a week is merged iff it is due, has a p2 index and no v2 index of it waits |
| `LateDays.MergedTooEarlyIff` | internal/stats/lifecycle.go:256-334 | a week is merged while one of its days still waits iff it is due, has a p2 index, a v3 day waits and no v2 index does |
| `LateDays.TwoNamesSuffice` | internal/stats/lifecycle.go:256-334 | any rolled day and any waiting v3 day of one due week make such a list |
| `LateDays.LateMonday` | internal/stats/lifecycle.go:256-334 | for example January 7, 2025 rolled and January 6 waiting |
| `LateDays.LateDayIsRefused` | internal/stats/lifecycle.go:336-350 | the late day goes into the same weekly index, where the day after it already is, and its correct roll-up is refused there |
| `LateDays.DayZeroIsAccepted` | internal/stats/lifecycle.go:120-129 | for every leap year a p1 name of day 0 of the next year parses, and on some day it is due while it is not older than the threshold |
| `WeekGroups.MigratedDayIsPast` | internal/stats/lifecycle.go:120-129 | a migrated day is more than the threshold before today |
| `YearGroups.YearKeepsOrder` | internal/stats/lifecycle.go:169-196 | grouping a sorted list by tenant and year leaves every group sorted by week |
| `YearGroups.TakeOldest` | internal/stats/lifecycle.go:169-175 | of the candidates exactly the oldest, up to the limit, in ascending order |
| `YearGroups.MergeP3Indices` | internal/stats/lifecycle.go:131-196 | from the listed names: due indices of the wanted tenants, the oldest up to the limit, one group per tenant and year, each once and oldest first |
| `YearOrder.OldestFirstIsOrderly` | internal/stats/lifecycle.go:169-254 | sorted by week, cut at the limit and grouped by tenant and year, weekly indices that hold their own ISO week are merged in an order in which none disturbs a later one, for any tenants and years |
| `Calendar.DayOfWeek` | internal/stats/common.go:432-437 | every day lies in the seven days from the Monday that its ISO year and week number give |
| `IndexNames.P4Prefix` | internal/stats/lifecycle.go:184-196 | one p4 name is a prefix of another only for one tenant, and then the years are equal or no neighbours |
| `IndexNames.P3AndP4Apart` | internal/stats/common.go:239-323 | no parsed p3 or older name is a prefix of a p4 name or has one as a prefix |
| `Plans.AscendingJobsAreOrderly` | internal/stats/lifecycle.go:184-245 | any number of jobs, each ascending in time, and apart in time wherever a name of one is a prefix of the target of an earlier one, disturb none of their successors |
| `Plans.PlanStarts` | internal/stats/lifecycle.go:336-388 | jobs whose sources are there and served, by themselves or by a checked copy of an earlier run, with targets that are no sources, make a plan under which nothing is lost |
| `Plans.RunIsMigrated` | internal/stats/lifecycle.go:336-388 | no state of a run loses any listed source, and whatever is left at its end, wherever it failed, is ready for the next run |
| `Plans.RepeatedLosesNothing` | internal/stats/lifecycle.go:97-254 | over any number of migrations by one route, with any listed names, dates and limits, failing anywhere: no state loses a source that was ready at the start, and when none is left the migration is finished |
| `Reruns.StepKeepsOther` | internal/stats/lifecycle.go:336-388 | a step of one plan keeps the no-loss of every compatible plan |
| `Reruns.RunKeepsOther` | internal/stats/lifecycle.go:336-388 | so does every state of a run |
| `Reruns.RerunsLoseNothing` | internal/stats/lifecycle.go:336-388 | over any sequence of runs with plans taken from what the earlier ones left, no state loses a source of the full plan |
| `Reruns.RerunsFinish` | internal/stats/lifecycle.go:336-388 | if such runs keep to the full plan, into targets that were new, and no source is left, the targets are exactly the merged roll-ups |
| `Reruns.Restart` | internal/stats/lifecycle.go:352-388 | the sources that a state without loss still has can be rolled again, also those out of the alias after a failed delete |
| `Reruns.LeavesReady` | internal/stats/lifecycle.go:352-388 | a failed run leaves every listed source that is still there ready |
| `DayMigration.MigrateP1ToP2` | internal/stats/lifecycle.go:101-118 | from the listed names through the rollovers, from any state in which they are served: the plan is exactly the due p1 indices with their p2 names, by date; no state loses a listed source; every due index is tried, errors counts the failed ones and each has its reason; by the true dates those older than the threshold are taken, exactly within a year; in a calm cluster daily indices that hold their own day are all rolled without an error; what is left is ready again; an error-free run into new targets is a finished migration |
| `DayMigration.RunRollovers` | internal/stats/rollover.go:88-118 | every index is tried, a failed one never stops the others, errors counts the failed ones, each with its reason; orderly in a calm cluster all are rolled |
| `DayMigration.LeftDayHasReason` | internal/stats/rollover.go:88-118 | a due index that is still there after the run failed itself: a request for it failed, or it had a reason in a state of its own rollover |
| `DayMigration.FilterDays` | internal/stats/lifecycle.go:101-118 | the due indices, each as often as listed, sorted by year*1000+day |
| `DayMigration.DaysAscend` | internal/stats/lifecycle.go:114-116 | so, for real dates, in the order of the calendar |
| `DayMigration.DueByDate` | internal/stats/lifecycle.go:101-129 | a taken index is more than the threshold old; one older than the threshold and the years passed is taken; of this year exactly those older than the threshold are |
| `DayMigration.DaysAreOrderly` | internal/stats/lifecycle.go:101-118 | sorted by date, daily indices that hold their own day are rolled in an order in which none disturbs a later one |
| `WeekMigration.MigrateP2ToP3` | internal/stats/lifecycle.go:256-334 | the same through the merges: the plan is exactly the selected weeks with their p3 names, every removed source was found equal, and by the true weeks those further back than the threshold are taken, exactly within an ISO year |
| `WeekMigration.WeekSourceIff` | internal/stats/lifecycle.go:256-334 | a listed p2 index is taken iff its week is due and no v2 index of its tenant and week waits |
| `WeekMigration.DueByWeek` | internal/stats/lifecycle.go:256-334 | a taken index is in a week more than the threshold back none of whose v2 days waits; when none waits, one further back than the threshold and the ISO years passed is taken, and within an ISO year exactly those further back than the threshold |
| `YearMigration.MigrateP3ToP4` | internal/stats/lifecycle.go:131-254 | the same for the oldest due p3 and older indices of the tenants asked for and their p4 names; in a calm cluster weekly indices that hold their own week are all merged without an error |
| `YearMigration.DueByAge` | internal/stats/lifecycle.go:131-175 | a taken index is of a tenant asked for and, for real weeks, more than the threshold old; one of such a tenant that is older than the threshold and the ISO years passed, or older than the threshold within this ISO year, is taken unless the limit is used up by indices of no later week |
| `Plans.FinishedIsMerged` | internal/stats/lifecycle.go:336-388 | a run that removed every source, into new targets, leaves exactly their merged roll-ups |
| `Migrations.P2IsReady` | internal/stats/lifecycle.go:256-278 | what a finished p1 to p2 migration leaves is parsed and can be merged into new weeks |
| `Migrations.P3IsReady` | internal/stats/lifecycle.go:131-146 | what a finished p2 to p3 migration leaves can, as far as it is parsed, be merged into new years |
| `Migrations.DayTargetNamesItsDay` | internal/stats/common.go:84-103 | the target of a p1 index parses to its tenant, year and day, and its alias is that of the tenant |
| `Migrations.WeekTargetNamesItsWeek` | internal/stats/lifecycle.go:319-338 | the target of a p2 index is the p3 name of its tenant and of the ISO year and week of its day, and parses to these, when the tenant is not "p4" and that year is carried by the names |
| `Migrations.SharedWeekIff` | internal/stats/lifecycle.go:319-338 | two p2 indices share a target iff they are of one tenant and one ISO week |
| `Migrations.SharedYearIff` | internal/stats/lifecycle.go:169-196 | the target of a p3 or older index is the p4 name of its tenant and year, and two share one iff both are the same |
| `Migrations.DaysHoldTheirDay` | internal/stats/lifecycle.go:101-118 | when each p1 index holds its own day, so does each index that a finished p1 to p2 migration leaves, by its parsed name |
| `Migrations.WeeksHoldTheirWeek` | internal/stats/lifecycle.go:336-350 | when each p2 index holds its own day, each index that a finished p2 to p3 migration leaves holds the ISO week its parsed name says |
| `Plans.LifecycleConserves` | internal/stats/lifecycle.go:57-95 | three finished migrations, each taking all targets of the one before, leave in p4 for every normalised key and UTC day exactly the total of the p1 documents |
| `IndexNames.P2NameParsesBack` | internal/stats/common.go:84-103 | the p2 name of any p1 index parses to the same tenant, year and day, schema v2, phase p2, and by no other parser |
| `IndexNames.P3NameParsesBackIff` | internal/stats/common.go:239-323 | a p3 name parses back iff the tenant is not "p4" and the year not 1970, and by no other parser |
| `IndexNames.P4NameIsFinal` | internal/stats/common.go:244-246 | no parser accepts a p4 name |
| `IndexNames.NamesAsWritten` | internal/stats/lifecycle.go:184-338 | the p3 and p4 names of tenant t, 2025, week 4 as texts |
| `IndexNames.OldNameParses` | internal/stats/common.go:239-323 | a rolled-over index of the first schema, of eight or nine parts, parses to the tenant, year and week written in it |
| `IndexNames.TargetsAreNotSources` | internal/stats/lifecycle.go:338 | no migration writes into an index it reads as a source |
| `IndexNames.DocKeyUniqueIff` | internal/stats/common.go:575-578 | no other bucket or source has the same hashed text iff neither a tag nor the source holds a colon |
| `IndexNames.DocKeyTextInjective` | internal/stats/common.go:575-578 | without colons the hashed text determines bucket and source |
| `IndexNames.ColonCollides` | internal/stats/common.go:575-578 | for example tags a:b and c, and a and b:c |
| `EntityUpdates.UpdateIsApplied` | internal/acknowledgement/entity_updates.go:136-165 | one statement for many rows equals one statement per row |
| `EntityUpdates.AppliedRowsFollow` | internal/acknowledgement/entity_updates.go:136-165 | what a set of applied updates leaves in each row: the new status, DELETED where it is spared, the old status where no update names the row |
| `EntityUpdates.ReplayIsNoOp` | internal/acknowledgement/entity_updates.go:136-165 | applying the same updates again changes nothing |
| `EntityUpdates.DeletedStays` | internal/acknowledgement/entity_updates.go:136-165 | a DELETED row of a guarded table never changes |
| `EntityUpdates.EntityUpdateCollector.Add` | internal/acknowledgement/entity_updates.go:41-44 | exactly one pending update is added, under its table, status and guard |
| `EntityUpdates.FlushBatch` | internal/acknowledgement/entity_updates.go:54-90 | batch, retry, then row by row: the successful requests are exactly the applied ones, and a request fails only if its own single-row statement was refused |
| `EntityUpdates.FlushSingly` | internal/acknowledgement/entity_updates.go:72-81 | the per-row fallback: each row is updated unless its own statement fails |
| `EntityUpdates.FlushKey` | internal/acknowledgement/entity_updates.go:53-92 | the same for all batches of one key, whatever the batch size |
| `EntityUpdates.EntityUpdateCollector.Flush` | internal/acknowledgement/entity_updates.go:46-95 | successful and failed partition the collected requests; every row a successful one names has its new status, unless the update spares deleted rows and the row is deleted, and every other row is unchanged |
| `AckPage.PrepareMap` | internal/acknowledgement/process.go:366-375 | the nested map holds exactly the acknowledgements, in order, under their own entity and request |
| `AckPage.NewestIsMaximum` | internal/acknowledgement/process.go:297-316 | the tracked request is a true maximum over the candidates and exists iff there is one |
| `AckPage.FindLatest` | internal/acknowledgement/process.go:284-316 | every entity with a candidate gets its latest request, no other entity does |
| `AckPage.FindSuperseded` | internal/acknowledgement/process.go:317-330 | exactly the candidates that are not their entity's latest are suppressed |
| `AckPage.GetRelevantAcknowledgement` | internal/acknowledgement/process.go:230-250 | a failure whenever the request has one, the newest acknowledgement otherwise |
| `AckProcessing.StartProcessing` | internal/acknowledgement/process.go:187-228 | one decision per entity; sets of requests and applied updates are exactly those the decisions call for |
| `AckProcessing.LatestOutcome` | internal/acknowledgement/process.go:187-228 | the latest request's outcome is decided by its own acknowledgement and whether its update was applied |
| `AckProcessing.OneOutcomeEach` | internal/acknowledgement/process.go:124-146 | a request with acknowledgements and a change-flag row has exactly one outcome, any other request none |
| `AckProcessing.AckTable.MarkAcksByIds` | internal/acknowledgement/common.go:23-48 | every batch is tried; rows change only to the mark; it reports an error iff a statement failed, and without one all rows carry the mark |
| `AckProcessing.AckTable.MarkAllAcks` | internal/acknowledgement/process.go:252-282 | without an error every acknowledgement carries its request's mark; with one, each is marked so or unchanged; an error means a failed statement |
| `AckProcessing.ChangeFlagsFor` | internal/acknowledgement/process.go:332-364 | whatever the batch size and order, exactly the stored rows of the entities, grouped by entity, unless a query failed |
| `AckProcessing.AckTable.DeleteRecords` | internal/acknowledgement/db/changeFlagAck.go:101-104 | deletes exactly the processed acknowledgements from before the moment, or nothing |
| `AckProcessing.ProcessAckPage` | internal/acknowledgement/process.go:124-146 | whatever fails, decisions, applied updates and marks are the specified ones; without an error the page is fully marked |
| `AckProcessing.StatusComesFromLatest` | internal/acknowledgement/process.go:187-330 | an applied status comes from the entity's latest request and its deciding acknowledgement |
| `AckBatches.SettledBoth` | internal/acknowledgement/process.go:57-93 | the decisions of two batches of different entities are the decisions of both as one batch |
| `AckBatches.TwoBatchesAsOne` | internal/acknowledgement/process.go:57-93 | handling two batches in turn changes tables and marks exactly as handling them as one |
| `AckRun.NormalizePageLimit` | internal/acknowledgement/db/changeFlagAck.go:33-41 | a positive limit of at most 10000, the given one when it is in range |
| `AckRun.GetChangeFlagsByEntityIds` | internal/acknowledgement/db/changeFlagAck.go:63-72 | exactly the eligible acknowledgements of the page's entities |
| `AckRun.AheadUnchanged` | internal/acknowledgement/db/changeFlagAck.go:43-61 | entities not handed over yet are eligible iff they were at the start |
| `AckRun.HandlePage` | internal/acknowledgement/process.go:66-91 | one page settles and marks exactly the eligible acknowledgements of its entities |
| `AckRun.HandledBoth` | internal/acknowledgement/process.go:57-93 | what earlier pages handled and what the next page handles add up to one batch |
| `AckRun.ForEachEntityPage` | internal/acknowledgement/pagination.go:8-29 | terminates; each entity is in at most one page; all pages together do what one batch of all handed acknowledgements does; it stops early iff a query or mark failed, and otherwise these are all eligible ones and all are marked |
| `AckRun.ProcessAck` | internal/acknowledgement/process.go:40-122 | the same followed by the clean-up, which removes exactly the processed acknowledgements from before the moment; those taken were pending or errored and inside the time limits, and unless a statement failed all such are; the rows of the entity tables follow the applied updates |
| `AckRun.OneMarkEach` | internal/acknowledgement/process.go:57-99 | after a run each acknowledgement carries the mark of its request's one outcome, or is unchanged without a change-flag row |
| `AckMeaning.SpecIsWritten` | internal/acknowledgement/entity_updates.go:103-134 | for each entity type the table, the status text of success and failure of deletes and other actions, and whether deleted rows are spared; which types are suppressed and which unsupported |
| `AckMeaning.DoneFollowsAcks` | internal/acknowledgement/process.go:187-330 | every applied update is the one that the deciding acknowledgement of the entity's latest acknowledged change-flag row asks for |
| `AckMeaning.AskedIsDone` | internal/acknowledgement/process.go:187-330 | for every entity with an acknowledged change-flag row such an update was applied, unless its own single-row statement was refused |
| `Text.DateOrder` | internal/cp_alerts/jobs/credential_expiry_triggers.go:92-96 | text order of dates is calendar order (full-date, section 5.6 of RFC 3339) |
| `CredentialTriggers.NextDueAgreesIff` | internal/cp_alerts/jobs/credential_expiry_triggers.go:78-154 | for every date, something is due iff next_due_at is set and reached, exactly when no unknown status comes first |
| `CredentialTriggers.DueWhenOpen` | internal/cp_alerts/jobs/credential_expiry_triggers.go:78-100 | a trigger the job left is due iff it is pending or failed and its date has come |
| `CredentialTriggers.AdvanceKeepsSound` | internal/cp_alerts/jobs/credential_expiry_triggers.go:103-129 | SENT and SKIPPED are terminal, FAILED means one to four attempts, attempts never fall |
| `CredentialTriggers.FiveAttemptsAtMost` | internal/cp_alerts/jobs/credential_expiry_triggers.go:103-129 | over any history the moves never exceed the attempts left, and the last allowed one is terminal |
| `CredentialTriggers.Series.DueTriggers` | internal/cp_alerts/jobs/credential_expiry_triggers.go:78-100 | the due indices, all of them, in ascending order |
| `CredentialTriggers.Series.RecomputeNextDueAt` | internal/cp_alerts/jobs/credential_expiry_triggers.go:133-154 | the cached date is the minimum over the counted triggers, or unset |
| `CredentialTriggers.Series.MarkTriggerSent` | internal/cp_alerts/jobs/credential_expiry_triggers.go:103-112 | only that trigger changes, to SENT with one more attempt, and the cached date is right again |
| `CredentialTriggers.Series.MarkTriggerFailed` | internal/cp_alerts/jobs/credential_expiry_triggers.go:117-129 | only that trigger changes, to FAILED or at the fifth attempt SKIPPED, and the cached date is right again |
| `CredentialTriggers.Series.RecordChannel` | internal/cp_alerts/jobs/credential_expiry_triggers.go:157-170 | only that channel of that trigger is recorded, with status, time and error |
| `CredentialJob.OutcomeAdvances` | internal/cp_alerts/jobs/credential_expiry_notification.go:240-274 | an outcome is SENT iff a channel delivered, SKIPPED iff the fifth attempt failed, and is one step of the life |
| `CredentialJob.Secrets.PersistTriggerOutcome` | internal/cp_alerts/jobs/credential_expiry_notification.go:201-276 | exactly the trigger of that threshold gets its outcome; a missing row, or one that is locked or could not be written, is left alone |
| `CredentialJob.Dispatch` | internal/cp_alerts/jobs/credential_expiry_notification.go:166-183 | every channel is handed the notification and reports, and only email without targets is not attempted |
| `CredentialJob.CollectBuckets` | internal/cp_alerts/jobs/credential_expiry_notification.go:117-136 | a secret is in a bucket iff it has a due trigger of that threshold, and once |
| `CredentialJob.DispatchBuckets` | internal/cp_alerts/jobs/credential_expiry_notification.go:142-194 | each due trigger ends with the outcome of its threshold's send, or unchanged because its row was held for that threshold |
| `CredentialJob.ProcessTenant` | internal/cp_alerts/jobs/credential_expiry_notification.go:107-196 | the same for a whole run, which sends for every due threshold, moves nothing else and keeps the cached dates right |
| `CredentialJob.RunIsFate` | internal/cp_alerts/jobs/credential_expiry_notification.go:201-276 | after a run a due trigger whose row was not held is SENT at that time if a channel delivered, otherwise FAILED, or SKIPPED at the fifth attempt, unchanged without an attempt, and every channel is recorded with its status, time and error |
| `CredentialJob.RunIsOneStep` | internal/cp_alerts/jobs/credential_expiry_notification.go:152-194 | a run moves each trigger at most one step of its life |
| `CredentialJob.RunsAreALife` | internal/cp_alerts/jobs/credential_expiry_notification.go:152-194 | over any sequence of runs each trigger lives a life with at most five moves |
| `CredentialJob.FiveRunsEndIt` | internal/cp_alerts/jobs/credential_expiry_notification.go:240-274 | five runs that handle a due trigger always leave it SENT or SKIPPED |
| `DeviceDocument.StoredDevice.RunUpsert` | internal/insights/device_agg.go:22-108 | the in-place script with its early exit and its guarded fields computes the merge function |
| `DeviceDocument.FoldSummarises` | internal/insights/device_agg.go:22-49 | after any upserts source ids are distinct and all minima and maxima are the true ones over what was observed |
| `DeviceDocument.LabelIsLast` | internal/insights/device_agg.go:86-108 | after any upserts the label is that of the last observation, with the last second and third key that were not blank |
| `DeviceDocument.ZoneIsLastReport` | internal/insights/device_agg.go:57-67 | without imports the timezone is the last one reported, recorded as set by the agents at the observation that changed it |
| `DeviceDocument.JoinIsOrderFree` | internal/insights/device_agg.go:22-49 | reordering or replaying observations changes neither the entries nor the global extremes |
| `DeviceDocument.GlobalIsExtremeOfSources` | internal/insights/device_agg.go:86-108 | the global minimum and maximum are those of the source entries |
| `DeviceDocument.AfterImport` | internal/insights/device_agg.go:57-67 | after an import, agent reports change nothing if it set a timezone, and the last valid one wins if it cleared it |
| `DeviceDocument.LastImportDecides` | internal/importrequest/device_timezone.go:187-194 | in every interleaving the last import decides the timezone until the next one, and one that set it is recorded with its time and user |
| `DeviceStreams.ChangesCountDistinctIff` | internal/insights/device_agg.go:205-219 | counting changes never undercounts and equals the distinct count iff equal ids are adjacent |
| `DeviceStreams.StreamingUniqueDeviceCounter.Observe` | internal/insights/device_agg.go:212-219 | counts an id iff it differs from the one before |
| `DeviceStreams.StreamingUniqueDeviceCounter.ObserveBatch` | internal/insights/device_agg.go:221-233 | for any split into pages the total is the distinct count (less one for leading empty ids) iff equal ids are adjacent |
| `DeviceStreams.DecideNoiseLevel` | internal/insights/health.go:354-375 | fewer than three rows are left alone; otherwise the slices are sorted in place and the latest day is split off with its own count |
| `DeviceStreams.EvaluateDevice` | internal/insights/health.go:192-240 | for a device with at least three rows the day read from the slice afterwards is the latest of its days, the count belongs to it and the sample is the other rows |
| `DeviceStreams.RecordedDayIsLatest` | internal/insights/health.go:222-236 | every history record has the latest of its own device's days |
| `DeviceStreams.EvaluateDevices` | internal/insights/health.go:186-298 | on rows grouped by device each device is evaluated once, with exactly its own rows, and the history is that of the changed ones |
| `DeviceStreams.SortTwoSlices` | internal/insights/health.go:474-484 | days end sorted and the multiset of (day, count) pairs is unchanged |
| `StorageCleanup.FolderIsExact` | internal/sandbox/storage_cleanup.go:338-351 | a key has a folder iff it has an hour component, and the folder ends with that whole component |
| `HourPaths.MatchAtIff` | internal/sandbox/storage_cleanup.go:356-357 | the search at a position finds a match iff the pattern matches there |
| `HourPaths.MatchFound` | internal/sandbox/storage_cleanup.go:356-357 | it reads whole month and day fields and as many hour digits as it can |
| `HourPaths.ParseHourFolder` | internal/sandbox/storage_cleanup.go:353-384 | a parsed time is a whole hour |
| `HourPaths.DayOverflow` | internal/sandbox/storage_cleanup.go:383 | a day past its month is a day of the next month |
| `HourPaths.MonthLengths` | internal/sandbox/storage_cleanup.go:383 | from the first of a month to the first of the next are 31, 30, 28 or, by the leap year rule, 29 days |
| `HourPaths.InstantsCount` | internal/sandbox/storage_cleanup.go:383 | instants count from January 1, 1970; a day more is 86,400,000 and an hour more 3,600,000 milliseconds; month 13 is the next year |
| `HourPaths.ReadsLastIff` | internal/sandbox/storage_cleanup.go:353-384 | the hour read is the one the last component names iff the folder ends in a complete date path and nothing before it matches |
| `HourPaths.FieldsAsWritten` | internal/sandbox/storage_cleanup.go:353-384 | a date path written with its numbers is read as those numbers |
| `HourPaths.MisreadFolders` | internal/sandbox/storage_cleanup.go:356-357 | every folder with three or more hour digits, or with a date path in front, is read differently, and how |
| `HourPaths.MisreadExamples` | internal/sandbox/storage_cleanup.go:356-357 | for example hour=115, and two date paths in a row |
| `StorageCleanup.GroupObjectsByHourFolder` | internal/sandbox/storage_cleanup.go:271-307 | every folder met is kept with all its keys in order iff it parses and has expired, and skipped otherwise |
| `StorageCleanup.DeleteExpiredHourFolders` | internal/sandbox/storage_cleanup.go:310-332 | each due key is submitted exactly as often as listed, no other key ever is; the total counts the batches that worked, whose objects are gone, and the others are those the store refused |
| `StorageCleanup.ExpiredIff` | internal/sandbox/storage_cleanup.go:62-65 | in retention mode a folder is deleted iff an hour is read from it that ended at least the retention period ago, in delete-all mode iff any is read |
| `StorageCleanup.WrittenHourKeptIff` | internal/sandbox/storage_cleanup.go:338-384 | an object below a date path written with year, month, day and hour, in front of which nothing names a year, is deleted iff that hour ended at least the retention period ago |
| `StorageCleanup.FolderOfObject` | internal/sandbox/storage_cleanup.go:338-351 | an object directly below its hour component has the path up to there as its folder |
| `StorageCleanup.RetentionKeptIff` | internal/sandbox/storage_cleanup.go:62-65 | for a folder that names an hour: at no moment and for no retention period is it deleted before that hour ended the retention period ago iff it is not read as an earlier hour |
| `StorageCleanup.DeletedHourIsOver` | internal/sandbox/storage_cleanup.go:62-65 | so a deleted hour is over wherever the last component is what is read |
| `StorageCleanup.OldPathDecides` | internal/sandbox/storage_cleanup.go:353-384 | an object below two date paths is deleted iff the first is before the cutoff, whatever the second, which is the hour its folder names |
| `StorageCleanup.RecentHourDeleted` | internal/sandbox/storage_cleanup.go:338-384 | one key, from its text through its folder: the hour it names is inside the retention period, and it is deleted |

## Left out

- RolloverOlderStats age filter: year*100+week minus a number of weeks is not a distance in weeks across New Year, so nothing is claimed about it.
- Documents.ComputeTotal: counters are integers; float rounding in sums is not modelled.
- Lifecycle.SearchCluster.MergeIndices: a shared target can be in the alias while documents are added, so readers may see counts twice for a while; only the absence of loss is claimed at every step.
- ParallelRollover.StepKeepsInv: the comparison of two indices is one step, although its searches take time in which other workers may write.
- DayMigration.MigrateP1ToP2: the rollovers run one after the other, sorted by date; side by side they are `ParallelRollover`.
- AckPage.FindLatest: timestamps are compared as text in the code; the model keeps only their order, as integers.
- AckRun.ProcessAck: the moments for reading and deleting are parameters, and requests are not compared across runs.
- CredentialJob.ProcessTenant: one job at a time; replicas that work at the same time and series reset in the middle of a run are not modelled.
- DeviceStreams.EvaluateDevices: rows with an empty key or source id are excluded, because the loop reads an empty source id as no device yet; whether the latest count is a change is a parameter, so mean, deviation and threshold are not modelled.
- DeviceDocument.StoredDevice.RunUpsert: bulk chunking and bulk outcome counting are not modelled.
- Clocks, environment settings, backups, templates, alert texts, audit reports and the network clients are parameters or absent; 64-bit overflow is modelled only where numbers are parsed from names.
