# BombVault in Dafny

A Dafny model of the parts of BombVault where a mistake would be quiet: a backup
anomaly that clears itself, a database folder lost in an import, a last backup
deleted, work a background worker forgets. Every theorem is about all inputs,
all runs or all reachable states of the model.

| files | what they model |
|---|---|
| `OrderStatistics`, `AnomalyTypes`, `AnomalyRules`, `AnomalyNewData`, `DatasetRuns` | the rules that judge a backup series: medians and deviations, size, new data, duration, reliability, restore checks, capacity, and the series of one ZFS dataset |
| `LeastSquares`, `CapacityTrend` | the window of free-space readings and the projection the capacity rule judges |
| `SensitivityOrder` | the presets as refinements of one another |
| `AnomalyVerdicts` | what the rules promise the lifecycle about every metric |
| `AnomalyLifecycle`, `AnomalyStore`, `AnomalyPass` | findings and absences turned into row changes, the table they are written to, and what one pass amounts to row by row |
| `AnomalyEpisodes`, `AnomalyHistories`, `AnomalyOutcomes` | theorems over whole histories of passes, user actions and prunings, and what a pass leaves of each row, in the terms of the table |
| `SizeAlarms`, `SteadyLevels`, `RunAlarms`, `NewDataAlarms` | when each rule raises a finding, told by what the runs measured rather than by the rule's own definitions |
| `AnomalyActions`, `AcceptedLevels` | acknowledging findings and marking them as expected, and that what was accepted is not raised again |
| `ScopeLocks`, `AnomalyEngine`, `AnomalyQueue`, `AnomalyWorker` | the per-scope locks, the work list, what is due in a pass, and the wake-up channel of the background worker |
| `DatabaseImport`, `StartOrder` | setting a live data folder aside and putting it back, with every file and container call able to fail, and the order apps start again in |
| `StoragePlaces`, `HolderPlaces`, `ErasureSections`, `ErasureReasons`, `ErasurePlan`, `ErasureTotals`, `Erasure`, `HiddenUnion` | deleting the backups at a destination: which repositories it empties and keeps, the last-copy check, the lock-and-plan loop and the deletion, with several locations able to lead to one repository |
| `ChangeSummary`, `ChangeReading` | what changed between two backups, folder by folder |
| `SnapshotMatching` | pairing old runs with the snapshots they wrote |
| `Pauses`, `SnapshotNames` | the memory of paused sessions and the allocator of snapshot names |
| `Ordering`, `Sums`, `Wrappers` | string order and lists without repetitions, sums over finite sets, and the option type |

How to read the model:

- Objects the program updates in place are classes (`Engine`, `AnomalyRepo`,
  `Host`, `Repositories`, `PauseMemory`, `Allocator`, `Actions`), and its loops
  are loops. Each method is proved against a specification function or
  predicate, and the promises are lemmas about those.
- How calls into code outside the model answer is a parameter (`Answers`,
  `Listings`, `ImportCalls`, `View`, `World`), so a theorem can say on which
  answers it depends; what a failing call leaves behind is nondeterministic.
- Concurrency is a state machine over the steps of all participants
  (`ScopeLocks`, `AnomalyWorker`); the theorems quantify over every
  interleaving.
- Amounts, levels and ratios are reals, counters and byte counts are unbounded
  integers; the one clamp to a signed 64-bit integer that the code spells out is
  in `SnapshotMatching`.

Where the code and its comments differ, the model follows the code:

- `cloneTree` says it copies modes; it copies their permission bits. A copy is
  the same tree exactly when no mode has a bit beyond them
  (`DatabaseImport.CopyIsTheSame`, `DatabaseImport.SetUserIdIsLost`).
- A rollback reports the data back although a mount whose emptying stopped half
  way holds only a part of it then. That happens exactly when the folder is seen
  as a mount, the emptying begins and not every entry arrives; of an ordinary
  folder, and once setting aside went through, the data is always back
  (`DatabaseImport.DataIsBackExactly`, and a run of it in
  `DatabaseImport.HalfMovedMountIsSplit`).
- A rollback that cannot start the container again still says the container runs
  on its previous data folder; the server runs exactly when that start leaves it
  running (`DatabaseImport.Host.FreshDataDirFor`, and a run of it in
  `DatabaseImport.StoppedServerIsReportedBack`).
- The comment on `heldOutside` says a place that cannot be told apart from one
  the deletion empties counts as holding nothing. An emptied location that cannot
  be named, such as one under a remote that spreads over others, is told apart by
  its spelling alone, so the repository itself can count as a place elsewhere and
  the last backup go unnamed (`HiddenUnion.TakenForAnother`). Where naming is
  truthful, a place that counts is another repository on every host exactly when
  the emptied location can be named (`StoragePlaces.ApartOnEveryHost`); an entry
  is safe on every host exactly when it is held at more places apart from each
  other than there are emptied locations without a name
  (`Erasure.HeldOnEveryHostExactly`). A kept section and an emptied one are two
  repositories on every host exactly when both can be named
  (`Erasure.KeptIsElsewhereExactly`).
- The comment on `passOnce` says nothing is left behind. Work that a failed pass
  gives back does not wake the worker: it sleeps beside work exactly when a pass
  gave some back, none has begun since and no token is left in the channel
  (`AnomalyWorker.SleepsExactly`, `AnomalyWorker.GivenBackWorkSleeps`). And a
  domain whose restore checks cannot be listed is not put back, nor are volumes
  whose readings cannot be read (`AnomalyEngine.RestoreChecksAnsweredExactly`,
  `AnomalyEngine.VolumesAnsweredExactly`).
- The comment on `keepLastGood` says the last good backup was fixed when the
  episode opened. An episode that opened without one gets one in exactly the
  passes that refresh it with figures that have one; a recorded one never changes
  (`AnomalyEpisodes.GainsLastGood`, `AnomalyEpisodes.LastGoodIsAdded`,
  `AnomalyEpisodes.LastGoodNeverMoves`).
- The number of findings reported as released after a user action is taken from
  rows read before the locks (`AnomalyActions.ReleasedIsExact`).
- The count of dataset snapshots without a summary counts entries of the listing,
  not snapshots (`SnapshotMatching.RepeatedBareCountsTwice`).

`dafny verify dfyconfig.toml` checks the project.

## Model

| member | source | states |
|---|---|---|
| OrderStatistics.MedianInMajorityInterval | internal/api/anomaly_detect.go:1177-1188 | the median lies in every interval that holds more than half of the samples |
| OrderStatistics.Mad | internal/api/anomaly_detect.go:1192-1201 | the loop over the deviations computes the median absolute deviation, which is zero when more than half of the samples equal the centre |
| OrderStatistics.MadOfMajority | internal/api/anomaly_detect.go:1190-1201 | a single outlier cannot inflate the spread: with more than half of the samples at the centre it is zero |
| OrderStatistics.HalfQuantileIsMedian | internal/api/anomaly_detect.go:1203-1215 | the interpolated one-half quantile is the median, for odd and even counts |
| OrderStatistics.ReferenceReaches | internal/api/anomaly_detect.go:521-533 | the new-data reference reaches x exactly when at least k = min(max(2, ceil(n/100)), n) samples do |
| OrderStatistics.ReferenceIgnoresFewSpikes | internal/api/anomaly_detect.go:521-533 | changing fewer than k samples to anything cannot lift the reference above the level the untouched ones keep |
| OrderStatistics.MedianNonNegative | internal/api/anomaly_detect.go:1177-1188 | the median of non-negative samples is not negative |
| AnomalyRules.LastNotBad | internal/api/anomaly_detect.go:721-734 | the last good sample is the newest one that is not itself bad, and every sample behind it is bad |
| AnomalyRules.OneNewestNotBad | internal/api/anomaly_detect.go:717-734 | there is only one such sample, so the name a finding gives is determined by the samples |
| AnomalyRules.DateOnset | internal/api/anomaly_detect.go:721-734 | the backward walk names the newest not-bad sample as last good, with its time, and the one behind it as the onset; without one it leaves the finding's own names |
| AnomalyRules.CountFailures | internal/api/anomaly_detect.go:849-898 | one walk counts the failures in a row from the newest run, which ends at the first run that did not fail, and the failures altogether, of which the streak is a part |
| AnomalyRules.StreakIs | internal/api/anomaly_detect.go:849-898 | the streak is the only number with that property |
| AnomalyNewData.NewDataSamples | internal/api/anomaly_detect.go:374-393 | the backward walk gathers the samples of the last thirty days, or the newest ten of any age when those are too few |
| AnomalyNewData.DetectNewData | internal/api/anomaly_detect.go:319-369 | the loop raises per run at most one of rewrite, full upload and spike, in that order of precedence, for runs newer than the last pass judged |
| AnomalyNewData.NewDataAreEvents | internal/api/anomaly_detect.go:319-369 | every new-data finding is an event about a run newer than the last pass judged, and exactly the rewrites are critical |
| AnomalyNewData.NewDataInRunOrder | internal/api/anomaly_detect.go:319-369 | the findings come in run order and no run raises two |
| AnomalyNewData.NewDataFrom | internal/api/anomaly_detect.go:319-369 | each finding is about one row of the window, and later findings are about later rows |
| DatasetRuns.DatasetRunsOf | internal/api/anomaly_detect.go:1021-1050 | the two loops produce the merged, stably sorted rows with a sample decided for each |
| DatasetRuns.RowsAre | internal/api/anomaly_detect.go:1021-1040 | the rows are the dataset's own and one, gone and with nothing measured, for each successful run of the tree since the first of them that has none, newest first |
| DatasetRuns.ZeroFollowsReadable | internal/api/anomaly_detect.go:1061-1085 | a synthesized zero stands exactly where an unreadable run directly follows a readable one under an unchanged selection |
| DatasetRuns.OneZeroPerGap | internal/api/anomaly_detect.go:1010-1085 | between any two synthesized zeros lies a readable successful run, so a vanished dataset yields one zero per gap |
| DatasetRuns.ZeroStaysNewest | internal/api/anomaly_detect.go:1052-1085 | as long as every newer row is unreadable, that zero is the newest value any rule sees |
| DatasetRuns.MembersKeepTheirPlaces | internal/api/anomaly_detect.go:1021-1050 | every recorded member is in the output exactly once and in its own order |
| DatasetRuns.SortThenSelect | internal/api/anomaly_detect.go:1021-1050 | the stable sort keeps the chosen rows in the order that sorting them alone gives |
| CapacityTrend.CapacityWindow | internal/api/anomaly_detect.go:1475-1493 | the window is the suffix of the recent readings from the last change of size on, and no change of size lies inside it |
| CapacityTrend.WindowMeans | internal/api/anomaly_detect.go:1475-1501 | the window is the readings of the last twenty-eight days, in order, from the last one on whose volume differs by more than a tenth in size from the one before it |
| LeastSquares.OlsSlope | internal/api/anomaly_detect.go:1518-1539 | the loops compute the slope of the normal equation, absent exactly when the lists do not match, are too short or do not spread |
| LeastSquares.SlopeIsBest | internal/api/anomaly_detect.go:1518-1539 | no line misses the readings by a smaller sum of squares than the one with that slope through the means |
| LeastSquares.LineHasItsSlope | internal/api/anomaly_detect.go:1518-1539 | readings that lie on a line have that line's slope |
| LeastSquares.RisingHasNoFall | internal/api/anomaly_detect.go:1518-1539 | readings that never fall while time goes on have no negative slope |
| CapacityTrend.FreeSpaceDrainPerDay | internal/api/anomaly_detect.go:1455-1473 | the drain is the fall per day of the least-squares line, given exactly when there are five readings over three days and the line falls |
| CapacityTrend.DrainIsBestFit | internal/api/anomaly_detect.go:1455-1473 | no line through the readings fits better than the one falling by the drain |
| CapacityTrend.NoFallNoDrain | internal/api/anomaly_detect.go:1455-1473 | a volume whose free space never fell over its readings has no drain |
| CapacityTrend.SteadyFallDrains | internal/api/anomaly_detect.go:1455-1473 | a volume that loses the same amount every day drains by exactly that amount |
| CapacityTrend.TooFewToDrain | internal/api/anomaly_detect.go:1457-1461 | fewer than five readings, or less than three days of them, have no drain |
| CapacityTrend.CapacityETA | internal/api/anomaly_detect.go:1408-1434 | there is a projection exactly when the repositories grow or the free space drains, and it is the nearer of the two |
| CapacityTrend.GrowthAddsUp | internal/api/anomaly_detect.go:1418-1421 | the growth adds up over the domains, and a domain nobody measured grows by nothing |
| CapacityTrend.NearerEnd | internal/api/anomaly_detect.go:1422-1430 | the days left use up the free space at the pace of the growth or of the drain |
| CapacityTrend.ReadVolume | internal/api/anomaly_detect.go:1365-1374 | the rules judge the newest reading of the window with that projection, and say nothing about an empty window |
| SensitivityOrder.PresetsOrdered | internal/api/anomaly_detect.go:178-205 | each threshold of a stricter preset lets at least as much through to a finding as the looser one |
| SensitivityOrder.SizeRefines | internal/api/anomaly_detect.go:640-715 | whatever a size rule raises under the looser thresholds it raises under the stricter ones at no lower severity |
| SensitivityOrder.NewDataRefines | internal/api/anomaly_detect.go:319-428 | the same for the new-data rules |
| SensitivityOrder.DurationRefines | internal/api/anomaly_detect.go:802-844 | the same for the duration rule |
| SensitivityOrder.ReliabilityRefines | internal/api/anomaly_detect.go:849-898 | the same for the reliability rule, where a flaky series may only turn into a failure streak |
| SensitivityOrder.StricterSeesMore | internal/api/anomaly_detect.go:1254-1286 | for every series without open rows the stricter preset answers for every finding of the looser one |
| SensitivityOrder.StricterSeesMoreCapacity | internal/api/anomaly_detect.go:1365-1406 | the same for a volume's capacity |
| AnomalyVerdicts.VerdictSays | internal/api/anomaly_detect.go:938-961 | a verdict either raises its metric or ends it; with an open row it ends exactly when the cleared test holds against the level the row opened with |
| AnomalyVerdicts.ItemSays | internal/api/anomaly_detect.go:1254-1286 | of everything the rules say about a series, a metric held against a level follows only its newest measurement and the level of its open row, and no event is ever reported absent |
| AnomalyVerdicts.CapacityIsSound | internal/api/anomaly_detect.go:1365-1406 | the capacity rules raise no event and report no event absent |
| AnomalyVerdicts.IntegrityIsSound | internal/api/anomaly_detect.go:912-936 | nor does the restore-check rule |
| AnomalyVerdicts.CollapseNamesLastGood | internal/api/anomaly_detect.go:679-715 | a collapse names the newest sample that is not lost against the level it is judged by, and the judged value is lost against it |
| AnomalyVerdicts.ShrinkNamesLastGood | internal/api/anomaly_detect.go:747-770 | a shrink that is raised names the newest sample that is not itself under the threshold of the level it reports, and the judged value lies under it |
| SteadyLevels.FindingsAreAboutNewest | internal/api/anomaly_detect.go:938-961 | whatever a size or duration rule raises or keeps open is about the newest run that measured it and what it measured; what it only keeps open keeps the severity, level, line and samples of the row |
| SteadyLevels.LevelFiguresAreTold | internal/api/anomaly_detect.go:1150-1175 | the figures of a shrink, growth or slow run give the level and the share of it that was measured |
| SizeAlarms.MeasurementsAre | internal/api/anomaly_detect.go:1000-1128 | the samples of a rule are, oldest first, what the successes with a backup or a measurement measured of its quantity |
| SizeAlarms.SelectionStartsOver | internal/api/anomaly_detect.go:963-975 | the levels begin again at the newest backup whose recorded selection differs from the one before it, and nowhere without one |
| SizeAlarms.OwnChangeStartsOver | internal/api/anomaly_detect.go:976-995 | and at the oldest backup that started after BombVault changed the source, or at one still running then while there is none |
| SizeAlarms.CollapseIsRaised | internal/api/anomaly_detect.go:679-745 | a series whose newest value is at most the preset's fraction of, and far enough below, what each of the up to five runs before it measured raises a critical finding about that run that calls itself a collapse, unless an open row takes the value for the way back |
| SizeAlarms.DrainIsRaised | internal/api/anomaly_detect.go:674-745 | one that is that far under any one measurement of the last thirty days raises one that calls itself a drain |
| SizeAlarms.NoCollapseWithoutLoss | internal/api/anomaly_detect.go:674-745 | a value that is not that far under any earlier measurement raises no collapse, and with ten earlier measurements or fewer nothing |
| SizeAlarms.CollapseNamesGoodRun | internal/api/anomaly_detect.go:700-734 | a collapse names the newest earlier run that is not that far under the reported level as the last good one, with its time, and the run after it as the first bad one |
| SizeAlarms.NoRebase | internal/api/anomaly_detect.go:963-995 | a series whose selection never changed and whose source BombVault did not change is compared as a whole |
| SteadyLevels.SteadyShrink | internal/api/anomaly_detect.go:747-770 | of a series whose window of ten runs or more mostly measured x, everything raised that is no collapse is a shrink against x far enough below it, critical under half of it, and such a value always raises something |
| SteadyLevels.SteadyGrowth | internal/api/anomaly_detect.go:772-791 | such a series raises a growth against x exactly when its newest value is far enough over x, as a warning |
| SteadyLevels.SteadyDuration | internal/api/anomaly_detect.go:798-844 | and a slow run exactly when it took long enough |
| SteadyLevels.NoiseKeepsQuiet | internal/api/anomaly_detect.go:793-797 | where most of the window is at least d off the level, whatever is raised against that level is at least k times d away from it, in units of the standard deviation |
| RunAlarms.StreakExactly | internal/api/anomaly_detect.go:849-898 | a streak is raised exactly when as many of the newest answerable runs failed as the preset waits for, critical exactly when twice as many did, about the newest run |
| RunAlarms.FlakyExactly | internal/api/anomaly_detect.go:849-898 | a series is called unreliable exactly when enough of its ten newest answerable runs failed, of five at least, without a streak at the end |
| RunAlarms.LostCheckExactly | internal/api/anomaly_detect.go:909-936 | a restore check is called lost exactly when the newest one that ran failed and an older one passed, and over exactly otherwise |
| RunAlarms.NoCheckNoWord | internal/api/anomaly_detect.go:909-936 | other kinds of checks and checks that never ran say nothing |
| RunAlarms.RoomExactly | internal/api/anomaly_detect.go:1390-1404 | a volume is low under a twentieth of free space, warned about under a tenth, kept open under twelve hundredths, and its row ends exactly from there on |
| RunAlarms.EtaExactly | internal/api/anomaly_detect.go:1377-1388 | a projection is alarming, warned about, kept open or over exactly by the days of the preset, a quarter more for a row that is open |
| NewDataAlarms.RewriteExactly | internal/api/anomaly_detect.go:449-508 | a rewrite is raised about exactly the judged runs that stored at least half of their source and 64 MiB besides what the source grew by since the last restorable run, with more than a user accepted; it is critical and names that run as the last good one |
| NewDataAlarms.FullUploadExactly | internal/api/anomaly_detect.go:510-519 | a full upload is noted about exactly the judged runs that found no parent and stored every file as new |
| NewDataAlarms.SpikeIsRaised | internal/api/anomaly_detect.go:395-447 | a run that outdoes the preset's multiple of what the last month, or everything when that is too little, usually adds, in total and by rate, is reported, whatever one run or one in a hundred added before |
| NewDataAlarms.SpikeIsFar | internal/api/anomaly_detect.go:395-447 | and what is reported had ten runs to compare with, and outdoes the multiple of 64 MiB, of whatever the month often added and of what a user accepted |
| AnomalyLifecycle.RaisedSince | internal/api/anomaly_lifecycle.go:161-172 | the loop keeps the findings about runs newer than the given one, in order |
| AnomalyLifecycle.ByMetric | internal/api/anomaly_lifecycle.go:142-159 | the findings are grouped by metric without loss, one group per metric in order of first appearance |
| AnomalyLifecycle.ApplyFindings | internal/api/anomaly_lifecycle.go:40-116 | the three loops write exactly one decision per metric, the one the findings, the absence or the age of the row call for |
| AnomalyLifecycle.WriteAllAged | internal/api/anomaly_lifecycle.go:105-114 | only a warning about a single run ages out, whatever order the rows are met in |
| AnomalyStore.AnomalyRepo.ScopeStateOf | internal/store/anomalies.go:147-186 | the scan reads the one open row of each fingerprint, the newest seen settled one and the newest run any row saw |
| AnomalyStore.AnomalyRepo.RunEdits | internal/store/anomalies.go:193-295 | the statements of one kind change exactly the rows they name, in turn |
| AnomalyStore.AnomalyRepo.ApplyAnomalyChanges | internal/store/anomalies.go:188-295 | one transaction applies everything or nothing, and nothing only when a statement or the commit fails or the result would have two open rows of one fingerprint |
| AnomalyStore.AnomalyRepo.CloseAnomalies | internal/store/anomalies.go:456-491 | only open rows are closed, each once, and the ones closed are returned |
| AnomalyStore.AnomalyRepo.PruneAnomalies | internal/store/anomalies.go:539-554 | only rows that are neither open nor settled, and that nobody touched since the cutoff, are dropped |
| AnomalyStore.Clash | internal/store/anomalies.go:193-295 | inserting a row beside an open one of the same fingerprint breaks the unique index |
| AnomalyPass.OneEditEach | internal/api/anomaly_lifecycle.go:40-116 | of everything a pass writes at most one decision reaches a row |
| AnomalyPass.Openers | internal/api/anomaly_lifecycle.go:40-116 | every inserted row comes from the decision of one metric of its own |
| AnomalyPass.InsertsAreFew | internal/api/anomaly_lifecycle.go:40-116 | a pass inserts at most one row per metric |
| AnomalyPass.PassHasEffect | internal/api/anomaly_lifecycle.go:40-116 | the statements amount, row by row, to each row's own decision, with one new row per opening decision |
| AnomalyPass.DecisionIsPlausible | internal/api/anomaly_lifecycle.go:40-116 | a decision aims only at the open row of its own fingerprint or, where none is open, at the settled one, and opens a row only where none stays open |
| AnomalyPass.DecisionsStayHome | internal/api/anomaly_lifecycle.go:40-116 | no decision reaches a row of another scope |
| AnomalyEpisodes.RunPass | internal/api/anomaly_engine.go:788-814 | read, decide and write is one step of the history when the statements go through, whatever the unique index, and changes nothing when they do not |
| AnomalyEpisodes.PassAbout | internal/api/anomaly_lifecycle.go:40-116 | a pass looked at one metric at a time: what was raised, what was gone, the one decision and its effect |
| AnomalyEpisodes.StepKeepsTable | internal/api/anomaly_lifecycle.go:40-116 | every pass, user action and pruning keeps at most one open row per fingerprint |
| AnomalyEpisodes.HistoryKeepsTable | internal/api/anomaly_lifecycle.go:40-116 | so does every history |
| AnomalyEpisodes.LastGoodNeverMoves | internal/api/anomaly_lifecycle.go:54-66 | over every history an episode keeps its first run, last good run and time, level, threshold and samples, and neither its severity nor its count ever falls |
| AnomalyEpisodes.GainsLastGood | internal/api/anomaly_lifecycle.go:174-190 | an episode that opened without a last good time gets one in a pass exactly when the row is open and unrecovered and the newest finding about it has one |
| AnomalyEpisodes.LastGoodIsAdded | internal/api/anomaly_lifecycle.go:174-190 | and a pass through the table does that to a shrink that opened with no good backup behind it |
| AnomalyEpisodes.RewriteHoldSurvives | internal/api/anomaly.go:637-645 | over every sequence of passes, prunings and actions on other rows an open rewrite stays open, critical and unrecovered, so its retention hold stands |
| AnomalyEpisodes.SettlingEndsHold | internal/api/anomaly.go:637-645 | a user action ends exactly the holds of the rows it names |
| AnomalyEpisodes.SettledOnlyTouched | internal/api/anomaly_lifecycle.go:70-103 | while a condition is settled a pass touches the settled row, clears it the first time the condition is gone, and otherwise does nothing |
| AnomalyEpisodes.SettledConditionsStayClosed | internal/api/anomaly_lifecycle.go:40-116 | along every history no open row of a condition stands beside a settled, uncleared one |
| AnomalyHistories.StandsUntilBack | internal/api/anomaly_detect.go:943-961 | a pass keeps the row standing exactly when the newest measurement has not come back to the level the row opened with |
| AnomalyHistories.DriftCannotClear | internal/api/anomaly_detect.go:640-672 | over every history without such a measurement the same row stays open with the same level, whatever the medians of the windows become |
| AnomalyHistories.PassCounts | internal/api/anomaly_lifecycle.go:44-82 | a pass counts every run no row of the fingerprint has seen yet and no other, all on one row |
| AnomalyHistories.MemoryCovers | internal/api/anomaly_engine.go:1288-1304 | the instant a process has judged a series to is never older than a run an earlier pass saw, whatever restarts there were and in whatever order the passes' clocks were read |
| AnomalyHistories.NewerOrRecent | internal/api/anomaly_engine.go:1288-1333 | a run a pass judges is newer than every run an earlier pass saw, or newer than what any earlier pruning dropped |
| AnomalyHistories.NeverCountedTwice | internal/api/anomaly_lifecycle.go:161-172 | over every history of passes, restarts and prunings a run counted once is older than every run counted later, so no run adds to two rows or twice to one |
| AnomalyHistories.ItemInRunOrder | internal/api/anomaly_detect.go:1254-1286 | what the rules raise about one series meets the order that the counting relies on |
| AnomalyHistories.RewriteHoldSurvivesTheRules | internal/api/anomaly.go:637-645 | an open rewrite keeps its hold over every history whose passes are decided by the item, capacity and restore-check rules, with prunings and actions on other rows |
| AnomalyHistories.SettledStaysClosedUnderTheRules | internal/api/anomaly_lifecycle.go:40-116 | over every such history no open row of a condition stands beside a settled, uncleared one |
| AnomalyOutcomes.RaisedAgain | internal/api/anomaly_lifecycle.go:54-70 | a condition that is raised again gives its open row the figures of the newest finding, keeps the recorded last good time, never lowers the severity and counts each run newer than the row once; no other row of the condition changes and none opens |
| AnomalyOutcomes.RaisedAfterRecovery | internal/api/anomaly_lifecycle.go:54-58 | a condition raised after its row was marked recovered resolves that row and opens exactly one that tells what the newest finding says, field by field |
| AnomalyOutcomes.RaisedFirst | internal/api/anomaly_lifecycle.go:71-81 | a condition that is neither open nor settled, and a new single run whatever was settled, opens exactly one such row and changes no other |
| AnomalyOutcomes.RaisedWhileSettled | internal/api/anomaly_lifecycle.go:71-79 | a settled condition that is raised has the time and the value of its newest settled row moved on, and nothing opens |
| AnomalyOutcomes.GoneWhileOpen | internal/api/anomaly_lifecycle.go:84-98 | a condition that is gone resolves its open row, except that a critical one of the six metrics about lost data or room stays open and is marked recovered, at this pass exactly when it was not marked before |
| AnomalyOutcomes.GoneWhileSettled | internal/api/anomaly_lifecycle.go:84-104 | a settled condition that is gone has its newest settled row cleared |
| AnomalyOutcomes.NothingHeard | internal/api/anomaly_lifecycle.go:106-114 | without a word about a condition its rows stay as they are, except an open warning about a run more than seven days old, which is resolved |
| AnomalyOutcomes.AlarmEndsExactly | internal/api/anomaly_lifecycle.go:27-33 | one step ends an open critical row of those six metrics if and only if a user settles it or a pass raises the condition again after it was marked recovered |
| AnomalyOutcomes.AlarmStands | internal/api/anomaly_lifecycle.go:84-98 | over every history without such a step the row stays in the table, open and critical |
| AnomalyOutcomes.HoldEndsExactly | internal/api/anomaly.go:250-255 | a row that pauses the deletion of old backups goes on doing so if and only if the two switches are on, no user settles it and no pass finds its condition gone |
| AnomalyOutcomes.OnlyTheseHold | internal/api/anomaly.go:637-645 | the rows that pause it are the open, critical, unrecovered ones of three losses and the rewrite |
| AnomalyOutcomes.SettleOutcome | internal/store/anomalies.go:456-491 | a user action changes the state and the time of the open rows it names and nothing else |
| AnomalyOutcomes.PruneOutcome | internal/store/anomalies.go:539-554 | the pruning drops exactly the resolved rows and the settled rows that are over whose times all lie before the cutoff |
| AnomalyActions.DedupedIDs | internal/api/anomaly.go:694-702 | each id once, without the empty one, in the order they first came |
| AnomalyActions.AsReadAt | internal/api/anomaly.go:417-430 | what counts as read of each id is its row in the table of the moment it was read |
| AnomalyActions.Actions.ReadClosable | internal/api/anomaly.go:410-433 | read one by one while the table changes, every id is either closable or counted as skipped, and the first read that fails ends it |
| AnomalyActions.HeldAmong | internal/api/anomaly.go:467-477 | the loop counts the closed findings that were holding when they were read |
| AnomalyActions.Actions.WriteExpectations | internal/api/anomaly.go:450-456 | each expectation is raised to the highest of what it was and what the closed rows declare normal, up to the first write that fails |
| AnomalyActions.Actions.CloseEpisodes | internal/api/anomaly.go:407-465 | for every way the store answers: changed and skipped add up to the distinct ids asked for, exactly the wanted rows that are still open under the locks are closed, a mark records every closed row, and a failed record is reported although its rows are closed |
| AnomalyActions.RaisedOneMore | internal/store/anomalies.go:662-677 | one more upsert keeps every expectation at the highest recorded value |
| AnomalyActions.ClosingEndsHolds | internal/api/anomaly.go:637-645 | closing ends exactly the holds of the closed rows |
| AnomalyActions.ReleasedIsExact | internal/api/anomaly.go:467-477 | what is reported as released are the holds that ended if and only if no pass changed, between the reading and the locks, whether a closed row holds |
| AnomalyActions.DedupedInOrder | internal/api/anomaly.go:694-702 | the k-th of the distinct ids is the one whose first place has k others in front of it |
| AnomalyActions.ActionSettles | internal/api/anomaly.go:410-465 | an action settles exactly the rows among the first five hundred ids asked for that were open both when read and under the locks, and for a mark as expected are of a metric with a level of its own |
| AcceptedLevels.MarkRecords | internal/api/anomaly.go:478-497 | a mark leaves its series a ceiling a quarter over the amount of new data, or the newest run of the row as the start of the new level, and never lowers what was there |
| AcceptedLevels.MarkRecordsNoMore | internal/api/anomaly.go:478-497 | and every value recorded afterwards was there before or comes from a marked row of that series |
| AcceptedLevels.AcceptedAmount | internal/api/anomaly.go:24-26 | once an amount of new data was marked as expected, no run of the series that adds at most a quarter more raises a spike or a rewrite, whatever was marked since |
| AcceptedLevels.AcceptedLevel | internal/api/anomaly.go:404-408 | once a size or duration was marked as expected, nothing but a collapse is raised for that rule before ten runs of the new level are there to compare with |
| ScopeLocks.KeysToLock | internal/api/anomaly_engine.go:343-356 | the keys to lock are those of the scopes, sorted and each once |
| ScopeLocks.KeysTellScopesApart | internal/api/anomaly_engine.go:343-356 | two scopes have one key, and so one lock, exactly when they are the same |
| ScopeLocks.RunConsistent | internal/api/anomaly_engine.go:345-367 | in every reachable state a lock is held by exactly the action that is past it |
| ScopeLocks.NeverSharedLock | internal/api/anomaly_engine.go:345-372 | no two of any number of actions ever hold the lock of one scope |
| ScopeLocks.NeverDeadlocked | internal/api/anomaly_engine.go:345-372 | in every reachable state all actions are finished or one of them can step |
| ScopeLocks.RunsEnd | internal/api/anomaly_engine.go:345-372 | every step uses up one unit of a fixed amount of work, so every schedule ends |
| AnomalyEngine.Engine.RunFinished | internal/api/anomaly_engine.go:223-241 | a finish puts up its run, or both series of an item whose run is not named, and wakes the worker |
| AnomalyEngine.Engine.MarkAllDirty | internal/api/anomaly_engine.go:243-252 | everything is put up and the worker woken |
| AnomalyEngine.Engine.MarkScopesDirty | internal/api/anomaly_engine.go:311-325 | each scope is put up as itself, a series of restore checks as its domain, and nothing is woken for an empty list |
| AnomalyEngine.Engine.TakeDirty | internal/api/anomaly_engine.go:1246-1257 | everything is taken and the list left empty |
| AnomalyEngine.Engine.RestoreDirty | internal/api/anomaly_engine.go:1272-1280 | everything goes back beside what was put up since, without waking anyone |
| AnomalyEngine.Engine.RecordScope | internal/api/anomaly_engine.go:1297-1304 | the instant a series is judged up to never moves back and moves for no other series |
| AnomalyEngine.SortByKey | internal/api/anomaly_engine.go:638-640 | the scopes of the set, each once, in key order |
| AnomalyEngine.Engine.ScopesToEvaluate | internal/api/anomaly_engine.go:567-641 | the queue holds exactly the dirty series, the series of resolved runs and, in a full pass, of every item, the volumes with readings or open findings, the datasets of the trees among them and the listed restore checks of the dirty domains, for every way the lists answer; unresolved runs go back |
| AnomalyEngine.Engine.PassOnce | internal/api/anomaly_engine.go:485-550 | what one pass judges and leaves on the list, for every answer of the calls around it |
| AnomalyEngine.PassLosesNothing | internal/api/anomaly_engine.go:485-550 | of what an undisturbed pass took, every series was judged or is back, and every run is back, became such a series or has no known item |
| AnomalyEngine.RestoreChecksAnsweredExactly | internal/api/anomaly_engine.go:567-641 | the restore checks of every dirty domain are judged or the domain is back if and only if their list could be read (or there are none) |
| AnomalyEngine.VolumesAnsweredExactly | internal/api/anomaly_engine.go:567-700 | every volume is judged or back if and only if the readings could be read (or each was on the list by itself) |
| AnomalyQueue.QueueIsDue | internal/api/anomaly_engine.go:567-641 | a series is in the queue if and only if it was marked, a finished backup, dump, restore check or off-site test restore asks for it, its tree is judged, or everything is, told by kinds, domains and lists |
| AnomalyQueue.DueIsAnswered | internal/api/anomaly_engine.go:485-550 | every series that is due is judged by an undisturbed pass or back on the list, a restore check as its domain |
| AnomalyQueue.FinishedCheckIsAnswered | internal/api/anomaly_engine.go:612-636 | after a restore check or an off-site test restore of a domain each listed check of it is judged or the domain is back |
| AnomalyWorker.AlwaysAnnounced | internal/api/anomaly_engine.go:186-221 | along every history, with marks between any two steps, work on the list has a token in the channel unless someone is about to put one there, the worker is about to take it, or a pass gave it back |
| AnomalyWorker.TokenExactly | internal/api/anomaly_engine.go:186-221 | the channel holds a token exactly when one was sent that nobody took out since |
| AnomalyWorker.PutBackExactly | internal/api/anomaly_engine.go:501-532 | work counts as given back exactly when a pass gave some back and none has begun since |
| AnomalyWorker.SleepsExactly | internal/api/anomaly_engine.go:186-221 | a worker that waits beside work, with nobody between marking and waking, sleeps if and only if a pass gave work back, none has begun since, and every token sent was taken out |
| AnomalyWorker.GivenBackWorkSleeps | internal/api/anomaly_engine.go:501-505 | and that does happen: work given back once sleeps until the idle tick |
| AnomalyWorker.MarkedScopeIsNotLost | internal/api/anomaly_engine.go:485-550 | a series marked at any time, other than one of restore checks, is on the list, in a pass that took it after the mark, or judged by such a pass, unless detection was off or the context ended |
| AnomalyWorker.FinishedRunIsNotLost | internal/api/anomaly_engine.go:594-619 | a run put up at any time is on the list or in hand, was dropped for one of the stated reasons by a pass that had it in hand, or became its series, which is then not lost either |
| DatabaseImport.CloneTree | internal/api/db_dump_import_mount.go:137-200 | a copy succeeds exactly when every call answers and nothing in the tree is anything but a file, folder or link, and is then the entry with the permission bits of its modes, at every depth |
| DatabaseImport.SameIsAlike | internal/api/db_dump_import_mount.go:135-200 | two trees count as the same data if and only if they agree at every depth in shape, names, owners, bytes, link targets and the nine permission bits of each mode |
| DatabaseImport.CopyIsAlike | internal/api/db_dump_import_mount.go:135-200 | what a copy makes of any tree agrees with it in all of that and has no other mode bits |
| DatabaseImport.CopyIsTheSame | internal/api/db_dump_import_mount.go:137-200 | such a copy is the same tree if and only if no mode in it has a bit beyond the permissions |
| DatabaseImport.SetUserIdIsLost | internal/api/db_dump_import_mount.go:137-200 | and a set-user-id file in a folder is one that is not |
| DatabaseImport.NormTwice | internal/api/db_dump_import_mount.go:137-200 | copying a copy changes nothing more |
| DatabaseImport.Host.MoveEntry | internal/api/db_dump_import_mount.go:120-132 | for every way the rename, the copy and the removal can answer, whether the entry leaves, and on which side it is complete when it does not |
| DatabaseImport.Host.MoveContents | internal/api/db_dump_import_mount.go:112-135 | everything moved, or stopped at the first entry by name that does not leave, with those before it moved, those behind it untouched and it complete on one side |
| DatabaseImport.MoveConserves | internal/api/db_dump_import_mount.go:112-135 | a move never loses an entry |
| DatabaseImport.MovedIsWhole | internal/api/db_dump_import_mount.go:112-135 | for every way the calls answer, what stands at the target is the whole folder if and only if every entry leaves and the last one stands whole at the target |
| DatabaseImport.Host.SetDataDirAside | internal/api/db_dump_import_mount.go:66-84 | for every way the calls answer: an ordinary folder is kept whole or stays, a success keeps exactly the original entries, and only a mount can be left half emptied |
| DatabaseImport.SetAsideConserves | internal/api/db_dump_import_mount.go:66-84 | every original entry is complete in the data folder or in the kept one, however it ends |
| DatabaseImport.Host.PutDataDirBack | internal/api/db_dump_import_mount.go:86-110 | it goes through exactly when no call stands in the way; then the kept content is back exactly and the fresh data in the failed folder, and otherwise both are still complete in some folder |
| DatabaseImport.PutBackConserves | internal/api/db_dump_import_mount.go:86-110 | putting back never loses an original entry |
| DatabaseImport.Host.RecreateDataDir | internal/api/db_dump_import.go:509-530 | an empty folder stands there afterwards, or none when it could not be made |
| DatabaseImport.Host.RollbackImport | internal/api/db_dump_import.go:576-595 | it says the data is back exactly when nothing had been moved or the put-back goes through, the data folder then holds exactly what had been kept, nothing is lost otherwise, and the server runs unless its start left it down |
| DatabaseImport.Host.FreshDataDirFor | internal/api/db_dump_import.go:482-507 | after a success the kept folder holds exactly the original entries; where the data is reported back and the folder is no mount, or setting aside had gone through, the data folder does; and after any failure each entry is complete in one of the three folders |
| DatabaseImport.Host.ImportDBDump | internal/api/db_dump_import.go:338-380 | the same for the whole import, with the exact condition for a mount; no stopped app is forgotten, and none starts again when the import failed with the old data not back |
| DatabaseImport.StartDependents | internal/api/db_dump_import.go:464-480 | every stopped app is tried once, in the order of their dependencies, and is started or reported as down as its start answers |
| DatabaseImport.ProvidersAreTriedFirst | internal/compose/compose.go:102-146 | and is tried before that one after an import |
| DatabaseImport.DataIsBackExactly | internal/api/db_dump_import_mount.go:66-110 | where the data is reported back, the folder holds exactly the originals if and only if it is no mount whose emptying began and did not bring every entry over |
| DatabaseImport.HalfMovedMountIsSplit | internal/api/db_dump_import_mount.go:75-110 | a run in which a mount of two entries ends with one in the data folder and one in the failed one, although every call of the rollback answers and the data is reported back |
| DatabaseImport.StoppedServerIsReportedBack | internal/api/db_dump_import.go:591-594 | a run in which the data is reported back with the server down |
| StartOrder.DepGraph | internal/compose/compose.go:75-100 | an edge, once, for every other app that carries a service the app depends on |
| StartOrder.StartOrder | internal/compose/compose.go:102-146 | every app once; up to a cut each after all it depends on, and behind it, as they were, apps that each wait for another of them |
| StartOrder.LateOnlyInKnots | internal/compose/compose.go:102-146 | an app is behind the cut if and only if it is on a cycle of dependencies or leads into one |
| StartOrder.AcyclicStartsInOrder | internal/compose/compose.go:102-146 | without cycles every app comes after everything it depends on |
| StartOrder.ProvidersFirst | internal/compose/compose.go:74-146 | without cycles an app that carries a service another one depends on starts before that one |
| StoragePlaces.Elsewhere | internal/api/destination_erase.go:216-229 | a location counts as elsewhere exactly when it can be told apart from every emptied one |
| StoragePlaces.OverlapBothWays | internal/api/place_identity.go:35-48 | whether two locations are one place or nested does not depend on the side it is asked from |
| StoragePlaces.OverlapMeans | internal/api/place_identity.go:35-58 | two locations overlap exactly when they are under one account with one path in the other, or are two local folders the host takes for one, by their places where both can be named and as written otherwise |
| StoragePlaces.ApartMeans | internal/api/destination_erase.go:216-229 | a location is told apart from every emptied one exactly when it can be named and each of those is named otherwise, or cannot be named and is spelled otherwise |
| StoragePlaces.ApartOnEveryHost | internal/api/destination_erase.go:216-229 | a location that counts as elsewhere is another repository than an emptied one on every host with truthful naming if and only if the emptied one can be named |
| StoragePlaces.NotOverlappingOnEveryHost | internal/api/place_identity.go:122-137 | so are two locations that do not overlap, if and only if both can be named |
| HolderPlaces.UntouchedOnEveryHost | internal/api/destination_erase.go:205-229 | one of several places that count stays untouched on every such host if and only if there are more of them apart from each other than emptied locations without a name |
| ErasureSections.LiveRepos | internal/api/place_identity.go:80-120 | the repositories in use are exactly the resolved homes, named repositories, listed targets and destinations |
| ErasureSections.SharedWith | internal/api/destination_erase.go:161-178 | why a repository stays: it meets one entries back up to, or another one in use, other than its own rows |
| ErasureSections.PlanSections | internal/api/destination_erase.go:273-380 | the sections of a plan are the copies of the destination's targets, their direct repositories and what moved domains left behind, each emptied or kept for its reason |
| ErasureSections.KeptIsApart | internal/api/destination_erase.go:161-178 | a kept section is never at the location of an emptied one, and never overlaps one but as a target and the direct repository in a folder of its own inside it, or as two folders that moved domains left |
| ErasureReasons.PlannedExactly | internal/api/destination_erase.go:273-380 | the plan has a section for exactly the copy and the direct repository of each target of the destination, and for each of the six domains without a target there whose folder holds backups of its own that nothing else in use shares |
| ErasureReasons.EmptiedExactly | internal/api/destination_erase.go:335-380 | a section is emptied if and only if it resolves, can be listed, no repository in use but its own rows shares its place, and the target does not refuse deletes, the direct repository is neither used nor immutable, or the destination it was left at is not immutable |
| ErasureReasons.KeptReason | internal/api/destination_erase.go:335-380 | and a kept one names its reason in the stated order |
| ErasureReasons.SectionLists | internal/api/destination_erase.go:429-451 | a section lists exactly the backups of its own domain at its location |
| ErasurePlan.HeldOutside | internal/api/destination_erase.go:205-272 | the loops over the domain's repositories and targets gather what the places that count hold |
| ErasurePlan.OutsideMeans | internal/api/destination_erase.go:205-272 | an entry counts as held outside exactly when a repository or target that counts lists a backup of it |
| ErasurePlan.SectionAt | internal/api/destination_erase.go:429-451 | a section is emptied exactly when nothing keeps it, it resolves and it could be listed, and lists the backups of its own domain |
| ErasurePlan.Count | internal/api/destination_erase.go:453-495 | the totals over the emptied sections, and the list of last copies sorted, each with the domain it is met in first and the backups it loses |
| ErasurePlan.UnheldIsLast | internal/api/destination_erase.go:466-494 | an entry with a backup in an emptied section is listed as a last copy unless another place holds it |
| ErasurePlan.LastIsUnheld | internal/api/destination_erase.go:466-494 | and only such an entry is listed |
| ErasurePlan.LastHasItsDomain | internal/api/destination_erase.go:466-494 | and it has such a backup in the domain it is listed under |
| ErasureTotals.HeldElsewhereExactly | internal/api/destination_erase.go:205-272 | an entry or a backup counts as held elsewhere if and only if a repository of the domain, or a target not at this destination, that can be told apart and listed lists a backup of the entry, or the backup or a copy of it |
| ErasureTotals.TotalsMean | internal/api/destination_erase.go:453-495 | the totals are the numbers of emptied backups, of those no place outside holds, and, of each entry listed as a last copy, of its backups; the list is in order and names every such entry |
| ErasureTotals.EntriesAre | internal/api/destination_erase.go:466-477 | the entries counted are those with a backup in an emptied section |
| Erasure.RefusalOf | internal/api/destination_erase.go:625-642 | a deletion may start exactly when nothing changed since it was shown, something is emptied and every last copy is named |
| Erasure.PlanErasure | internal/api/destination_erase.go:273-399 | the plan for what was read: its sections, its last copies and the digest over both |
| Erasure.LockAndPlan | internal/api/destination_erase.go:529-570 | the loop ends after at most as many attempts as there are domains, and the plan it returns was made from what was read with every domain it touches already locked |
| Erasure.Repositories.EmptyRepo | internal/api/destination_erase.go:689-714 | only the listed ids are forgotten from the repository behind the location, chunk by chunk, and all of them when it succeeds |
| Erasure.Repositories.RunErasure | internal/api/destination_erase.go:644-687 | only what the emptied sections list is gone from the repositories behind them, and all of it when it succeeds |
| Erasure.Repositories.Erase | internal/api/destination_erase.go:524-611 | nothing is touched unless the plan was made under its locks and passed the check, and the location is removed only once every emptied section is empty; where naming is truthful, what is gone is accounted for if the emptied locations can be named or the entries are held widely enough, and every repository that does not go, told by what was read about it, and can be told apart has all it had |
| Erasure.DeletedIsHeldOrNamed | internal/api/destination_erase.go:453-495 | on a host where every unnamed entry has a holder away from the emptied repositories, every snapshot that is gone was listed in an emptied section, and its entry was named or is held in a listed repository the deletion did not touch |
| Erasure.NamedIsWidelyHeld | internal/api/destination_erase.go:453-495 | where every emptied location can be named, the last-copy check lets through only entries that are named or held widely enough for that |
| Erasure.HeldOnEveryHostExactly | internal/api/destination_erase.go:205-229 | every unnamed entry keeps a repository the deletion does not touch on every host with truthful naming if and only if it is held at more places apart from each other than there are emptied locations without a name |
| Erasure.NothingLostUnnamed | internal/api/destination_erase.go:205-272 | so with accurate listings every entry that lost a backup and was not named has another one in some repository afterwards |
| Erasure.KeptSectionStays | internal/api/destination_erase.go:648-653 | the repository behind a kept section that can be told apart from the emptied ones holds exactly what it held before |
| Erasure.UsedRepositoryStays | internal/api/destination_erase.go:362-380 | a direct repository that is used or immutable and can be told apart from what is emptied has every backup it had |
| Erasure.KeptIsElsewhereExactly | internal/api/destination_erase.go:161-178 | but for two folders of one target or destination, a kept section and an emptied one are two repositories on every host with truthful naming if and only if both can be named |
| HiddenUnion.TakenForAnother | internal/api/destination_erase.go:205-229 | a deletion at a destination under a union remote runs through with no last copy to name, although the home that holds the entry is the repository it empties |
| ChangeSummary.BuildTree | internal/api/anomaly_changes.go:135-157 | each folder of the tree has the figures of the files below it, whatever order the files come in |
| ChangeSummary.TreeIsUnique | internal/api/anomaly_changes.go:135-157 | and there is only one such tree |
| ChangeSummary.FoldersTell | internal/api/anomaly_changes.go:82-94 | every folder tells how many files below it were removed, added and modified, and how large those are |
| ChangeSummary.Busiest | internal/api/anomaly_changes.go:163-172 | the folder with the largest weight, of equal ones the first by path |
| ChangeSummary.RankingIsUnique | internal/api/anomaly_changes.go:187-193 | the order of the rows is determined by weights and paths |
| ChangeSummary.ShowLevel | internal/api/anomaly_changes.go:176-186 | the chain of single folders is skipped and the loop ends |
| ChangeSummary.LevelKeepsWeight | internal/api/anomaly_changes.go:176-186 | the level shown has the weight of the total, and cannot be skipped itself |
| ChangeSummary.FindFocus | internal/api/anomaly_changes.go:208-215 | the descent to the focus ends |
| ChangeSummary.FocusIsDeepest | internal/api/anomaly_changes.go:208-216 | every folder on the way to the focus carries nine tenths of the one above it, and none in the focus carries that much again |
| ChangeSummary.RestOf | internal/api/anomaly_changes.go:194-204 | what is left after subtracting the rows is the sum of the files in none of them |
| ChangeSummary.SummarizeChanges | internal/api/anomaly_changes.go:133-223 | the whole summary, tied to the tree, the ranking, the level and the focus |
| ChangeSummary.IsRegenerable | internal/api/anomaly_changes.go:217-220 | a focus counts as rebuilt by the app exactly when a folder on the way to it has one of the known names in any case |
| ChangeSummary.SummaryConserves | internal/api/anomaly_changes.go:133-223 | the rows and the rest add up to the level's figures in all six counters, the total counts every file once, and the level has its weight |
| ChangeSummary.SummaryIsDeterministic | internal/api/anomaly_changes.go:133-223 | two runs over the same changes say the same |
| ChangeReading.LevelOfSummary | internal/api/anomaly_changes.go:155-206 | the level is reached through folders that are alone and hold all of the one above, and its rows are its six folders with most of what changed, in bytes or, without any, in files |
| ChangeReading.FocusOfSummary | internal/api/anomaly_changes.go:208-216 | the focus is reached through folders that each hold nine tenths of the one above, and no folder in it holds that much again |
| ChangeReading.RegenerableOfSummary | internal/api/anomaly_changes.go:51-58 | a focus counts as rebuilt by the app exactly when a part of its path has one of the sixteen names in any case |
| SnapshotMatching.VmRunOf | internal/api/anomaly_backfill.go:176-187 | the first tag that names a known run decides |
| SnapshotMatching.MatchSnapshotSummaries | internal/api/anomaly_backfill.go:54-132 | each run gets the sums over the first entries of its own snapshots, a parent only if all of them had one, its added bytes only if one was found by tag; in a listing that names a snapshot by its id those are all of its snapshots |
| SnapshotMatching.FirstsAreFirst | internal/api/anomaly_backfill.go:71-80 | an entry counts exactly when it belongs to a run and is the first of that run and snapshot id |
| SnapshotMatching.FirstsOfConsistent | internal/api/anomaly_backfill.go:71-80 | in a listing that names a snapshot by its id these are all the snapshots that belong to a run |
| SnapshotMatching.MatchedAreCounted | internal/api/anomaly_backfill.go:54-132 | every distinct matched snapshot is tallied for exactly one run exactly once or counted as having no summary |
| SnapshotMatching.ListingIsASet | internal/api/anomaly_backfill.go:54-132 | reordering a listing or repeating entries of it changes nothing |
| SnapshotMatching.OneSnapshotFills | internal/api/anomaly_backfill.go:93-131 | a run with one snapshot is filled with the bytes, files, new files and time restic gave for it, and with the added data only when found by its tag |
| SnapshotMatching.MoreSnapshotsAdd | internal/api/anomaly_backfill.go:93-131 | each further snapshot of the run adds its own figures, and takes the parent away when it had none |
| SnapshotMatching.OwnerExactly | internal/api/anomaly_backfill.go:61-79 | a snapshot belongs to the last run that recorded it, else to the run its first tag with a known run names |
| SnapshotMatching.MatchDatasetSummaries | internal/api/anomaly_backfill.go:134-165 | a dataset is filled exactly when a snapshot of its own with a summary is listed |
| SnapshotMatching.DatasetListingIsASet | internal/api/anomaly_backfill.go:134-165 | and what it is filled with does not depend on order or repetitions |
| SnapshotMatching.DatasetFills | internal/api/anomaly_backfill.go:157-164 | a dataset is filled with the bytes, files, new files and time restic gave for its snapshot |
| SnapshotMatching.DatasetOwner | internal/api/anomaly_backfill.go:138-143 | which is that of the last run that recorded it as a dataset's |
| SnapshotMatching.RepeatedBareCountsTwice | internal/api/anomaly_backfill.go:149-156 | but a dataset snapshot without a summary that is listed twice is counted twice |
| SnapshotMatching.BareCountedOnce | internal/api/anomaly_backfill.go:149-156 | so that count is one of distinct snapshots exactly when none of them is listed twice |
| Pauses.PauseMemory.Busy | internal/activity/activity.go:208-241 | one look reports the busy sessions and leaves the marks the step function gives |
| Pauses.PlayingIsBusy | internal/activity/activity.go:208-241 | every playing session is reported, and nothing that is no session of the look |
| Pauses.LeftOutOnlyWhenStill | internal/activity/activity.go:208-241 | a paused session is left out exactly when its mark is at least ignoreAfter old |
| Pauses.PauseCountsFrom | internal/activity/activity.go:227-235 | a pause counts from when the session was first seen at its position, or from when the server says it began if that is earlier, and starts over once it moved or was not looked at for two days |
| Pauses.MovedIsBusy | internal/activity/activity.go:227-238 | so a session that was resumed, moved and paused again is reported |
| Pauses.OnlyPausedAreMarked | internal/activity/activity.go:214-226 | a playing session leaves no mark, and one the look does not list keeps its own |
| Pauses.OtherServersKept | internal/activity/activity.go:208-241 | a look at one server changes no other server's marks except by expiry |
| Pauses.MarkNeverMovesLater | internal/activity/activity.go:187-241 | the mark of a session standing still never moves later while the looks are at most two days apart |
| Pauses.LongPauseIsIgnored | internal/activity/activity.go:187-241 | so a pause is left out at every look at least ignoreAfter after it was first seen |
| SnapshotNames.Allocator.ReserveName | internal/api/container_snapshot.go:37-57 | the first free name at or after the instant, found in at most as many steps as there are names in use |
| SnapshotNames.Allocator.FreeName | internal/api/container_snapshot.go:52-56 | only the first call of a free function gives the name back |
| SnapshotNames.StepKeepsExact | internal/api/container_snapshot.go:28-64 | the names in use are exactly the outstanding ones and no two reservations share one |
| SnapshotNames.HistoryExact | internal/api/container_snapshot.go:28-64 | in every history |
| SnapshotNames.FreedStaysFreed | internal/api/container_snapshot.go:52-56 | a reservation that was given back stays given back |
| SnapshotNames.SecondFreeDoesNothing | internal/api/container_snapshot.go:52-56 | calling a free function again, however much later, releases no later holder of the same name |

## Left out

- SQL, restic, Docker, SSH, ZFS and libvirt calls: they are maps, parameters or
  failing calls with the effects named in the model.
- HTTP handlers, JSON, progress events, logging, notifications and the cached
  view of the anomaly engine: plumbing around the modelled cores.
- Floating point: rounding, NaN, infinities and the filter that drops them from
  a finding's figures; the nine-tenths test of the focus and the thresholds are
  exact.
- Overflow of 64-bit counters, and times beyond what they hold.
- AnomalyHistories.NeverCountedTwice: assumes that the newest run of a series has
  not moved back after a restart, that a pass judges runs no newer than the newest
  one it read, and that no pass writes more than eighty-three days after it read
  the clock.
- AnomalyEngine.Engine.PassOnce: pruning, reading a repository's own history and
  sending notifications on the way are left out; they touch no dirty set except
  by marking.
- SizeAlarms.NoCollapseWithoutLoss: assumes that the newest value is not negative,
  as sizes are; the series is newest first, as the store returns it.
- NewDataAlarms.SpikeIsRaised: where the month before a run holds fewer than ten
  runs it asks for a bound on every run before it, although the rule looks at the
  newest ten only.
- AnomalyOutcomes.AlarmStands: assumes of the passes that an event is flagged as one
  and never reported absent, which the rules are proved to keep
  (`AnomalyVerdicts.ItemSays`, `AnomalyVerdicts.CapacityIsSound`,
  `AnomalyVerdicts.IntegrityIsSound`).
- AnomalyRules.DateOnset: the small filters and folds the rules are made of
  (eligible runs, measurements, samples from an instant) are recursive functions
  here, loops in the program.
- AnomalyLifecycle.WriteAllAged: the open rows are met in any order, where the
  program goes through sorted keys.
- Baselines and the learning and typical figures of the Items tab: reporting.
- Details of a finding other than numbers, flags and texts, and their JSON form.
- DatabaseImport.Host.RecreateDataDir: the owner and mode of the new folder, the
  check for room before anything is stopped, and times and links of copied files
  are left out.
- DatabaseImport.Host.FreshDataDirFor: the question whether the kept folder is
  there after a failed move is answered by the disk, without an error of its own.
- Erasure.HeldOnEveryHostExactly: that being one place is an equivalence is an
  assumption, and so is truthful naming wherever a host is; how a place is named
  from a location is an input.
- Erasure.Repositories.Erase: a changed removal is compared as a whole, and the
  hash in the digest is a function of what it sums up.
- Erasure.PlanErasure: plans for a single target, a named repository and a section
  folder, the owner rules that name a backup's entry, and how a destination's
  folders are spelled; the last two are inputs.
- Reading Docker labels into the dependencies of an app, and which apps an import
  stops.
- SnapshotMatching.MatchSnapshotSummaries: the key of what was seen is a pair
  rather than the joined text.
- SnapshotNames.Allocator.ReserveName: a name is modelled as the second it
  stands for; the text is that second in a fixed layout.
- The view and sweep of container snapshots, the selection of outermost
  datasets and their grouping by pool: short list filters.
- The deferral and copy rules, certificates, keys, tokens, exports and coverage
  counts.
