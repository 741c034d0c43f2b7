# Pingway: verified core

A Dafny model of the parts of Pingway that turn a stream of probe results into evidence: outages, downtime totals,
rollups, freezes, call-quality figures and rate-limit decisions. `dafny verify dfyconfig.toml` checks everything.

| file | part of Pingway |
|---|---|
| `Common.dfy`, `Sorting.dfy` | shared types, Go's integer division, counting points of an interval, sorting and filtering |
| `OutageMachine.dfy` | the hysteresis state machine of one target |
| `OutageTable.dfy` | the `outage_events` table |
| `OutageDetector.dfy` | the detector: machines, `openIDs` and the table in step across restarts and failing writes |
| `OutageHistory.dfy` | the table as the exact record of each target's own transitions |
| `InternetSweep.dfy` | time during which all tier-3 targets were down, by sorting and sweeping outage boundaries |
| `TargetDowntime.dfy` | downtime of one target |
| `OutageReport.dfy` | composition: summary and status page over a table written by the detector |
| `LossBursts.dfy` | loss bursts, and their agreement with the machine |
| `Rollup.dfy` | statistics and grouping of one rollup bucket |
| `RollupTables.dfy` | what it means for a rollup table to be right, and what keeps it so |
| `Aggregator.dfy` | incremental 1m and 1h rollups with cursors and retention, over whole runs |
| `StoredRows.dfy` | what a stored rollup row shows, in terms of the samples alone |
| `SummaryViews.dfy` | agreement of the raw, 1m and 1h views |
| `CallQuality.dfy` | the mean opinion score |
| `ProbeLog.dfy` | what the call probe should report, as functions of the log of finalized packets |
| `CallProbe.dfy` | the call probe itself: in-flight maps, in-order finalization, ring of seconds, loss runs |
| `Reflector.dfy` | the echo reflector's token buckets, idle sweep and decisions |
| `EventHub.dfy` | the SSE hub |
| `PingSchedule.dfy` | the drift-free ping schedule and the reconciliation of ping loops |

Objects that the source updates in place are classes; each method's contract gives its whole effect, either outright or
as a function of the old state, and the lemmas are about those functions. Whole runs are stated twice: as lemmas about
every run of a state machine, and as methods that show the classes to be that machine, state by state. One method
models one region of code that holds a lock, so a sequence of method calls is an interleaving of the goroutines.
Operations on the database take an argument that says whether they work; queries without an order take the order as an
argument.

## Assumptions

- Floating-point numbers are reals, and `math.Log` is a parameter of which `ln(1) = 0` and monotonicity are assumed where needed.
- Machine integers do not overflow; in particular the probe's 32-bit sequence number does not wrap.
- Call probe: send times do not decrease and the clock is past the first second of the epoch. Echoes are arbitrary: late, doubled, reordered, unknown numbers, any echoed send time.
- Detector: the theorems about whole tables need samples of a target in increasing order of time, no deletion before a target's last sample, and working store operations. What holds without them is stated separately (`OutageDetector.Detector.Feed`, `OutageDetector.RunKeepsInStep`).
- Rollups: a sample may arrive at any time, also below a cursor. Then it is stored and never counted, so the tables equal a batch over the samples that were on time, and `Aggregator.OnTimeIsEverything` says exactly when those are all samples. Sample times are not negative. Raw samples are retained for at least an hour, which `internal/config/config.go:327-329` and `internal/settings/settings.go:130-132` enforce; what needs it says `RetainsAnHour`.
- Call probe: the speed-test flag is read once per packet that a sweep finalizes. The source reads it where it emits, so a flag that flips between two emissions for one packet is not covered.
- Status page: the detector's states and the open rows are read at one instant. The handler reads one after the other without a common lock.
- Reflector: the clock does not go back.

## Where the code and its comments differ

- `internal/outage/coordinator.go:47-48` says that stale open rows are closed at their own start. Line 53 closes them at the start of the row being scanned. The model follows the code. `OutageDetector.ResumeRepairs` states where each stale row ends, for every scan order: as announced if a newer row of its target was scanned before it, and otherwise at the start of the first newer row scanned. `OutageDetector.StaleRowEndsAtTheNewerStart` is a run after which a row that began at 0 ends at 20.
- `internal/store/aggregator.go:157-158` says raw samples are deleted only up to what has been rolled into 1h buckets. The deletion itself has no such condition; it is safe because it runs only after every rollup of the pass succeeded, which `Aggregator.PassRight` and `Aggregator.UpToDateIsPastCutoff` prove for listed targets.
- `internal/api/history.go:387-452` is meant to report the time during which all tier-3 targets are down, but counts running events, not running targets. `InternetSweep.SweepOverestimates` gives the exact condition under which the two agree; it holds where no two events of one target overlap, and for every table of a detector whose writes work. `OutageReport.FailedWriteMisleadsTheSweep` is a run of the detector in which one write fails and after which an outage is reported that did not happen.
- The rolling window of the call probe is documented as ten seconds (`internal/callprobe/prober.go:62-63`). A slot keeps an older second until a packet of a newer one falls on it; `ProbeLog.WindowExact` says that the window is the last ten seconds if and only if no slot is stale. `CallProbe.WindowHoldsAnOldSecond` is a run after which the window holds two packets although one was sent in the last ten seconds.
- Samples that arrive below a cursor are in the raw view but in neither rollup. `SummaryViews.ViewsAgree` says that the views agree if and only if there is no such sample in the range.

## Model

| member | source | states |
|---|---|---|
| `OutageMachine.Machine.constructor` | internal/outage/detector.go:57-59 | a new machine has seen nothing and is in the given state |
| `OutageMachine.Machine.Feed` | internal/outage/detector.go:67-111 | one sample changes the fields and reports a transition exactly as the transition function prescribes |
| `OutageMachine.NextFlips` | internal/outage/detector.go:67-111 | a transition is reported exactly when the machine enters or leaves Down, stamped with the start of the run that caused it; otherwise the pending run continues or is dropped |
| `OutageMachine.SpeedtestSamplesVanish` | internal/outage/detector.go:68-70 | speed-test samples can be removed from any history without changing state or transitions |
| `OutageMachine.CountersAreRuns` | internal/outage/detector.go:44-55 | the counters and time stamps are the length and start of the run of equal results that ends the history |
| `OutageMachine.DownMeans` | internal/outage/detector.go:67-111 | a machine is Down if and only if some run of failN failures is not yet followed by a run of okN successes |
| `OutageMachine.UnknownMeans` | internal/outage/detector.go:67-111 | a machine is Unknown if and only if it has seen nothing but fewer than failN failures |
| `OutageMachine.TransitionsAlternate` | internal/outage/detector.go:67-111 | over every history transitions alternate, beginning with Down, and the last one is Down exactly while the machine is Down |
| `OutageMachine.TransitionsIncrease` | internal/outage/detector.go:67-111 | for increasing sample times the stamps of all transitions increase strictly |
| `OutageTable.Store.OpenOutage` | internal/store/store.go:298-305 | inserts an open row and returns its id, or changes nothing if the insert fails |
| `OutageTable.Store.CloseOutage` | internal/store/store.go:307-315 | sets the end of one row, or nothing if the update fails |
| `OutageTable.Store.OpenOutages` | internal/store/store.go:320-328 | returns exactly the open rows, each once, in any order |
| `OutageTable.ListedCounts` | internal/store/store.go:330-345 | the range query loses no event that runs inside the range |
| `OutageDetector.Detector.ResumeRow` | internal/outage/coordinator.go:46-61 | one row of the startup scan: the newer row is kept, the older one is closed at the start of the scanned row |
| `OutageDetector.Detector.Resume` | internal/outage/coordinator.go:39-63 | after a restart every target with an open row has a fresh Down machine and openIDs names its newest open row; all older rows are settled, for every scan order and every failing write |
| `OutageDetector.ResumeRepairs` | internal/outage/coordinator.go:46-61 | with a working store exactly the newest open row of each target stays open; each other one ends at its own start if a newer row was scanned before it, and otherwise at the start of the first newer row scanned |
| `OutageDetector.ScanOrderDecides` | internal/outage/coordinator.go:46-61 | of two open rows that began at 0 and 20 a restart ends the older at 20 or at 0, depending on which the query returns first |
| `OutageDetector.StaleRowEndsAtTheNewerStart` | internal/outage/coordinator.go:46-61 | a run with one failing write and a restart after which a stale row ends at the start of the newer one, not at its own |
| `OutageDetector.ResumedAgrees` | internal/outage/coordinator.go:39-63 | after any resume openIDs names only open rows of Down machines, even if writes failed |
| `OutageDetector.Detector.Feed` | internal/outage/coordinator.go:67-107 | feeds one machine, writes its transition, and keeps openIDs naming only open rows of Down machines even if the write fails |
| `OutageDetector.Detector.Forget` | internal/outage/coordinator.go:122-132 | drops the machine and closes the open row of a deleted target |
| `OutageDetector.FeedInStep` | internal/outage/coordinator.go:67-107 | with a working store and increasing times, feeding keeps the table in step: rows ordered with gaps, open exactly while Down |
| `OutageDetector.RestartInStep` | internal/outage/coordinator.go:39-63 | a restart of a working store leaves the table untouched and in step with the resumed machines |
| `OutageDetector.ForgetInStep` | internal/outage/coordinator.go:122-132 | forgetting a target keeps the table in step |
| `OutageDetector.RunKeepsInStep` | internal/outage/coordinator.go:39-132 | after every run of restarts, samples and deletions, whatever fails, openIDs names only open rows of Down machines; after every reliable run the table is in step with the machines |
| `OutageDetector.Perform` | internal/outage/coordinator.go:39-132 | one step of the real detector is a step of the state machine that the run theorem is about |
| `OutageDetector.RunDetector` | internal/outage/coordinator.go:39-132 | a run of the real detector is a run of that state machine, state by state |
| `OutageDetector.InStepTable` | internal/outage/coordinator.go:67-132 | being in step means: outages of a target are disjoint and separated, never negative, at most one is open, and one is open if and only if the target is Down |
| `OutageHistory.RunOfSamples` | internal/outage/coordinator.go:67-107 | a run that only feeds samples, with a working store, ends in the book that the lemmas below speak about |
| `OutageHistory.TableIsTheRecord` | internal/outage/coordinator.go:67-107 | for any interleaving of targets, the rows of a target are exactly the paired transitions of its own machine fed its own samples |
| `OutageHistory.StoredOutagesAreLongBursts` | internal/outage/detector.go:67-111 | every stored outage begins where a loss burst of at least failN losses of the same samples begins |
| `InternetSweep.TargetBoundaries` | internal/api/history.go:406-419 | the clipped boundary pairs of one target add, at each millisecond of the window, one for each of its events running there |
| `InternetSweep.Boundaries` | internal/api/history.go:402-420 | over all targets the boundary pairs count, at each millisecond of the window, the events running there, and the query fails exactly if one target's does |
| `InternetSweep.Sweep` | internal/api/history.go:432-449 | the one-pass sweep closes a list of intervals of positive length, in order, in the window; count is their number and totalMs their total length, which are the instants at which enough events begin to run and the milliseconds at which they do; the depth returns to zero, so the trailing branch is dead |
| `InternetSweep.InternetOutageStats` | internal/api/history.go:387-452 | for disjoint events totalMs is the number of milliseconds at which every enabled tier-3 target is down; for separated ones count is the number of maximal such intervals; empty windows, no targets and failing queries report 100 percent |
| `InternetSweep.OutagesAreExact` | internal/api/history.go:432-449 | a millisecond of the window lies in a counted interval if and only if enough events run then, and an interval begins there if and only if they become enough |
| `InternetSweep.SweepOverestimates` | internal/api/history.go:432-449 | for any events the sweep reports at least the true time, and exactly it if and only if no millisecond has enough events while a target is up, in particular if no two events of one target overlap |
| `InternetSweep.FalseOutageIsOverlap` | internal/api/history.go:432-449 | at an instant at which no two events of one target overlap, enough events run if and only if every target is down |
| `InternetSweep.OverlapMisleadsTheSweep` | internal/api/history.go:432-449 | two open rows of one target make the sweep report an outage while another target is up |
| `InternetSweep.SweepCountsIntervals` | internal/api/history.go:434-445 | for disjoint events the count is the number of maximal all-down intervals if and only if no instant hands an outage over from one event to the next |
| `InternetSweep.CountedIntervalsArePositive` | internal/api/history.go:434-445 | each interval that the sweep closes lies in the window, lasts at least a millisecond, and ends before the next one begins or where it does |
| `InternetSweep.LastIntervalSince` | internal/api/history.go:432-449 | if every target has an open row, the last interval that the sweep closes goes from the latest of their starts, or the start of the window, to its end, and all targets are down in it |
| `TargetDowntime.ClampedIsMeasure` | internal/api/history.go:373-383 | a clamped outage length is the number of milliseconds of the range in which the outage runs |
| `TargetDowntime.DowntimeIsOverestimated` | internal/api/history.go:337-345 | the downtime of a target is at least the true one, and exactly it if and only if no two of its outages overlap in the range |
| `TargetDowntime.TargetOutages` | internal/api/history.go:337-345 | the loop counts the outages of the target that reach into the range, and adds up their clamped lengths, which for disjoint ones is the time the target was down |
| `TargetDowntime.InternetWithinTarget` | internal/api/history.go:337-351 | internet downtime never exceeds the downtime of any tier-3 target |
| `OutageReport.SummaryOfRun` | internal/api/history.go:349-351 | over a table written by any reliable run of the detector, the summary reports exactly the time all tier-3 targets were down, in maximal intervals |
| `OutageReport.FailedWriteMisleadsTheSweep` | internal/outage/coordinator.go:67-107 | a run of the detector with one failing write after which the summary counts ten milliseconds of internet outage although one of the two targets was never down |
| `OutageReport.OpenByTarget` | internal/api/server.go:219-222 | for each target with an open row, the start of the last one the query returned |
| `OutageReport.InternetStatus` | internal/api/server.go:232-264 | the internet is down if and only if there are tier-3 targets and all are Down, since the latest of their open starts |
| `OutageReport.StatusAgreesWithSummary` | internal/api/server.go:232-264 | over a table in step, read at one instant, the last interval of the summary goes from the outage date of the status page to the end of the window, and all targets are down in it |
| `LossBursts.LossBursts` | internal/api/bursts.go:50-96 | the scan returns the bursts, totals and median gap of the samples not taken during speed tests |
| `LossBursts.ClosedBurstsAreSpans` | internal/api/bursts.go:50-77 | closed bursts are exactly the maximal runs of failures ended by a success, each once, in order, disjoint |
| `LossBursts.OpenBurstIsSpan` | internal/api/bursts.go:78-80 | the last burst, if still open, is the maximal run of failures at the end |
| `LossBursts.BurstsHoldAllLosses` | internal/api/bursts.go:50-80 | the losses of all bursts add up to the failures |
| `LossBursts.GapsBetweenBursts` | internal/api/bursts.go:57-77 | the gap of a burst is the time from the end of the burst before it to its start; the first has none, nor has one after a burst that ended at time zero |
| `LossBursts.StoredOutagesBeginWithBursts` | internal/api/bursts.go:50-80 | every Down transition for the same samples is stamped with the start of a burst of at least failN losses |
| `LossBursts.LongBurstIsDown` | internal/outage/detector.go:94-109 | conversely a burst that reaches failN losses always leaves the machine Down |
| `LossBursts.InsertionSort` | internal/api/bursts.go:90-94 | the in-place insertion sort leaves the array as the sorting function prescribes |
| `Sorting.SortIsOrdered` | internal/api/bursts.go:90-94 | what that function returns is in order |
| `Sorting.SortPermutes` | internal/api/bursts.go:90-94 | and holds the same values, each as often |
| `LossBursts.MedianSplits` | internal/api/bursts.go:88-96 | the median is one of the gaps, at most half of them are smaller and at most the rest are larger |
| `LossBursts.MedianOfBursts` | internal/api/bursts.go:82-96 | the reported median is the gap of some burst, with at most half of the bursts that have gaps below it and at most the rest above, and zero if none has |
| `Rollup.ComputeBucket` | internal/store/rollup.go:20-63 | the loop computes the statistics of the bucket |
| `Rollup.SentIsLostPlusRtts` | internal/store/rollup.go:20-63 | every sample is lost or has a round-trip time |
| `Rollup.Extremes` | internal/store/rollup.go:20-63 | minimum and maximum are attained and bound all round-trip times |
| `Rollup.Percentile95` | internal/store/rollup.go:53-58 | p95 is the least round-trip time that at least 95 percent of the successes do not exceed |
| `Rollup.FiguresAreOrdered` | internal/store/rollup.go:20-63 | average and p95 lie between the extremes, and jitter does not exceed their distance |
| `Rollup.BucketSamples` | internal/store/rollup.go:67-77 | groups samples by bucket start, with the keys in order of first appearance |
| `Rollup.BucketsConcatenate` | internal/store/rollup.go:67-77 | for ordered samples keys increase strictly and the buckets one after the other are the samples |
| `RollupTables.RollRight` | internal/store/aggregator.go:95-155 | rolling up a range past the cursor extends the batch equality to the new cursor |
| `RollupTables.PruneRight` | internal/store/aggregator.go:159-168 | pruning samples below the cursor keeps the rows equal to the batch over everything on time |
| `Aggregator.Store.CreateTarget` | internal/store/store.go:207-221 | a new target has an id that was never used, so nothing is stored for it |
| `Aggregator.Store.DeleteTarget` | internal/store/store.go:238-244 | deleting a target changes the list of targets and keeps its samples and rows |
| `Aggregator.Store.Insert` | internal/store/writer.go:80-106 | storing a sample appends it, and nothing else changes; it is remembered as on time exactly for the resolutions whose cursor has not passed it |
| `Aggregator.Store.RollupTarget` | internal/store/aggregator.go:74-155 | one target at one resolution: from its cursor or its oldest sample to the current bucket, one row per bucket that has samples, and the cursor moves there; nothing changes if the operation fails |
| `Aggregator.RolledRight` | internal/store/aggregator.go:74-155 | that keeps every series equal to its batch, leaves nothing below the current bucket to be rolled up, and never moves a cursor back or past the current bucket |
| `Aggregator.Store.Prune` | internal/store/aggregator.go:159-176 | keeps exactly the raw samples no older than rawHours hours, in order, and, if that worked, exactly the 1m rows whose buckets start at most rollup1mDays days ago |
| `Aggregator.Store.RunOnce` | internal/store/aggregator.go:55-70 | a pass is a step of the state machine that the run theorems are about, and reports success exactly if every operation worked |
| `Aggregator.PassRight` | internal/store/aggregator.go:55-70 | a pass, whichever operation fails, keeps every series equal to its batch and deletes no sample of a listed target that either cursor has not passed; if its rollups work, every series is up to date afterwards |
| `Aggregator.UpToDateIsPastCutoff` | internal/store/aggregator.go:159-162 | being up to date means having rolled up everything below any cutoff that is at least an hour back, at both resolutions |
| `Aggregator.PassDeletes` | internal/store/aggregator.go:55-70 | a pass that gets to its end keeps a raw sample exactly if it is not older than rawHours hours, and a 1m row of its rollups exactly if its bucket does not start more than rollup1mDays days ago |
| `Aggregator.RunKeepsTablesRight` | internal/store/aggregator.go:37-70 | after every run of writes, target changes and passes that fail anywhere, both tables of every listed target are what one batch over its on-time samples would give, except for 1m rows below the horizon |
| `Aggregator.CutoffsAreTheLargest` | internal/store/aggregator.go:159-170 | the horizon and the raw cutoff are the largest cutoffs that were really applied, so nothing younger is excused |
| `Aggregator.RunRetains` | internal/store/aggregator.go:159-168 | over every run, whatever the retention, at and above the raw cutoff the raw samples are those ever stored, in order |
| `Aggregator.OnTimeIsEverything` | internal/store/aggregator.go:37-70 | the on-time samples are all samples ever stored if and only if each arrived at or above its cursor |
| `Aggregator.PromptIsNeverLate` | internal/store/aggregator.go:37-70 | so it is if no sample is older than the minute of an earlier pass |
| `Aggregator.Perform` | internal/store/aggregator.go:37-70 | one operation of the real store is a step of the state machine |
| `Aggregator.RunAggregator` | internal/store/aggregator.go:37-70 | a run of the real store and aggregator is a run of that state machine, state by state, so its tables are right, its cutoffs are the largest applied, and its on-time samples are all samples exactly if none was late |
| `StoredRows.RowsShowTheirSamples` | internal/store/aggregator.go:110-148 | every row of a listed target shows its on-time samples outside speed tests, ordered by time: their number and losses, figures exactly if one succeeded, minimum and maximum as attained bounds, the least value that covers 95 percent, the truncated mean, and the truncated mean of the differences; and every bucket with such a sample has its row unless it was deleted |
| `SummaryViews.InclusiveRange` | internal/api/history.go:313-318 | for any from and to: the rows that start in [from, to] add up to the on-time samples from the first bucket start at or after from to the end of the bucket that contains to, or to the cursor if that is earlier |
| `SummaryViews.RollupIsRaw` | internal/api/history.go:289-319 | over whole buckets below the cursor the sums of a rollup table are the sums over all on-time samples, pruned or not |
| `SummaryViews.RawViewIsStored` | internal/api/history.go:290-296 | after every run, at and above the raw cutoff the raw view shows everything ever stored |
| `SummaryViews.RollupAndLateAreStored` | internal/api/history.go:289-319 | after every run a rollup view and the late samples together are everything ever stored in the range |
| `SummaryViews.ViewsAgree` | internal/api/history.go:289-319 | after every run, over retained whole hours that are rolled up, a rollup view shows as many samples as the raw view if and only if no counted sample of the range was late, and then the same losses too |
| `SummaryViews.PromptViewsAgree` | internal/api/history.go:289-319 | if no sample is older than the minute of an earlier pass, the raw, 1m and 1h views show the same sent and lost |
| `SummaryViews.HourExtremes` | internal/store/rollup.go:20-63 | the extremes of an hour are the extremes of its minutes that had successes |
| `CallQuality.MosRange` | internal/callprobe/prober.go:70-88 | every score lies between 1 and 4.5 |
| `CallQuality.MosNeverRises` | internal/callprobe/prober.go:70-88 | more loss, a longer round trip or more jitter never raises the score |
| `CallQuality.CubicDips` | internal/callprobe/prober.go:86-87 | the cubic alone falls below 1 near R = 0 |
| `CallQuality.ScoreIsMonotone` | internal/callprobe/prober.go:86-87 | the lower clamp makes the score monotone in the rating |
| `CallQuality.ScoreOfRating` | internal/callprobe/prober.go:86-87 | the score is the cubic with these coefficients, or 1 where that is less |
| `CallQuality.CubicExpanded` | internal/callprobe/prober.go:86 | the cubic is 1, 3.1 and 4.5 at ratings 0, 60 and 100 |
| `CallQuality.DelayCosts` | internal/callprobe/prober.go:71-85 | without loss and jitter the rating is 93.95 on an instant link, loses a point for every 80 ms of round trip up to 300 ms and for every 20 ms beyond, down to zero |
| `CallQuality.JitterCostsFourfold` | internal/callprobe/prober.go:71 | a millisecond of jitter costs what four milliseconds of round trip cost |
| `CallQuality.LossCosts` | internal/callprobe/prober.go:78-85 | loss lowers the rating by 30 ln(1 + 0.15 percent) at every delay, down to zero |
| `CallProbe.Prober.constructor` | internal/callprobe/prober.go:119-130 | a new prober has nothing in flight, and a rate below one becomes 50 |
| `CallProbe.Prober.Send` | internal/callprobe/prober.go:263-268 | a sent packet gets the next number and joins the packets in flight |
| `CallProbe.Prober.Echo` | internal/callprobe/prober.go:298-302 | an echo is recorded exactly if its packet is still in flight |
| `CallProbe.Prober.Finalize` | internal/callprobe/prober.go:308-330 | the sweep logs, in order, every packet up to the first one that is unanswered and not timed out: with its send time and flag, as received with its round-trip time exactly if an echo is known, and otherwise as lost after more than two seconds; nothing older than two seconds stays in flight, and the state stays a function of the log |
| `CallProbe.SweepIsDetermined` | internal/callprobe/prober.go:308-330 | how far a sweep gets is determined by the maps and the time |
| `CallProbe.NothingOldInFlight` | internal/callprobe/prober.go:308-330 | once the head is waiting, every packet in flight is at most the timeout old |
| `CallProbe.Prober.AccountReceived` | internal/callprobe/prober.go:332-342 | accounting a received packet brings jitter, ring and emitted seconds to those of the longer log |
| `CallProbe.Prober.AccountLost` | internal/callprobe/prober.go:344-352 | accounting a lost packet brings ring, emitted seconds and loss run to those of the longer log |
| `CallProbe.Prober.CloseRun` | internal/callprobe/prober.go:355-366 | a received packet ends the loss run and reports it, with reflector and speed-test flag, if it is long enough |
| `CallProbe.Prober.FlushRun` | internal/callprobe/prober.go:237-251 | a flush reports the loss run in progress, with reflector and speed-test flag and an estimated length, and starts a new one |
| `CallProbe.Prober.BucketFor` | internal/callprobe/prober.go:373-388 | the slot of the packet's second, emptied if it held an older one; a completed second is emitted exactly once |
| `CallProbe.Prober.EmitSecond` | internal/callprobe/prober.go:390-409 | a completed second is reported with its own counters, the score of the whole ring, the reflector and the speed-test flag |
| `CallProbe.Prober.WindowStatsLocked` | internal/callprobe/prober.go:412-427 | the loop adds up all ten slots of the ring, and the figures are those of the sums |
| `CallProbe.Perform` | internal/callprobe/prober.go:237-330 | one step of the real prober changes log and in-flight packets exactly as prescribed, and keeps everything else a function of the log |
| `CallProbe.ReceivedMeansEchoed` | internal/callprobe/prober.go:298-330 | over every run a finalized packet is received if and only if an echo of it arrived while it was in flight, with the round-trip time of the last such echo |
| `CallProbe.LostMeansTimedOut` | internal/callprobe/prober.go:318-325 | over every run no packet is lost before a sweep found it more than two seconds old |
| `CallProbe.RunProber` | internal/callprobe/prober.go:237-427 | after any interleaving of sends, echoes, sweeps and flushes: the stream is the prescribed one, what was reported is the function of its log, reflector, logarithm and rate that the lemmas are about, the log is gap-free and truthful, packets are conserved, seconds ascend, freezes are the closed loss runs, jitter is bounded |
| `CallProbe.WindowHoldsAnOldSecond` | internal/callprobe/prober.go:373-388 | a run of two packets eleven seconds apart after which the ring holds both |
| `ProbeLog.FreezesAreTheLossRuns` | internal/callprobe/prober.go:344-366 | freeze events are exactly the closed maximal runs of at least three losses, in order and disjoint, with their start, length and duration |
| `ProbeLog.FreezeIsConsecutive` | internal/callprobe/prober.go:304-330 | the packets of a freeze have consecutive numbers, and the packet that closes it the next one |
| `ProbeLog.PacketsAreConserved` | internal/callprobe/prober.go:332-409 | emitted seconds and the active one together hold every finalized packet and every loss |
| `ProbeLog.EmittedAscends` | internal/callprobe/prober.go:373-409 | each second is emitted at most once, in strictly increasing order |
| `ProbeLog.EmittedIsComplete` | internal/callprobe/prober.go:373-409 | every earlier second with a packet has been emitted with its final counters |
| `ProbeLog.EmittedAreReports` | internal/callprobe/prober.go:373-427 | there is one report for every packet that opens a new second, and no other: the counts of the second before it, the truncated mean of its round-trip times, the jitter, and the score of loss, round trip and jitter over the ring |
| `ProbeLog.TallyMeans` | internal/callprobe/prober.go:332-352 | the counters of a second are the number of its packets, of those lost and of those received, and the sum of their round-trip times in whole microseconds |
| `ProbeLog.WindowIsLastTenAndStale` | internal/callprobe/prober.go:412-427 | the ring adds up to the last ten seconds plus the seconds left in stale slots |
| `ProbeLog.WindowExact` | internal/callprobe/prober.go:412-427 | the window is exactly the last ten seconds if and only if no slot is stale |
| `ProbeLog.SteadyIsNotStale` | internal/callprobe/prober.go:373-388 | if finalized seconds advance by at most one at a time no slot is ever stale |
| `ProbeLog.JitterIsBounded` | internal/callprobe/prober.go:332-337 | the jitter estimate of section 6.4.1 of RFC 3550 stays between zero and the largest change of round-trip time |
| `ProbeLog.JitterIsWeighted` | internal/callprobe/prober.go:332-337 | the estimate is the sum of all changes of round-trip time, the latest with weight 1/16 and each earlier one with 15/16 of the weight of the next |
| `Reflector.Server.constructor` | internal/callprobe/reflector_server.go:61-81 | all buckets start full; a burst is twice the rate per source and one second's worth for all; rates below one become 120 and 20000 |
| `Reflector.TokenBucket.Allow` | internal/callprobe/reflector_server.go:49-57 | refills up to the cap for the time that passed, and takes a token exactly if there is one |
| `Reflector.LevelAlone` | internal/callprobe/reflector_server.go:49-51 | a bucket left alone for d seconds holds the smaller of its cap and its tokens plus d times its rate |
| `Reflector.Server.AllowSource` | internal/callprobe/reflector_server.go:95-105 | a source without a bucket finds a full one |
| `Reflector.Server.Sweep` | internal/callprobe/reflector_server.go:109-118 | drops exactly the buckets that have been idle for more than a minute |
| `Reflector.Server.Stats` | internal/callprobe/reflector_server.go:183-189 | once a minute: sweeps, hands out the counters and resets them |
| `Reflector.Server.Permit` | internal/callprobe/reflector_server.go:139-140 | a reply is sent if and only if both buckets have a token; the global one is charged first and keeps its charge if the source is refused |
| `Reflector.Server.Handle` | internal/callprobe/reflector_server.go:137-160 | a packet is answered exactly if it is a greeting or carries its source's token, and both buckets have a token; with the source's token or an echo, to the source; the counters count every packet once |
| `Reflector.SweepKeepsLevels` | internal/callprobe/reflector_server.go:109-118 | dropping an idle bucket changes the tokens of no source |
| `Reflector.SweepsAreInvisible` | internal/callprobe/reflector_server.go:95-118 | over every run the server sends exactly what it would send if it never swept, and every source finds the same tokens |
| `Reflector.IntervalBound` | internal/callprobe/reflector_server.go:49-57 | in every time interval the replies are at most the burst plus the rate times its length |
| `Reflector.PaysForReply` | internal/callprobe/reflector_server.go:49-57 | a reply is paid for by one token of each bucket it counts against |
| `Reflector.RunKeepsLedger` | internal/callprobe/reflector_server.go:95-168 | at every point of every run the tokens left and the replies sent since any earlier time stay within the burst plus the rate times that time |
| `Reflector.RepliesAreLimited` | internal/callprobe/reflector_server.go:95-168 | over every run with sweeps, in any interval of length d each source gets at most its burst plus its rate times d replies, and all sources together at most theirs |
| `Reflector.AnsweredIfAndOnlyIf` | internal/callprobe/reflector_server.go:95-160 | over every run a greeting or valid probe is answered if and only if the global bucket has a token and one more reply keeps the source within its limit in every interval that ends with it; any other packet changes nothing |
| `Reflector.QuietIsNeverRefused` | internal/callprobe/reflector_server.go:49-57 | while all requests together stay within the global limit, the global bucket refuses none |
| `Reflector.RepliesAreHonest` | internal/callprobe/reflector_server.go:137-157 | tokens are sent only to the address they are for, and only probes with the token of their source are echoed, to that source |
| `Reflector.RunServer` | internal/callprobe/reflector_server.go:61-189 | the real server does what its arrivals prescribe, with 2R + R·d and M + M·d as its limits |
| `EventHub.Hub.Subscribe` | internal/sse/hub.go:89-92 | a new client joins at the current end of the broadcasts, with an empty channel |
| `EventHub.Hub.OfferAll` | internal/sse/hub.go:50-62 | in whatever order, every client with room gets the frame and exactly those with a full buffer are evicted; no closed channel is sent to or closed again |
| `EventHub.Hub.Broadcast` | internal/sse/hub.go:42-63 | a broadcast offers the frame to every subscribed client, and an event that cannot be encoded changes nothing |
| `EventHub.Hub.Deliver` | internal/sse/hub.go:103-116 | one turn of a serve loop: the oldest queued frame leaves the queue and is written; the loop ends on a failed write or on a closed and empty channel, and nothing else changes |
| `EventHub.Hub.Leave` | internal/sse/hub.go:94-101 | the end of a serve loop unsubscribes the client and closes its channel unless it was evicted |
| `EventHub.OfferKeepsGapFree` | internal/sse/hub.go:50-62 | a broadcast keeps a client's history gap-free, whether it has room, is evicted or has left |
| `EventHub.TurnKeepsGapFree` | internal/sse/hub.go:103-116 | so does a turn of its serve loop |
| `EventHub.TurnMeans` | internal/sse/hub.go:103-116 | what a turn does to a client and that it affects no other |
| `EventHub.QueuedFramesAreWritten` | internal/sse/hub.go:103-116 | whatever else happens, after as many turns as frames were queued for a client whose connection works all of them are written in order, and after fewer turns as many as there were turns |
| `EventHub.EverythingIsBroadcast` | internal/sse/hub.go:42-63 | the broadcasts of a run are the frames of all events that could be encoded, in order, and its clients are those who joined |
| `EventHub.HistoryStartsAtJoin` | internal/sse/hub.go:89-92 | a client's history starts with the first broadcast after it joined |
| `EventHub.RunIsGapFree` | internal/sse/hub.go:42-116 | after every run, what was written to a client and what is queued for it are consecutive broadcasts since it joined, and all of them while it is subscribed |
| `EventHub.EvictedOnlyWhenFull` | internal/sse/hub.go:54-61 | a client that lost its subscription while being served lost it at a broadcast that found its buffer full, and has been written, or still has queued, exactly the broadcasts from its joining up to that one |
| `EventHub.RunHub` | internal/sse/hub.go:42-116 | the real hub does what its steps prescribe, so all of its clients have gap-free histories |
| `PingSchedule.Advance` | internal/pinger/pinger.go:154-161 | the next deadline is the earliest that is a whole number of intervals after the last one and later than both it and the clock |
| `PingSchedule.SkippedAreMissed` | internal/pinger/pinger.go:154-161 | the skipped slots are exactly those whose time has already passed |
| `PingSchedule.PingLoop` | internal/pinger/pinger.go:124-163 | over any sequence of clock readings the first deadline is the origin and each later one the earliest such after the one before |
| `PingSchedule.DeadlinesIncrease` | internal/pinger/pinger.go:124-163 | deadlines strictly increase, so no slot is pinged twice |
| `PingSchedule.NoDrift` | internal/pinger/pinger.go:111-163 | ping n falls on slot n if and only if every earlier ping ended before the next slot |
| `PingSchedule.Manager.Reconcile` | internal/pinger/pinger.go:64-102 | afterwards exactly the ids of enabled targets have one live loop each, with the spec of the last enabled target of that id; unchanged loops are kept and all others are new |

## Left out

- HTTP routing, JSON, CSV, gzip and static files: plumbing around the modelled functions.
- SQLite itself: tables are sequences and maps with the semantics of the statements used; the stored `duration_ms` column and the transaction inside a rollup are not modelled (the transaction is one step).
- Interleaving of the sample writer with the inside of an aggregation pass: a pass is one step, so a sample written while a pass runs is written before or after it.
- Samples of targets that were deleted: pruning removes them whether or not they were rolled up, as the source does; the theorems are about listed targets.
- Retention of the call-probe tables, which `internal/store/aggregator.go:173-175` delegates: two deletions without further logic.
- The choice of a table by the length of the range, and the decimated series of the ping charts: case distinctions and SQL around the modelled sums.
- Raw average, raw p95 and averaged rollup figures of the summary: only sent, lost and the extremes are compared between the views.
- Absent callbacks of a prober: seconds and freezes are always handed out.
- The live snapshot of a prober and the no-echo watchdog's timing: the flush it triggers is a step that may happen at any time.
- UDP, handshakes, DNS and ICMP: arrivals are arbitrary steps. Packet formats are classified as greeting, probe or other.
- The reflector's HMAC: a function from address to token.
- A supervisor restarting failed loops, and the cancellation of contexts: stopping a ping loop removes it at once.
- `OutageReport.StatusAgreesWithSummary`: takes states and open rows from one instant, because the detector changes both under its lock; `handleStatus` reads them one after the other, and a transition in between is not covered.
- `PingSchedule.Manager.Reconcile`: a loop's spec is compared field by field; the source compares a joined string, so specs that join to the same string are not told apart there.
- Floating-point rounding, 32-bit sequence wrap and wall clocks that go back.
