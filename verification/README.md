# Verified models of SPX Spark's operational scripts and research algorithms

The scripts and notebooks of SPX Spark contain three kinds of logic that are easy to get wrong. This
project models them in Dafny and proves what they are relied on for.

**Protocols that must survive failure.** Each is a class whose methods may stop between any two steps.

- `NasStores`, `NasSteps`, `NasArchive`: the archiver that moves frame archives, feature partitions and cold
  backups to a NAS, and restores them. Producers may write between any two of its steps, time may pass, and
  the process may be killed or the power fail. One invariant (`NasStores.Sound`) is kept by every step.
- `DeployRelease`: the cutover to a new release with its compensation. Any command may raise having done any
  part of its work. A monitor watches every state in which a long-running unit runs.
- `WarmStart`, `OverlapAudit`: the compare-and-swap of the bar sampler's state file, with a durable backup and a
  restore that can itself fail, and the audit before it.

**Causal replay.** `QuoteReplay` and `FiveMinuteBars` model the replay of a quote stream into samples and
five-minute bars; `SweepDetector`, `SweepClusters`, `SweepStudy` and `SweepForward` the liquidity-sweep event study;
`SeriesLookup` the as-of lookup of features. The central results say that what is computed for a moment does
not depend on anything learnt after it. `StableSort` is the sort they share, with `SortedSets`, `Counting`,
`Reals` and `Options` beside it.

**Fast forms against definitions.** `Crps`, `Conformal`, `PoolWeights`, `Cooldown` and `MidRanks` prove loops and closed forms
equal to plain definitions, and the laws those definitions obey.

Arithmetic is exact (`real`), times are integers, and the source's loops are loops with invariants, proved
against functions that lemmas then reason about.

`dafny verify dfyconfig.toml` checks the whole project.

## What the code does not promise

These came out of the proofs. The model keeps the code's behaviour and states exactly when the promise holds.

- *Receipt completeness.* If the removal loop of a feature partition is interrupted, the next run replaces the
  receipt by one that lists only what was left (`scripts/archive-nas.py:219-242`). No byte is lost. The
  receipt of a successful run is complete if and only if the whole partition was present when it began.
- *Future stamps.* The latest-quote table keeps a quote by its source time, so a quote stamped after its
  receipt, which the loader admits, can hide an eligible older one (`scripts/build_market_state_5m_replay.py:290-331`).
  `QuoteReplay.FreshestIsRightIff` says exactly when the choice is right, `FutureStampHidesQuote` shows a failure.
- *Masked sweeps.* A penetration inside the reclaim window of an earlier one is never taken up, so a sweep
  whose close back only its own window reaches is missed. `SweepDetector.DetectIsExact` says which are found, and
  `SweepDetector.MaskedSweepIsMissed` shows one that is not.
- *Deduplication is not causal.* A later sweep can move the time and extreme of the kept event.
  `SweepClusters.DeduplicationIsCausalIff` says exactly when what was kept stays kept, and `SweepStudy` what that
  means for a day's signals.
- *Rollback.* A `current` link that resolved to the legacy checkout is removed, not restored. With a
  migration, the revision after rollback is the old one, so it is as before if and only if it was the old one. A
  failed deployment leaves the weekly timer disabled exactly if it had disabled it, and `previous.json` empty
  exactly if it had opened it; neither can happen before every other forward step succeeded.
  When restoring the backup itself fails, rows and indexes are not promised; code and schema still never mix.

## Assumptions

- Digests are injective and unpacking undoes packing: contents are free terms. A file identity is a stamp that
  every write renews, with size and modification time.
- Producers write whole files durably and never recreate a payload that has been archived
  (`scripts/archive-nas.py:215-216`). A file untouched for two days has been written back by the kernel.
- Only this tool writes its part of the NAS, which does not fail. Nobody writes a frame folder between the last
  inspection and the unlink, or a feature file or cold file between the last look at its identity and its unlink. Directories for receipts exist durably.
- The database's backup, restore, upgrade and downgrade are steps that succeed or raise; a reviewed migration
  changes indexes and revision only. Writers commit rows only while a unit runs.
- Code and schema are promised to fit at every step of a deployment that needs a migration and starts settled (units
  running what links and drop-ins say), at the old revision, with nothing on the target yet, and with every
  Python unit among those whose drop-ins are rewritten.
- Whether systemd has a unit for the weekly timer does not change during a deployment.
- While the sampler is stopped and the state lock held, nobody else writes the state file.

## Model

| member | source | states |
|---|---|---|
| NasArchive.Host.AnyRun | scripts/archive-nas.py:363-399 | any sequence of archive runs, restores, producer writes and power losses, each run stopping anywhere, keeps the invariant; every payload known at the start is still known, with its bytes unless a producer rewrote it since; what only the NAS held is still there with those bytes unless a restore put it back; and without restores nothing is put back |
| NasSteps.HistoryOfAll | scripts/archive-nas.py:211-216 | the clauses of that history, payload by payload |
| NasStores.SoundIsConserved | scripts/archive-nas.py:136-170 | under the invariant every payload is at its local path or on the NAS, as it is or as a gzip that unpacks to it |
| NasStores.PowerLossKeepsSound | scripts/archive-nas.py:196-208 | a power loss, with any image of unsynchronised files, keeps the invariant |
| NasStores.DurableReceiptAfterPowerLoss | scripts/archive-nas.py:144-168 | after a power loss at any moment, a missing frame archive or cold file has a whole receipt on disk whose digest is that of its NAS copy, and the copy is the payload |
| NasStores.UnlinkKeepsSound | scripts/archive-nas.py:163-169 | a payload may be unlinked, and the invariant stays, when its receipt and NAS copy vouch for it |
| NasStores.ReplaceKeepsSound | scripts/archive-nas.py:196-208 | publishing a receipt keeps the invariant when the payloads it covers are present, or it is silent about the missing ones |
| NasStores.LinkKeepsSound | scripts/archive-nas.py:283-299 | linking a restored file into place keeps the invariant when it has the payload's bytes and the name is free |
| NasStores.FsyncDirKeepsSound | scripts/archive-nas.py:163-169 | synchronising a directory, which makes removals durable, keeps the invariant |
| NasStores.PutKeepsSound | scripts/archive-nas.py:93-129 | a transfer may leave any bytes under the NAS names it was given, finished or not, without endangering a payload |
| NasStores.ProduceKeepsSound | scripts/archive-nas.py:211-251 | a producer writing a new file or rewriting one that is still local keeps the invariant |
| NasArchive.Host.CopyAndVerify | scripts/archive-nas.py:93-129 | a success means that every expected name on the NAS has the expected size and the digest computed from the source; where a source file is the same version before and after the call, that is the digest of its bytes; nothing local is touched |
| NasArchive.Host.SaveReceipt | scripts/archive-nas.py:196-208 | the receipt appears whole or not at all; on success it is on disk under its final name; no other settled file changes |
| NasArchive.Host.CopyFile | scripts/archive-nas.py:93-129 | a success means that the file in sight is still the one that was there, and that its NAS copy and digest are its own |
| NasArchive.Host.Migrate | scripts/archive-nas.py:136-170 | from every stopping point no other durable payload is lost; success means that the day's frame archive was present, is gone locally and on disk, is vouched for by a manifest with its size, which is reported, and no raw segment of the day exists |
| NasArchive.Host.RecordAndRetire | scripts/archive-nas.py:152-170 | from a verified copy in a folder nobody writes: the receipt is on disk before the archive goes, and nothing else goes |
| NasArchive.Host.Retire | scripts/archive-nas.py:163-169 | unlinking and synchronising removes exactly this payload, durably |
| NasArchive.Host.MigrateColdFile | scripts/archive-nas.py:314-360 | no other payload is lost; a success past the grace period has removed the file, durably, and reports the size of what the call found; in grace it keeps it and reports nothing; neither a removal nor a success is possible without the file's evidence; a removed file was transferred and verified with the very bytes the call found; a recorded one in grace is left alone with everything else |
| NasArchive.Host.GraceRuns | scripts/archive-nas.py:333-353 | over any number of runs, with producer writes, time and power losses between and within them, a cold file that is in its grace period and still the one it was has been uploaded at most once, plus once per run that failed; one whose directory is left alone is still there, unchanged |
| NasSteps.OnlyInSightStep | scripts/archive-nas.py:336-352 | a file that bears an old stamp is the old file, whatever happened since |
| NasArchive.Host.MigrateFeatures | scripts/archive-nas.py:211-251 | success only on a partition over thirty days old whose files are all quiet for two days; no file outside the partition is lost, a removed file is listed in the receipt on disk, and after an uninterrupted success the receipt names exactly what was archived and none is left; the receipt is complete if and only if the whole partition was present at the start |
| NasSteps.CompleteIffPresent | scripts/archive-nas.py:219-238 | the receipt names every file ever produced if and only if they were all present when the run started |
| NasSteps.ReceiptCompletenessCanBeLost | scripts/archive-nas.py:217-242 | a concrete partition, old and quiet enough to be archived, whose removal stops behind the first file; the next run may archive it again and publishes a receipt of all the files it finds; nothing is lost at any point, and the receipt, complete before, is incomplete |
| NasSteps.InterruptedRemoval | scripts/archive-nas.py:239-242 | a removal that stops after some file keeps the invariant and that file's NAS copy |
| NasArchive.Host.RestoreFile | scripts/archive-nas.py:266-299 | an output is absent or has its payload's bytes; an existing local file is never changed |
| NasArchive.Host.RestorePartition | scripts/archive-nas.py:254-300 | success restores every file the receipt lists, and from every stopping point no existing file has changed and nothing but listed files has appeared |
| NasArchive.Host.ArchiveThenRestore | scripts/archive-nas.py:211-300 | archiving a quiet partition and restoring it, however often the restore breaks off and the power fails in between, rebuilds exactly the original map of names to bytes |
| NasSteps.RoundTripContents | scripts/archive-nas.py:266-299 | the restored partition's contents equal those before archiving |
| DeployRelease.Machine.Install | scripts/deploy-release.py:226-344 | a cutover runs the target everywhere, with the target schema if there was a migration; its record undoes it: the code before, the drop-ins before, and the pre-migration backup with every row if and only if the database was migrated; success retires the weekly timer and starts every other one again; exact rollback of links, drop-ins, units and database; after a failure the record of the deployment before is gone exactly if this one had opened it, and the weekly timer disabled exactly if this one had disabled it; every outcome but a failed rollback leaves a settled machine settled and loses no row; and, from a settled start at the old revision with every Python unit redirected and a migration needed, no long-running unit ever runs against the wrong schema, whatever fails, the rollback included |
| DeployRelease.Machine.Deploy | scripts/deploy-release.py:260-333 | the guarded part alone: forward with any command raising, else compensation, and in either case the timers; what the record says after a success, the backup included, and what the record and the enabled timers are after a failure |
| DeployRelease.Machine.Deployments | scripts/deploy-release.py:199-344 | any sequence of deployments with rows committed in between, up to the first that cannot be rolled back: each starts settled, no row is lost as long as every needed backup could be restored, and every migration from the old revision keeps code and schema together |
| DeployRelease.Machine.WriteRecord | scripts/deploy-release.py:302-306 | the record is written, or untouched, or, once opened, lost |
| DeployRelease.Machine.Migrate | scripts/deploy-release.py:146-171 | the schema step: the target revision with both indexes and, if it was not there yet, a sound backup of the database as it was; or the database as it was; and no row is lost |
| DeployRelease.Machine.MigrateBack | scripts/deploy-release.py:130-143 | the downgrade: the old revision with every row, or a refusal |
| DeployRelease.Machine.Rollback | scripts/deploy-release.py:308-328 | after a successful compensation the code is as before and the database is rolled back; a failing one starts no unit against the wrong schema |
| DeployRelease.Machine.RestoreDropIns | scripts/deploy-release.py:313-317 | undoing the recorded changes gives back each drop-in's bytes or its absence |
| DeployRelease.Machine.WriteDropIns | scripts/deploy-release.py:274-284 | wherever the loop stops, the recorded changes undo what it did |
| DeployRelease.Machine.AtomicLink | scripts/deploy-release.py:58-63 | the link is the old one or the new one, never absent |
| DeployRelease.ReviewAcceptsOnlyTheReviewedFile | scripts/deploy-release.py:102-109 | a schema change passes review if and only if it adds exactly the reviewed file |
| DeployRelease.RolledBackIsAsBefore | scripts/deploy-release.py:313-328 | rolled-back code is the code before; the Python link is the same if and only if it did not name the legacy checkout |
| DeployRelease.DatabaseRolledBack | scripts/deploy-release.py:130-171 | no row is lost on the backup-restore path or the downgrade path; the revision is as before if it was the old one |
| DeployRelease.TimersRestarted | scripts/deploy-release.py:329-333 | the timers that ran before run again, but for a weekly timer that was retired and not among those stopped |
| DeployRelease.StartingStaysCompatible | scripts/deploy-release.py:288-289 | starting units from links and drop-ins that fit the revision keeps code and schema together |
| QuoteReplay.EsFiveSecondSamples | scripts/build_market_state_5m_replay.py:352-384 | the cursor loop samples exactly what is due: the quote a tick goes by among all received by then, stamped later than what every earlier tick went by, while its bar has not ended |
| QuoteReplay.EsSamplesAreDue | scripts/build_market_state_5m_replay.py:365-384 | the same of the defined samples, read off the quotes and the ticks alone: every sample is due at its tick, and every tick with a quote due is sampled |
| QuoteReplay.ShownAnswersScan | scripts/build_market_state_5m_replay.py:303-331 | with no quote of the instrument stamped after its receipt, what a tick goes by is exactly what a scan of every quote received by it answers, and it goes by none exactly if the scan finds none |
| QuoteReplay.MarketSamples | scripts/build_market_state_5m_replay.py:387-436 | the cursor loop computes, at each tick, the row defined from all that was received by then |
| QuoteReplay.RowsShow | scripts/build_market_state_5m_replay.py:406-436 | each row gives, for exactly the tracked instruments and exactly the providers of ES that have one, a freshest eligible quote among the newest of each provider received by its tick |
| QuoteReplay.LatestIsNewest | scripts/build_market_state_5m_replay.py:290-300 | each entry of the latest table is the newest event of its instrument and provider, and is missing only if there is none |
| QuoteReplay.FreshestRefinesScan | scripts/build_market_state_5m_replay.py:303-331 | with no quote stamped after its receipt, the choice from the table is the maximum over all eligible quotes received, and none exactly when there are none |
| QuoteReplay.FreshestIsRightIff | scripts/build_market_state_5m_replay.py:312-331 | for any provider or all of them: the choice from the table answers the scan if and only if every eligible quote is represented, by an eligible newest quote of its own or another provider that is at least as fresh |
| QuoteReplay.OneProviderIsRightIff | scripts/build_market_state_5m_replay.py:312-331 | for one provider: if and only if its newest quote is eligible or no quote is |
| QuoteReplay.FutureStampHidesQuote | scripts/build_market_state_5m_replay.py:297-309 | a quote stamped ahead of its receipt hides an eligible older one |
| QuoteReplay.KnownOfSort | scripts/build_market_state_5m_replay.py:359-363 | the stable sort by receipt time commutes with forgetting what was received after T |
| QuoteReplay.NoLookAheadInSamples | scripts/build_market_state_5m_replay.py:352-384 | streams that agree on everything received by T give the same five-second samples up to T |
| QuoteReplay.NoLookAheadInRows | scripts/build_market_state_5m_replay.py:387-436 | and the same market rows up to T, although the provider set is taken from the whole day |
| QuoteReplay.LaterProvidersAreSilent | scripts/build_market_state_5m_replay.py:399-405 | a provider first heard of after a tick contributes nothing to it |
| QuoteReplay.SamplesAreWellSampled | scripts/build_market_state_5m_replay.py:367-384 | sampled source times and ticks strictly increase and each sample is an eligible ES quote taken before its bar closes |
| QuoteReplay.TicksAreGrid | scripts/build_market_state_5m_replay.py:334-344 | the ticks are exactly the times a whole number of steps after the first, up to the last, in order |
| QuoteReplay.FiveMinuteStart | scripts/build_market_state_5m_replay.py:347-349 | the start of the five-minute slot that holds a time |
| FiveMinuteBars.BarsFromSamples | scripts/build_market_state_5m_replay.py:450-536 | the bucketing pass computes the defined bars, with each gap flag from the bar before |
| FiveMinuteBars.BarMeans | scripts/build_market_state_5m_replay.py:463-536 | every field of every bar, read off its samples in the order they were taken: prices, count, gaps with the largest attained, edges, provider, quality; and the gap flag, set if and only if the bar before does not end where this one starts or is not ok |
| FiveMinuteBars.BarsAreTheStarts | scripts/build_market_state_5m_replay.py:453-460 | the bars come in order of time, one for each five minutes that hold a sample |
| FiveMinuteBars.NoLookAheadInBars | scripts/build_market_state_5m_replay.py:450-536 | bars that end by T, gap flags included, depend only on samples taken by T |
| FiveMinuteBars.NoLookAhead | scripts/build_market_state_5m_replay.py:539-562 | the whole chain: bars that end by T depend only on quotes received by T |
| FiveMinuteBars.BarCoverage | scripts/build_market_state_5m_replay.py:463-505 | leading, inner and trailing gaps of a bar sum to its five minutes, low and high are attained and bound every price, and the named provider has the most rows |
| FiveMinuteBars.BarOpensFirstClosesLast | scripts/build_market_state_5m_replay.py:460-472 | a bar of the replay opens at the first sample taken in it and closes at the last |
| FiveMinuteBars.OkBarHasNoHole | scripts/build_market_state_5m_replay.py:486-519 | in an ok bar no stretch longer than the larger gap limit is without a sample |
| FiveMinuteBars.EverySampleInOneBar | scripts/build_market_state_5m_replay.py:456-462 | every sample lands in exactly one bar, the one of its source time |
| FiveMinuteBars.ForwardPathComplete | scripts/build_market_state_5m_replay.py:733-787 | a path never has more bars than its horizon holds, is ready if and only if every slot of the grid holds an ok bar, and its endpoint lies between its low and its high |
| FiveMinuteBars.ForwardMeans | scripts/build_market_state_5m_replay.py:744-787 | a path is missing exactly if its origin or its target is missing or not ok; else its endpoint is the move between the two closes, and its high and low are the attained extremes of the ok bars between |
| FiveMinuteBars.ReplayBarsOnGrid | scripts/build_market_state_5m_replay.py:450-536 | the replay's bars end on the five-minute grid, as the path count needs |
| FiveMinuteBars.AdvanceRangeBaselines | scripts/build_market_state_5m_replay.py:605-642 | each session's snapshot is the state from all earlier sessions, each added bar by bar |
| FiveMinuteBars.DaySteps | scripts/build_market_state_5m_replay.py:624-641 | a session is added in one update for each of its regular bars, taken by their ends, with the others as they come, the regular ones up to it, and its end |
| StableSort.SortSorts | scripts/build_market_state_5m_replay.py:359-363 | the sort used throughout gives a sorted permutation |
| StableSort.SortIsStable | scripts/build_market_state_5m_replay.py:359-363 | and keeps the input order of ties |
| StableSort.SortFilter | scripts/build_market_state_5m_replay.py:359-363 | sorting commutes with leaving elements out |
| SweepDetector.DetectLevelSweep | docs/notebooks/ict-liquidity-event-study-2026-08-31.py:286-345 | the scan, with its breaks and continues, is the recursive detector |
| SweepDetector.SweepIsSound | docs/notebooks/ict-liquidity-event-study-2026-08-31.py:286-345 | a reported sweep is a penetration of the right size with a close back at most the reclaim window later, its extreme attained and dominating |
| SweepDetector.DetectIsExact | docs/notebooks/ict-liquidity-event-study-2026-08-31.py:299-345 | exactly which sweeps are found: the earliest close back in the window of a penetration that was taken up, and none if there is none |
| SweepDetector.PlainSweepIsFound | docs/notebooks/ict-liquidity-event-study-2026-08-31.py:299-326 | a sweep is missed only if an earlier penetration in reach masks its own; a bar that penetrates and closes back is never missed |
| SweepDetector.MaskedSweepIsMissed | docs/notebooks/ict-liquidity-event-study-2026-08-31.py:305-321 | concrete bars on which a qualifying penetration and its close back are not reported, because an earlier penetration masks them |
| SweepDetector.SweepIsCausal | docs/notebooks/ict-liquidity-event-study-2026-08-31.py:286-345 | truncating the bars anywhere behind a sweep changes nothing, and a sweep of a truncated series is the sweep of the whole |
| SweepDetector.AttachConfirmations | docs/notebooks/ict-liquidity-event-study-2026-08-31.py:384-469 | the search loops with their breaks compute the attached stages |
| SweepDetector.StagesAreOrdered | docs/notebooks/ict-liquidity-event-study-2026-08-31.py:384-469 | penetration, sweep, displacement, structure break, gap and retrace come in order and within their deadlines |
| SweepDetector.StagesMeanWhatTheySay | docs/notebooks/ict-liquidity-event-study-2026-08-31.py:396-433 | the break and the displacement are the first bars of their windows that qualify, and none qualifies where they are missing |
| SweepDetector.GapMeansWhatItSays | docs/notebooks/ict-liquidity-event-study-2026-08-31.py:435-469 | the same for the gap, with its two edges, and for the retrace, with its higher-timeframe flag |
| SweepDetector.ReferenceIsExtreme | docs/notebooks/ict-liquidity-event-study-2026-08-31.py:387-395 | the reference is the extreme of the bars before the penetration, present if and only if there are three |
| SweepDetector.AttachIsCausal | docs/notebooks/ict-liquidity-event-study-2026-08-31.py:472-483 | seen from the first n bars, an event has exactly the stages of the whole series below n, with the same indices, reference and gap |
| SweepDetector.SignalIff | docs/notebooks/ict-liquidity-event-study-2026-08-31.py:384-483 | the signal of each of the five stages is the bar that the stage asks for, read off the bars: the sweep, the first break, that break behind a displacement, the first touch in time of the gap formed first behind it, that touch with the hour's move; there is none exactly if there is no such bar |
| SweepDetector.AtrMeans | docs/notebooks/ict-liquidity-event-study-2026-08-31.py:261-278 | the average range is there from the tenth bar on: the mean of the true ranges of the fourteen bars before, or of all when there are fewer |
| SweepForward.FirstTouch | docs/notebooks/ict-liquidity-event-study-2026-08-31.py:530-551 | the first-touch loop: the first bar that touches stop or target decides, the stop first |
| SweepForward.OutcomeIsUnique | docs/notebooks/ict-liquidity-event-study-2026-08-31.py:530-551 | one outcome fits a window |
| SweepForward.OutcomeIsCausal | docs/notebooks/ict-liquidity-event-study-2026-08-31.py:530-551 | a decided outcome stays when bars are added |
| SweepForward.FurtherTarget | docs/notebooks/ict-liquidity-event-study-2026-08-31.py:534-551 | a further target wins only where the nearer one does and loses wherever it does |
| SweepForward.TwoRiskNeedsOneRisk | docs/notebooks/ict-liquidity-event-study-2026-08-31.py:534-551 | so the two-risk outcome of a row is bounded by its one-risk outcome |
| SweepForward.OutcomeFitsExcursions | docs/notebooks/ict-liquidity-event-study-2026-08-31.py:513-551 | first touch and excursions agree: an outcome is open if and only if the price reached neither stop nor target |
| SweepForward.HorizonMeans | docs/notebooks/ict-liquidity-event-study-2026-08-31.py:512-529 | a horizon's result is the move from the entry to its last close in the trade's direction; its excursions are the attained furthest reaches of its bars with the trade and against it |
| SweepForward.ReportedFitsExcursions | docs/notebooks/ict-liquidity-event-study-2026-08-31.py:531-552 | a row's outcome in multiples of its risk: no trade if and only if the risk is out of bounds; open if and only if the best excursion stays below the multiple and the worst below the risk |
| SweepForward.HorizonInRange | docs/notebooks/ict-liquidity-event-study-2026-08-31.py:513-528 | a horizon's result lies between its worst and best excursion |
| SweepForward.ExcursionsGrow | docs/notebooks/ict-liquidity-event-study-2026-08-31.py:513-528 | excursions only grow with the horizon |
| SweepForward.ForwardMetrics | docs/notebooks/ict-liquidity-event-study-2026-08-31.py:486-552 | a row exists if and only if the entry is early enough with sixty bars from it; entry, stop, risk, horizons and outcomes are the defined ones |
| SweepClusters.Deduplicate | docs/notebooks/ict-liquidity-event-study-2026-08-31.py:348-381 | the grouping and merging loops compute the deduplicated events |
| SweepClusters.GroupsAreMaximalRuns | docs/notebooks/ict-liquidity-event-study-2026-08-31.py:350-366 | the clusters partition the sorted events into maximal runs of one direction with steps of at most five minutes |
| SweepClusters.MaximalRunsAreUnique | docs/notebooks/ict-liquidity-event-study-2026-08-31.py:350-366 | there is only one such partition |
| SweepClusters.MergeMeans | docs/notebooks/ict-liquidity-event-study-2026-08-31.py:367-380 | a cluster keeps its first event of the highest priority, all level names in order, and the extreme that dominates |
| SweepClusters.NamesConserved | docs/notebooks/ict-liquidity-event-study-2026-08-31.py:369-374 | no level name is lost or made up |
| SweepClusters.KeptAreApart | docs/notebooks/ict-liquidity-event-study-2026-08-31.py:348-381 | neighbouring outputs of one direction are more than five minutes apart, and the output is sorted |
| SweepClusters.DeduplicationIsIdempotent | docs/notebooks/ict-liquidity-event-study-2026-08-31.py:348-381 | deduplicating twice is deduplicating once |
| SweepClusters.DeduplicationIsCausalIff | docs/notebooks/ict-liquidity-event-study-2026-08-31.py:348-381 | exactly when deduplication is causal, for any events and any moment: what is kept of the events known by then comes first in what is kept in the end if and only if none of the later sweeps that join the last known cluster has a better level than its event, a name the event lacks, or an extreme beyond it |
| SweepClusters.StaysKeptIff | docs/notebooks/ict-liquidity-event-study-2026-08-31.py:350-366 | the same for a sorted past and any sorted future |
| SweepClusters.NextSweepStaysKeptIff | docs/notebooks/ict-liquidity-event-study-2026-08-31.py:357-366 | the same for one more sweep: it does not join the last cluster, or adds nothing to its event |
| SweepClusters.LaterSweepChangesKeptEvent | docs/notebooks/ict-liquidity-event-study-2026-08-31.py:367-380 | a family of inputs where it fails: two near sweeps of one direction, the later with the higher priority |
| SweepStudy.StudyDay | docs/notebooks/ict-liquidity-event-study-2026-08-31.py:814-825 | one day: the loops over levels and kept events compute the day's sweeps, their deduplication and the stages of what is kept |
| SweepStudy.SweepsAreFound | docs/notebooks/ict-liquidity-event-study-2026-08-31.py:814-819 | the raw sweeps are those the detector finds at some level, one for each level where it finds one |
| SweepStudy.SignalsOfDay | docs/notebooks/ict-liquidity-event-study-2026-08-31.py:814-825 | for each event kept and each stage the signal is the bar that the stage asks for, if there is one |
| SweepStudy.SweepsAreCausal | docs/notebooks/ict-liquidity-event-study-2026-08-31.py:814-819 | the raw sweeps of the first n bars are those of the whole day that were known by the n-th |
| SweepStudy.KeptIsCausalIff | docs/notebooks/ict-liquidity-event-study-2026-08-31.py:348-381 | for any events and any moment: what is kept of those known by then is what is known by then of what is kept in the end, if and only if nothing later adds to the last kept event |
| SweepStudy.StudyIsCausalIff | docs/notebooks/ict-liquidity-event-study-2026-08-31.py:814-825 | the same for a day's bars: exactly when the first n bars give the events, known by then, of the whole day |
| SweepStudy.SignalsAreCausal | docs/notebooks/ict-liquidity-event-study-2026-08-31.py:814-825 | and then, for each stage, the signals up to bar n are the same, event by event, with none missing or new |
| Crps.HalfPairwiseIsMeanPairDistance | docs/notebooks/spx-close-convergence-monte-carlo-2026-08-22.py:548-551 | the sorted coefficient sum is half the mean distance of two draws |
| Crps.ScoreIsDefinition | docs/notebooks/spx-close-convergence-monte-carlo-2026-08-22.py:548-552 | the score is its definition: the mean distance of the draws from the actual value less half the mean distance of two draws, as plain sums |
| Crps.ScoreIgnoresOrder | docs/notebooks/spx-close-convergence-monte-carlo-2026-08-22.py:546-553 | the score does not depend on the order of the draws |
| Crps.ScoreIsNotNegative | docs/notebooks/spx-close-convergence-monte-carlo-2026-08-22.py:550-552 | the score is at least the mean error over the number of draws, so never negative |
| Crps.ScoreIsZeroIffExact | docs/notebooks/spx-close-convergence-monte-carlo-2026-08-22.py:550-552 | it is zero if and only if every draw is the actual value |
| Crps.QuantilesAreOrdered | docs/notebooks/spx-close-convergence-monte-carlo-2026-08-22.py:547 | the reported quantiles do not cross |
| Crps.QuantileInterpolates | docs/notebooks/spx-close-convergence-monte-carlo-2026-08-22.py:547 | a quantile is the order statistic at its position, or as far between the two around it as the position is between their indexes |
| Crps.QuantileIgnoresOrder | docs/notebooks/spx-close-convergence-monte-carlo-2026-08-22.py:547 | nor depend on the order of the draws |
| Conformal.AddPrequentialConformal | docs/notebooks/spx-close-convergence-monte-carlo-2026-08-22.py:727-751 | the pass over mutable rows gives each row the interval defined from the scores of earlier rows of its method and horizon |
| Conformal.StableSortByPlace | docs/notebooks/spx-close-convergence-monte-carlo-2026-08-22.py:729-732 | the stable sort by key is the sort by key and place |
| Conformal.ConformalCovers | docs/notebooks/spx-close-convergence-monte-carlo-2026-08-22.py:738-751 | an interval is present if and only if five scores are known, is widened on both sides by exactly the adjustment, never narrows, and would have covered at least n or four fifths of n + 1 of the n earlier outcomes |
| Conformal.AdjustmentIsOrderStatistic | docs/notebooks/spx-close-convergence-monte-carlo-2026-08-22.py:743-744 | the adjustment is a score with more than its rank at or below it and at most its rank strictly below |
| Conformal.RankCovers | docs/notebooks/spx-close-convergence-monte-carlo-2026-08-22.py:743 | the rank is four fifths of n + 1 rounded up, or everything; which of the two, for which n |
| Conformal.ConformalIsCausal | docs/notebooks/spx-close-convergence-monte-carlo-2026-08-22.py:727-751 | with one row per session and key, an interval depends only on strictly earlier sessions of the same key, in whatever order they are listed |
| PoolWeights.ExpandingWeights | docs/notebooks/spx-close-convergence-monte-carlo-2026-08-22.py:593-652 | the loop over days and samples gives exactly the tested samples weights, each those defined from the losses known before it |
| PoolWeights.WeightsAtMeans | docs/notebooks/spx-close-convergence-monte-carlo-2026-08-22.py:593-652 | those weights are the pool's after the losses of the predicted samples of the horizon that are dated earlier, or the same day and further ahead, for each model the same ones |
| PoolWeights.WeightsIff | docs/notebooks/spx-close-convergence-monte-carlo-2026-08-22.py:501-510 | the weights are the pool's if and only if they are thirds, while a model has fewer than three losses, or sum to one and, beyond their part of the shrinkage, are to each other as the exponentials of the models' scaled distances behind the best mean |
| PoolWeights.TemperatureIff | docs/notebooks/spx-close-convergence-monte-carlo-2026-08-22.py:506-507 | the scale is the middle mean loss but at least one, and distances are from the least mean loss |
| PoolWeights.StatMeans | docs/notebooks/spx-close-convergence-monte-carlo-2026-08-22.py:593-725 | the known losses are exactly those of earlier predicted samples of the horizon, counted and summed |
| PoolWeights.WeightsAreShares | docs/notebooks/spx-close-convergence-monte-carlo-2026-08-22.py:502-510 | the weights sum to one and none falls below its part of the shrinkage |
| PoolWeights.BetterModelWeighsMore | docs/notebooks/spx-close-convergence-monte-carlo-2026-08-22.py:505-509 | of any two models the one with no larger mean loss gets no less weight, and under a strictly increasing exponential the one with a smaller mean loss gets more |
| PoolWeights.WeightsAreCausal | docs/notebooks/spx-close-convergence-monte-carlo-2026-08-22.py:593-725 | with one sample per date and horizon, weights depend only on samples and losses of strictly earlier dates |
| Cooldown.EventRows | docs/notebooks/net-premium-divergence-backtest-2026-08-27.py:308-353 | events are eligible, spaced by the cooldown and complete: every eligible row is one or lies in the cooldown of an earlier one; no result if no row precedes the hard exit |
| Cooldown.GreedyIsOptimal | docs/notebooks/net-premium-divergence-backtest-2026-08-27.py:328-329 | no choice of eligible rows that keeps the cooldown is larger |
| Cooldown.GreedyStaysAhead | docs/notebooks/net-premium-divergence-backtest-2026-08-27.py:328-329 | the k-th greedy event is never behind the k-th of any other choice |
| Cooldown.EventsAreUnique | docs/notebooks/net-premium-divergence-backtest-2026-08-27.py:326-353 | spaced, eligible and complete determine the events |
| Cooldown.HardExit | docs/notebooks/net-premium-divergence-backtest-2026-08-27.py:321-324 | the first of the latest rows up to the hard exit, none exactly if there is none |
| Cooldown.HighFailureMeans | docs/notebooks/net-premium-divergence-backtest-2026-08-27.py:283-292 | a failed high, both directions: some earlier bar of the confirmation window stands above the whole lookback window and the current price |
| Cooldown.LowFailureMeans | docs/notebooks/net-premium-divergence-backtest-2026-08-27.py:283-293 | a failed low is the same upside down |
| Cooldown.DivergenceMeans | docs/notebooks/net-premium-divergence-backtest-2026-08-27.py:288-304 | a divergence or an exhaustion is a failed high or low with the session's call and put flow, up to now, on the right sides of what they were before the confirmation window |
| Cooldown.EventMeans | docs/notebooks/net-premium-divergence-backtest-2026-08-27.py:330-353 | an event's results: for each horizon the price move to the row that far ahead, if there is one, and the move to the hard exit, with the sign of its kind |
| Cooldown.FlagsAreCausal | docs/notebooks/net-premium-divergence-backtest-2026-08-27.py:267-305 | a flag depends only on the rows up to its own |
| Cooldown.EquityMaxDrawdown | docs/notebooks/net-premium-divergence-backtest-2026-08-27.py:421-431 | the running loop gives the largest fall of the equity from a moment to a later one, none exactly for no results |
| Cooldown.DrawdownIsDetermined | docs/notebooks/net-premium-divergence-backtest-2026-08-27.py:421-431 | it is unique, never negative, and zero if and only if no result is a loss |
| MidRanks.RanksAlong | scripts/build_spring_gamma_v3_research.py:829-839 | the tie-group loop along any sorting order gives each value its mid-rank, so the order among ties does not matter |
| MidRanks.AverageRanks | scripts/build_spring_gamma_v3_research.py:829-839 | the same along the stable order the source takes |
| MidRanks.RanksSum | scripts/build_spring_gamma_v3_research.py:829-839 | the mid-ranks of n values sum to n (n + 1) / 2 |
| MidRanks.RankOrder | scripts/build_spring_gamma_v3_research.py:829-839 | ranks compare as the values do |
| MidRanks.RanksIgnoreOrder | scripts/build_spring_gamma_v3_research.py:829-839 | a value's rank does not depend on the order of the array |
| SeriesLookup.Series.Finalize | scripts/build_spring_gamma_v3_research.py:297-308 | the same points, by ascending time, and those of one time in the order they were appended in |
| SeriesLookup.Series.LatestFromSeries | scripts/build_spring_gamma_v3_research.py:311-328 | the bisection finds the newest point known at a moment, the last appended of equally new ones, unless it is too old |
| SeriesLookup.LookupIsCausal | scripts/build_spring_gamma_v3_research.py:311-328 | points after the moment change nothing, whenever they were appended |
| WarmStart.WarmStart | scripts/warm_market_state_ma_history.py:472-620 | for every failure pattern: success means that the file decodes to the validated candidate; original-restored means that the file is as it was found; any other failure but restore-failed leaves it untouched; and no write precedes a durable backup of what it replaces |
| WarmStart.Apply | scripts/warm_market_state_ma_history.py:579-617 | the locked part: a file that changed since validation is refused and left alone |
| WarmStart.Files.WriteBackup | scripts/warm_market_state_ma_history.py:407-430 | a reported backup holds the bytes and survives a power loss; no earlier backup is touched |
| WarmStart.Files.WriteBytes | scripts/warm_market_state_ma_history.py:444-464 | the atomic write leaves the old or the new content, wherever it raises |
| WarmStart.Restore | scripts/warm_market_state_ma_history.py:603-610 | a successful restore has read back the original bytes |
| WarmStart.WriteAndVerify | scripts/warm_market_state_ma_history.py:591-602 | a successful write has read back the candidate |
| OverlapAudit.AuditOverlap | scripts/warm_market_state_ma_history.py:289-376 | the audit accepts if and only if its limits are allowed, the calendar closes at the cutoff, both sides hold each bar of the session exactly once, the live bars reach the cutoff, the session is clean, and the overlap agrees and is large enough |
| OverlapAudit.CheckSession | scripts/warm_market_state_ma_history.py:318-335 | the counts and sets compared say exactly that both sides hold the same starts, each once, as many as the session has |
| OverlapAudit.CompareOverlap | scripts/warm_market_state_ma_history.py:352-371 | the accumulating loop: every overlapping bar is sound and near enough in price, and there are enough of them |
| OverlapAudit.ByStartMeans | scripts/warm_market_state_ma_history.py:306 | each start is compared with the last of the rows that bear it |
| OverlapAudit.OverlapCountIs | scripts/warm_market_state_ma_history.py:352-371 | the count is the number of live bars that have a seed |
| OverlapAudit.AcceptedMeans | scripts/warm_market_state_ma_history.py:289-376 | what acceptance says of the unsorted live bars: each regular bar of the session is clean and has its seed, each overlapping one is sound and near enough, and a latest one ends at the cutoff |
| WarmStart.AppliedKeepsTheContract | scripts/warm_market_state_ma_history.py:254-274 | after an applied run a contract identity that was set before is still the requested one |

## Left out

- Receipts from before digests were recorded: the restore then checks only the size, and nothing can be promised for its bytes.
- The archiver's process lock and the partition locks other than the raw-frame lock: a single archiver runs; what the locks exclude is the parameter `held`.
- The choice of candidates by date and the `--limit` and dry-run options: easy members.
- Network, ssh, rsync, systemctl, Alembic and SQLite internals: steps that succeed, fail or return any value.
- A kill of the deployment process, for which the code has no handler; only raised exceptions are modelled.
- Download, checksum and unpacking of a release, health-file contents, the order of process-identity checks, and the removal of old releases after a recorded cutover.
- The text of a drop-in, beyond whether it redirects its unit to the `current` link.
- The imported scorer, baseline updater, seeding and diagnostics code and the market calendar: parameters.
- The request of historical bars, and the text of a bar's start beyond its identity and its place in the order of texts.
- Restoring every date at once, which repeats the partition restore.
- The control matching, bootstrap, random draws, regressions, Student-t paths and the mixing of paths by the pool's weights: randomness and numerics.
- Floating-point rounding: CRPS, ranks, quantiles and drawdown are exact.
- The vertical-spread replay and the paired daily trades built on the event rows.
- Conformal.ConformalIsCausal: assumes one row per session, method and horizon, as the predictions are built; the pass itself is specified without it.
- PoolWeights.WeightsAreCausal: assumes one sample per date and horizon, as the samples are built; with two, the later one's weights use the earlier one's loss of the same day.
- FiveMinuteBars.NoLookAhead: the market calendar that marks regular-hours bars is a fixed function of time.
- The forward fill of minute prices, which is the as-of lookup again, and the choice of the latest completed session.
- The polling of readiness after the start: one step that succeeds or raises.
- Reports, notebooks, charts and command-line parsing.
