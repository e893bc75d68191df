# Signal bot and Position Guardian: verified core

This project models the stateful protocols of the alert-only scanner, of the stop-only Position Guardian
and of the capture and evidence tools, and proves what they promise over every input, every run and every
crash point. Each component is one module.

- `UserStream`: the bounded user-event buffer, its dedupe window and order guard, and the
  begin / complete / finalize / fence protocol around a REST resync.
- `FastScan`: the incremental tape scan with its persisted cursor, against the scan of everything.
- `GuardianLedger`: reconciliation of a private snapshot against the event ledger, and alerts projected
  from the live result and from the durable event.
- `GuardianOutbox`: materialising alerts from durable events, and restart recovery.
- `GuardianDelivery`: delivery to Discord by interleaved tasks that may crash anywhere.
- `PruneStaging`: the uploader's containment check and its staged, rolled-back, verified pruning of a date.
- `UploaderRuns`: the uploader over whole histories of arrivals, outside writes, runs and kills.
- `CandleSeries`, `FeatureHistory`, `UniverseRotation`: gap recovery, the bounded feature history and
  confirmed universe rotation of the market runtime and scanner.
- `ContextCursor`: the Guardian's durable closed-candle cursor.
- `RollingWindow`, `StorageMath`, `ReceiptChain`: the stream profile, the storage bounds and gates, and the
  health-receipt chain with its independent verifier.
- `Prelude`, `Sorting`, `Multiples`: shared helpers.

State that the program mutates is a class or a loop whose contract equals a step function on values, and
the theorems are about every sequence of such steps. A SHA-256 digest is the content it is taken of (or an
uninterpreted string where only equality matters), so it is injective; Decimals and floats are reals; a
directory is a map or a sequence in name order; an exception is an explicit outcome. Where the outside world
decides something (what a POST answers, what a REST page holds, when a rename fails, what the clock says) it
is a parameter, and the theorems hold for all its values.

Some promises do not hold of the code as it stands. The code is modelled as it is, and each such case has a
concrete counterexample and the exact condition:

- A quota gate is met by a capture that is already over its quota when nothing is required, because the
  headroom is clamped at zero (`GateMetOverQuota`). Met and not over quota is exactly safe
  (`QuotaSafeIffGateMet`).
- The runtime stores a live candle that opens less than one interval after the last one, which breaks the
  series (`MisalignedCandleBreaksSeries`). A stored candle keeps the series contiguous exactly when it opens
  a whole number of intervals later (`HandleContiguousIffAligned`).
- A replayed snapshot is projected live from the present projection but durably from the stored one, so a
  repeated side flip has a durable alert and no live one (`ReplayedSideFlipDiffers`);
  `ReplayedAlertsAgreeIff` gives the condition. A snapshot recorded for the first time always agrees.
- `finalize_rest_resync` passes although events were pending when the session opened
  (`FinalizeIgnoresPendingEvents`); `complete_rest_resync` is certain exactly when the final check would
  pass and nothing was pending.
- The bootstrap pass of the FAST scan takes declared hashes on trust. Its totals equal those of the full scan
  all the same, but a forged segment goes unreported (`BootstrapTrustsDeclaredHash`); the full scan is
  error-free exactly when the bootstrapped segments are genuine (`FullScanAgreesIffBootstrapGenuine`).
- A FAST run notices a changed past by two counts only: replacing the one counted manifest by an
  earlier-named one goes unreported and leaves the old totals (`ReplacedManifestGoesUnnoticed`). Such a
  change is reported exactly when the number of manifests named up to the cursor is no longer the counted
  one (`ChangedPastReportedIff`).
- An alert can be POSTed more often than the setting of the process now running, when an earlier process had
  a higher one (`LoweredSettingIsExceeded`); the greatest setting of the run is always a bound
  (`AtMostOneAmbiguousPost`).
- Receipts are ordered by file name, so two capture times of different width can break the chain for good
  (`NineThenTenIsRejected`). A chain is accepted exactly when captures rise in time and in name order
  (`BuiltChainAcceptedIff`).
- Selection from the bounded feature history can miss a recent entry of the full history when all four
  retained entries are too late (`BoundedSelectionMissesRecent`); `SelectionMatchesIff` says exactly when it
  does not.
- The uploader hashes a quarantined directory, then the later directories of the date, and only then removes
  it; a file written in between is removed unarchived (`LateWriteIsRemovedUnarchived`). What is removed is
  what the verified bundle lists exactly when no such write changed the inventory (`RemovedIsListedIff`, and
  over whole histories `NothingDeletedUnarchived` and `QuietRunsArchiveEverything`).
- A failed upload saves its manifest first, so a generation of that day that closes later keeps the day from
  ever being bundled; a bundle that does come lists exactly the generations of the failed attempt
  (`FailedUploadPinsDay`, `BundledIff`).

A reconcile call can also raise after its event is committed, when the outbox is full: `FillSucceedsIff` says
exactly when. The event and the alerts that fitted stay, and the next completed recovery enqueues the rest
(`CommittedAlertsReachOutbox`).

## Model

| member | source | states |
|---|---|---|
| `UserStream.RunKeepsQueue` | src/position_guardian/exchange/binance_user_stream.py:177-336 | after every run the queue is within its bound, non-decreasing in ordering key per event type and bounded by the last ordering even though resyncs clear that map; no session leaves fence data behind, and an open session is unhealthy and marked disturbed exactly when the ingest sequence moved |
| `UserStream.RunKeepsWindow` | src/position_guardian/exchange/binance_user_stream.py:182-198 | after every run the dedupe deque holds exactly the ids of the last `max_dedupe_size` accepted events, without repeats, and the id set agrees |
| `UserStream.RepeatsAreFarApart` | src/position_guardian/exchange/binance_user_stream.py:182-198 | two acceptances of one id have at least `max_dedupe_size` acceptances between them |
| `UserStream.RunConserves` | src/position_guardian/exchange/binance_user_stream.py:184-218 | the accepted history equals the drained and fenced events followed by the queue, in order, each exactly once |
| `UserStream.CertainMeansUndisturbed` | src/position_guardian/exchange/binance_user_stream.py:240-286 | CERTAIN in any run means: the session was opened by a call of that run over an empty queue, the queue is empty now, and no ingest of any status happened in between |
| `UserStream.FinalizedMeansSilent` | src/position_guardian/exchange/binance_user_stream.py:288-316 | a passing final check means an empty queue and no ingest since that session opened |
| `UserStream.DeferredRecoveryUndisturbed` | src/position_guardian/exchange/binance_user_stream.py:240-301 | a certain deferred complete and a later passing finalize of the same session: the queue was empty at the opening and nothing was ingested up to the recovery |
| `UserStream.RecoveryNeedsTheFence` | src/position_guardian/exchange/binance_user_stream.py:177-336 | between an unhealthy point and a later healthy one of any run lies an undeferred certain complete or a passing finalize, over an empty queue, of a session that saw no ingest |
| `UserStream.CertainIffQuietAndNothingPending` | src/position_guardian/exchange/binance_user_stream.py:257-316 | complete is certain exactly when the final check would pass and nothing was pending at the start |
| `UserStream.FinalizeIgnoresPendingEvents` | src/position_guardian/exchange/binance_user_stream.py:288-316 | a concrete run in which finalize restores health although an event was pending at the start |
| `UserStream.FenceReportsEverythingDiscarded` | src/position_guardian/exchange/binance_user_stream.py:318-336 | a fence reports the id of every event it discards, without repeats |
| `UserStream.IngestDecision` | src/position_guardian/exchange/binance_user_stream.py:177-201 | after every run, from its history alone: an event is a duplicate exactly when its id is among the last `max_dedupe_size` accepted ones, otherwise out of order exactly when an event of its type accepted since the last recovery is later, otherwise overflows exactly when as many accepted events as the bound have not left, and is accepted exactly when none of these holds |
| `UserStream.HealthIsLastVerdict` | src/position_guardian/exchange/binance_user_stream.py:177-336 | over every run health is what the last call that says anything about it says: degraded by a refused, overflowing or unparsable event, an opened session and a fence, expired by an accepted listen-key event, disconnected when marked, healthy by a recovery |
| `UserStream.HealthyIffEveryTroubleIsFenced` | src/position_guardian/exchange/binance_user_stream.py:177-336 | a run ends healthy if and only if every call that was bad for health is followed by a recovery behind the fence |
| `UserStream.RefusalNeedsRecovery` | src/position_guardian/exchange/binance_user_stream.py:182-212 | if some call answered out of order, overflow or invalid and the run ends healthy, a later call is a recovery over an empty queue of a session that saw no ingest |
| `UserStream.DrainTakesAllItMay` | src/position_guardian/exchange/binance_user_stream.py:214-218 | a drain is refused exactly for a limit below one and otherwise takes the oldest events, stopping only at the limit or at the end of the queue |
| `UserStream.CrossedIdsAreIngested` | src/position_guardian/exchange/binance_user_stream.py:177-212 | in every run the ids crossing an open session are exactly those of the events ingested since it opened, in order and whatever their status |
| `UserStream.ReportedIdsCrossed` | src/position_guardian/exchange/binance_user_stream.py:257-336 | what a complete or a fence reports is exactly the ids pending at the opening, those ingested since and, for a fence, those discarded |
| `UserStream.StaleSessionIsRefused` | src/position_guardian/exchange/binance_user_stream.py:240-336 | once another session was opened, every call with an earlier one is refused and changes nothing |
| `UserStream.CertainIffUndisturbed` | src/position_guardian/exchange/binance_user_stream.py:240-286 | complete is certain if and only if its session is open, the snapshot is identified, the queue was empty when the session opened and nothing was ingested since |
| `UserStream.FinalizedIffSilentAndDrained` | src/position_guardian/exchange/binance_user_stream.py:288-316 | the final check passes if and only if its session is open, nothing was ingested since it opened and everything then queued was drained |
| `UserStream.BoundedUserEventBuffer.Ingest` | src/position_guardian/exchange/binance_user_stream.py:177-201 | one ingest is the step that `IngestDecision` and `HealthIsLastVerdict` decide, in status and in every field, and keeps deque and set in agreement |
| `UserStream.BoundedUserEventBuffer.Remember` | src/position_guardian/exchange/binance_user_stream.py:192-198 | the eviction loop leaves exactly the last ids up to the bound |
| `UserStream.BoundedUserEventBuffer.IngestRaw` | src/position_guardian/exchange/binance_user_stream.py:203-212 | an unparsable payload counts as an ingest and degrades health; a parsed one is ingested |
| `UserStream.BoundedUserEventBuffer.Drain` | src/position_guardian/exchange/binance_user_stream.py:214-218 | the loop takes the oldest events up to the limit, in order, and leaves the rest; a limit below one is refused |
| `UserStream.BoundedUserEventBuffer.BeginRestResync` | src/position_guardian/exchange/binance_user_stream.py:223-238 | opens the session step, or is refused while one is open |
| `UserStream.BoundedUserEventBuffer.CompleteRestResync` | src/position_guardian/exchange/binance_user_stream.py:240-286 | the complete step, with its refusals, crossed ids and deferred recovery |
| `UserStream.BoundedUserEventBuffer.FinalizeRestResync` | src/position_guardian/exchange/binance_user_stream.py:288-301 | the finalize step: recovery when the final check passes, the fence otherwise |
| `UserStream.BoundedUserEventBuffer.ValidateRestResync` | src/position_guardian/exchange/binance_user_stream.py:303-316 | the final check, fencing when it fails |
| `UserStream.BoundedUserEventBuffer.FenceBufferedEvents` | src/position_guardian/exchange/binance_user_stream.py:318-336 | discards the queue, closes the session, stays degraded and reports the ids |
| `FastScan.FastStateEqualsFullScan` | tools/oci_operational_health.py:700-928 | after every history of runs, failed ones included, over directories that only gain later-named manifests, the state file's count, name cursor, byte totals, maximum, latest time and last hash stand at the end of the directory of the last error-free run and equal a full pass over it, and the predecessor chain holds across run boundaries |
| `FastScan.FullScanAgreesIffBootstrapGenuine` | tools/oci_operational_health.py:440-489 | after every history the full scan does not abort and has the same totals; it is error-free, with the same last hash, exactly when the segments of the bootstrap pass hash to what they declare |
| `FastScan.FullScanCleanIffGenuine` | tools/oci_operational_health.py:440-489 | over any directory a cursor covers, the full scan is error-free exactly when every segment is genuine |
| `FastScan.LaterSegmentsGenuine` | tools/oci_operational_health.py:828-841 | after every history each segment read after the bootstrap pass hashes to its declared digest |
| `FastScan.CleanMarketCovers` | tools/oci_operational_health.py:735-884 | one error-free market pass over a grown directory moves a covering cursor to its end |
| `FastScan.BootstrapTrustsDeclaredHash` | tools/oci_operational_health.py:828-841 | a concrete one-segment tape that the bootstrap pass accepts and the full scan reports |
| `FastScan.NewAfterCursor` | tools/oci_operational_health.py:742-742 | filtering by name yields exactly the manifests after the cursor |
| `FastScan.ChangedPastReportedIff` | tools/oci_operational_health.py:739-747 | however manifests up to the cursor are changed, renamed, removed or added, an otherwise error-free run reports it if and only if their number is no longer the counted one, and otherwise persists exactly the same |
| `FastScan.ReplacedManifestGoesUnnoticed` | tools/oci_operational_health.py:739-747 | a counted manifest replaced by an earlier-named one: FAST reports nothing and keeps the old total, an error-free full scan has another |
| `FastScan.GrownRunCleanIff` | tools/oci_operational_health.py:700-928 | over covering cursors and grown directories a run is error-free if and only if every new manifest names a finished segment with its size, carries its numbers, has the campaign, market, source and schema of its market, names its predecessor's digest and, after the bootstrap, the real hash of its segment, and the partials are in order |
| `FastScan.MarketCleanIff` | tools/oci_operational_health.py:735-884 | over any directory and any cursor, a market pass is error-free exactly when the count up to the cursor is unchanged, every new manifest reads well after the one before it, and the partials are in order |
| `FastScan.ManifestCleanIff` | tools/oci_operational_health.py:757-864 | one manifest adds no fault exactly when its fields, its size, its predecessor and, when hashed, its segment are in order |
| `FastScan.GoodHistoryKeepsUp` | tools/oci_operational_health.py:700-928 | over every growing history a run whose directories hold only good segments is error-free, whatever failed before it, and the state file then stands at their end |
| `FastScan.FaultsNameTheirCause` | tools/oci_operational_health.py:757-864 | each fault reported for a manifest names what is wrong with it, and everything wrong with it is named |
| `FastScan.MarketFaultsName` | tools/oci_operational_health.py:739-756 | the count and partial faults of a market are reported exactly when the count fell, does not match the new manifests, a partial has no bucket in its name or could not be measured |
| `FastScan.FullScanCleanIff` | tools/oci_operational_health.py:440-489 | over any directory at all, the full scan is error-free exactly when every manifest is a JSON object with numeric fields, of the expected campaign, market, source and schema, with the real hash of its segment and that of the one before |
| `FastScan.ReadInBatches` | tools/oci_operational_health.py:681-697 | batched reading hands over every path once, in order |
| `FastScan.FullScanMarket` | tools/oci_operational_health.py:440-498 | the full loop, with its error list and abort, computes the reference pass |
| `FastScan.FullReadManifest` | tools/oci_operational_health.py:442-498 | the checks on one manifest of the full loop, in their order |
| `FastScan.FastReadManifest` | tools/oci_operational_health.py:757-864 | the checks and updates for one manifest of the FAST loop, in their order, as decided by `ManifestCleanIff` and `FaultsNameTheirCause` |
| `FastScan.FastReadManifests` | tools/oci_operational_health.py:757-864 | the FAST loop over the new manifests, through the batched reader |
| `FastScan.FastMarketPass` | tools/oci_operational_health.py:735-884 | one market of a FAST run: the cursor to persist and the faults, counts and partials included |
| `FastScan.FastHealth.ReadSegmentsFast` | tools/oci_operational_health.py:700-928 | one run over both markets is the step of the histories above, error-free exactly as `GrownRunCleanIff` says; the state is replaced only without faults |
| `GuardianLedger.LiveAlertsEqualDurable` | src/position_guardian/reconcile.py:62-235 | for every ledger and request: when a snapshot is newly recorded or refused for its order, the alerts rebuilt from the durable event equal those of the live result |
| `GuardianLedger.ReplayedAlertsAgreeIff` | src/position_guardian/reconcile.py:62-235 | for a replayed snapshot live and durable alerts agree exactly under a condition on the present and stored managed quantity, the certainty, the side and the protective order |
| `GuardianLedger.ReplayedSideFlipDiffers` | src/position_guardian/reconcile.py:62-235 | a repeated side-flip request has a durable alert and no live one |
| `GuardianLedger.LiveAlertsAreExpected` | src/position_guardian/alerts.py:159-238 | live alerts are those of one independent table of facts, written by the sign of the amount and the side of the identity, most severe first, for every prior projection |
| `GuardianLedger.SnapshotAlertsAreExpected` | src/position_guardian/alerts.py:285-370 | alerts rebuilt from stored snapshot evidence follow the same table |
| `GuardianLedger.FreshSnapshotEvidence` | src/position_guardian/persistence/repository.py:440-535 | a new snapshot event holds the prior phase and quantity and the request's flags; an order fault leaves a rejection event instead |
| `GuardianLedger.LiveAlertsStayRecoverable` | src/position_guardian/alerts.py:241-402 | over every run of reconcile calls and other event-keeping transactions: what a call projected live when it recorded or refused a snapshot is what any later restart rebuilds from the durable event |
| `GuardianLedger.RunKeepsValid` | src/position_guardian/persistence/repository.py:440-535 | in every run recorded quantities are non-negative and stored evidence holds both prior phase and prior quantity or neither |
| `GuardianLedger.RecordedSnapshotSettles` | src/position_guardian/persistence/repository.py:423-568 | after a newly recorded certain snapshot of an adopted identity the projection is closed if and only if the amount is zero, released if and only if the position is open and does not face the managed side, and otherwise adopted with the absolute amount; an uncertain one changes only the quantity, a settled identity stays settled and no other identity is touched |
| `GuardianLedger.FreshSnapshotOutcome` | src/position_guardian/reconcile.py:62-145 | every new snapshot, exactly: when it raises, when it is refused for being out of turn and with which event and result, and when it is recorded |
| `GuardianLedger.ReplayOutcome` | src/position_guardian/persistence/repository.py:394-422 | a repeated snapshot id is a replay exactly when the stored event is this very request; it then adds at most the missing release and settles the projection, and otherwise raises |
| `GuardianLedger.OrderFaultIff` | src/position_guardian/persistence/repository.py:440-461 | a snapshot is out of turn exactly when it is older than the cursor, as old but different in symbol, side, size or entry price, or the cursor of an adopted identity is missing |
| `GuardianLedger.CursorSeesExactly` | src/position_guardian/persistence/repository.py:169-190 | two positions have the same private cursor exactly when symbol, side faced, size, entry price and update time agree |
| `GuardianLedger.RecordedSnapshotIsRemembered` | src/position_guardian/persistence/repository.py:490-535 | a recorded snapshot of a live identity becomes its cursor, one of a settled identity does not |
| `GuardianLedger.ResultMatchesLedger` | src/position_guardian/reconcile.py:146-235 | the state and quantity returned are those the ledger now holds |
| `GuardianLedger.ManagedSignals` | src/position_guardian/reconcile.py:146-235 | each signal of a managed position is raised exactly by its fact, and attention is asked for exactly when there is one |
| `GuardianLedger.UnmanagedSignals` | src/position_guardian/reconcile.py:146-235 | an identity that is not managed has one signal saying why, and nothing to attend to |
| `GuardianLedger.OtherEventsAlerts` | src/position_guardian/alerts.py:241-402 | the alerts of planned intents, shadow sources, rejections and unreadable events, by code, severity and content |
| `GuardianLedger.GuardianRepository.RecordReconciliation` | src/position_guardian/reconcile.py:62-145 | the recording part of one call, up to the commit: the reconcile step that `FreshSnapshotOutcome`, `RecordedSnapshotSettles` and `ReplayOutcome` decide, or an exception that leaves the ledger as before |
| `GuardianOutbox.ReconcilingRepository.ReconcileOnce` | src/position_guardian/reconcile.py:62-235 | one whole call: nothing changes when recording raises; once recorded the event stays and alerts are enqueued in order, and a full outbox or unusable source raises with those that fitted kept |
| `GuardianOutbox.CommittedAlertsReachOutbox` | src/position_guardian/reconcile.py:146-157 | the live alerts of a recorded or refused snapshot are all in the outbox when the call returns, and otherwise after the next completed recovery |
| `GuardianDelivery.AtMostOneAmbiguousPost` | src/position_guardian/discord.py:200-337 | over every interleaving of deliveries, crashes, restarts with any setting, interrupted recoveries, recordings and enqueues: each alert is POSTed at most as often as the greatest `max_attempts` used, every POST but the last was a definite 429, and after one that was not no further step POSTs that alert |
| `GuardianDelivery.LoweredSettingIsExceeded` | src/position_guardian/discord.py:288-300 | a run in which a process with a setting of one makes the second POST of an alert |
| `GuardianDelivery.NothingPostedAfter` | src/position_guardian/discord.py:200-337 | however a run goes on after an ambiguous or final POST, that alert's POSTs stay the same |
| `GuardianDelivery.RunKeepsInv` | src/position_guardian/discord.py:200-337 | in every run POSTs never exceed claims, a pending row was only ever rate-limited, and at most one task holds an alert |
| `GuardianDelivery.DeliveryConcludes` | src/position_guardian/discord.py:200-337 | of one delivery, by its answers alone: the row ends delivered if and only if the last POST was confirmed, uncertain if and only if it failed in transport, succeeded without an id or met a server error, dead if and only if it was refused, rate-limited with the budget spent, or the payload was bad; the reply's word and count name that; a row without a grant is settled unposted, and no other alert is touched |
| `GuardianDelivery.StatusTellsLastPost` | src/position_guardian/discord.py:200-337 | over every interleaving with crashes and restarts: a row that became delivered has a confirmed last POST, a dead one no POST that can have arrived, a disabled one none; only granted alerts are posted; and until a recovery a row out of flight is delivered, uncertain or dead exactly as its last POST says |
| `GuardianDelivery.SettledRowsStay` | src/position_guardian/persistence/repository.py:990-1137 | a delivered, uncertain, dead or disabled row is never changed again by any task, process or recovery |
| `GuardianDelivery.NothingRunsUnrecovered` | src/position_guardian/discord.py:186-204 | between a crash and the next completed recovery no task is at work and nothing is posted |
| `GuardianDelivery.AttemptsEndOnce` | src/position_guardian/discord.py:206-337 | the retry loop retries only a 429, ends within the attempt budget and never leaves its row pending |
| `GuardianDelivery.RestartAfterAnyRun` | src/position_guardian/alert_recovery.py:57-86 | after any run at all, a restart that completes leaves exactly the alerts of all source events in the outbox and none in flight, and restarting once more changes nothing |
| `GuardianOutbox.RecoveryRestoresOutbox` | src/position_guardian/alert_recovery.py:57-86 | a completed recovery yields exactly the projected alerts, none sending, none pending without authority, attempts kept and settled rows untouched |
| `GuardianOutbox.SecondRecoveryChangesNothing` | src/position_guardian/alert_recovery.py:57-86 | a second recovery, in any listing order, inserts, quarantines and disables nothing |
| `GuardianOutbox.RecoveryCompletesIff` | src/position_guardian/alert_recovery.py:57-86 | recovery completes exactly when every source event is usable and the missing authorised alerts fit the free active slots |
| `GuardianOutbox.FillSucceedsIff` | src/position_guardian/persistence/repository.py:924-935 | enqueuing a list succeeds exactly when the distinct missing authorised alerts fit under the active limit, and then takes up exactly that many slots |
| `GuardianOutbox.ProjectedMembers` | src/position_guardian/alert_recovery.py:25-54 | projecting a list of events yields exactly the alerts of those events |
| `GuardianOutbox.EnqueueDecision` | src/position_guardian/persistence/repository.py:878-948 | a known alert changes nothing; an unknown one is refused exactly when its event grants Discord delivery and the rows pending, sending or uncertain reach the limit; otherwise it is added, pending or disabled by that grant |
| `GuardianOutbox.RequestDecidesDelivery` | src/position_guardian/reconcile.py:62-157 | every alert a fresh snapshot adds to the outbox is pending if the request asked for Discord delivery and disabled otherwise |
| `GuardianOutbox.PreparedRow` | src/position_guardian/persistence/repository.py:1046-1163 | before rebuilding, recovery turns a sending row uncertain and a pending row without a grant disabled, or dead when its event is missing or unreadable, and leaves every other row |
| `GuardianOutbox.ReportCounts` | src/position_guardian/alert_recovery.py:57-86 | the report counts the rows found sending and the pending rows without a grant |
| `GuardianDelivery.RunGrounded` | src/position_guardian/alert_recovery.py:25-54 | in every run each outbox row has the durable source event it was projected from |
| `GuardianDelivery.GuardianDiscordNotifier.Attempt` | src/position_guardian/discord.py:206-337 | one claim, POST and mark: nothing without a pending row, settled without authority, dead on a bad payload, otherwise one POST; unless it is retried, row and reply tell how it ended |
| `GuardianDelivery.GuardianDiscordNotifier.DeliverAlert` | src/position_guardian/discord.py:200-337 | refused before startup recovery and inert when disabled; otherwise the retry loop terminates, is a run of the machine's own steps, and leaves the row and answers the word of `DeliveryConcludes` |
| `GuardianDelivery.DeliveryIsRun` | src/position_guardian/discord.py:206-337 | the steps of one delivery call, run on the interleaving machine, leave exactly the row and POSTs of the retry loop and no task at work |
| `GuardianOutbox.Materialize` | src/position_guardian/alert_recovery.py:25-54 | enqueues the alerts of one event in order up to the first capacity error and counts the insertions |
| `GuardianOutbox.RecoverAlerts` | src/position_guardian/alert_recovery.py:57-86 | the recovery loop completes exactly when the specified recovery does, with its outbox and its counts of events scanned, alerts projected and inserted, rows quarantined and disabled; a failed one leaves the outbox of an interrupted recovery |
| `GuardianDelivery.GuardianDiscordNotifier.RecoverStartup` | src/position_guardian/discord.py:186-193 | a completed recovery is the machine's restart step and opens dispatch; a failed one leaves dispatch refused |
| `PruneStaging.ContainsIffIncluded` | scripts/oci_capture/pump_fade_v3_uploader.py:390-416 | the dictionary comparison holds exactly when headers agree, names are unique and each current record is a verified one |
| `PruneStaging.RemovalKeepsContainment` | scripts/oci_capture/pump_fade_v3_uploader.py:390-416 | a manifest with fewer of the same records still passes the containment check |
| `PruneStaging.FailedPruneRestoresEverything` | scripts/oci_capture/pump_fade_v3_uploader.py:585-617 | whatever fails at whatever point of staging, rollback puts every generation back under its name and the quarantine as it was; each directory holds what it held, or what an outsider wrote to it |
| `PruneStaging.DeletedOnlyWhenVerified` | scripts/oci_capture/pump_fade_v3_uploader.py:524-621 | a removal begins only past retention and under a receipt that is verified on the drive, passed its check, digests this manifest and has its day, host, schema, remote paths and generation count, and only after every directory of the date was staged and hashed to exactly its record; what is removed is what the hash saw, or what was written after it |
| `PruneStaging.RemovedIsListedIff` | scripts/oci_capture/pump_fade_v3_uploader.py:611-619 | what is removed is what the verified bundle lists if and only if no write after the last hash changed the inventory |
| `PruneStaging.PruneAccountsForEverything` | scripts/oci_capture/pump_fade_v3_uploader.py:524-621 | after a prune each generation is in place, in quarantine or removed; only listed sources are removed, and old quarantine entries are untouched |
| `PruneStaging.PruneKeepsContent` | scripts/oci_capture/pump_fade_v3_uploader.py:524-621 | a directory nobody else writes to keeps its exact content in place or in quarantine, or exactly that content is removed |
| `PruneStaging.PruneRaisesIff` | scripts/oci_capture/pump_fade_v3_uploader.py:524-621 | a prune of a date past retention raises if and only if some field of the manifest or the receipt is wrong, a directory is not in place, of that day and listed as it is, staging meets a write, an occupied quarantine or an error, or a removal fails; which directories' removal began is exact, and before staging nothing moves |
| `PruneStaging.PruneLeaves` | scripts/oci_capture/pump_fade_v3_uploader.py:585-621 | past staging no directory of the date is in place; quarantine keeps those whose removal was not completed, torn or as hashed, and nothing else changed |
| `UploaderRuns.NothingDeletedUnarchived` | scripts/oci_capture/pump_fade_v3_uploader.py:710-762 | over every history of arrivals, writes at any moment, failing runs, torn removals and kills, each removal was past retention and the drive's bundle lists the inventory its last hash saw; it lists what was removed exactly when that inventory had not changed since |
| `UploaderRuns.QuietRunsArchiveEverything` | scripts/oci_capture/pump_fade_v3_uploader.py:710-762 | without writes between a directory's last hash and its removal, over every history the drive lists exactly what was removed |
| `UploaderRuns.LateWriteIsRemovedUnarchived` | scripts/oci_capture/pump_fade_v3_uploader.py:611-619 | a concrete history in which a file written after the hash is removed and no bundle lists it |
| `UploaderRuns.UntouchedGenerationSurvives` | scripts/oci_capture/pump_fade_v3_uploader.py:710-762 | a generation nobody writes to after it arrived keeps its exact content through every history: in place, in quarantine, or removed and archived |
| `UploaderRuns.NoGenerationIsLost` | scripts/oci_capture/pump_fade_v3_uploader.py:710-762 | whoever writes to it, a generation that ever arrived is in place, in quarantine, or removed after the drive listed it with the inventory its last hash saw |
| `UploaderRuns.LaterRunsStillPass` | scripts/oci_capture/pump_fade_v3_uploader.py:739-762 | once a run of a day passed, every later run of that day passes the containment check on what full, partial, torn or killed prunes left, as long as nobody writes or delivers |
| `UploaderRuns.BundlesAreOfPastDays` | scripts/oci_capture/pump_fade_v3_uploader.py:710-762 | over every history a bundle on the drive was made by a run of its day after that day was over, lists exactly the clean generations then in place, each with its inventory, and has a receipt that proves it in every field |
| `UploaderRuns.BundledIff` | scripts/oci_capture/pump_fade_v3_uploader.py:733-745 | a day gains its bundle in a step if and only if it is a run, finished or killed, later than the day, over the whole non-empty listing of its clean generations, whose upload works and whose saved manifest, if any, is the same |
| `UploaderRuns.FailedUploadPinsDay` | scripts/oci_capture/pump_fade_v3_uploader.py:419-426 | a failed upload leaves its manifest behind, and the day's bundle, if it ever gets one, lists exactly the generations of that attempt |
| `UploaderRuns.DisabledPruneMovesNothing` | scripts/oci_capture/pump_fade_v3_uploader.py:755-757 | with pruning switched off no history removes or quarantines anything |
| `PruneStaging.PruneRunner.StageAll` | scripts/oci_capture/pump_fade_v3_uploader.py:600-612 | the staging loop, stopping at the first failure, is the specified staging |
| `PruneStaging.PruneRunner.MoveAllBack` | scripts/oci_capture/pump_fade_v3_uploader.py:614-617 | the reversed rollback loop is the specified rollback |
| `PruneStaging.PruneRunner.RemoveStaged` | scripts/oci_capture/pump_fade_v3_uploader.py:618-619 | removes staged directories in order until a removal fails, which may leave a torn directory, and nothing else |
| `PruneStaging.PruneRunner.SafePruneDate` | scripts/oci_capture/pump_fade_v3_uploader.py:524-621 | the whole prune of a date: refusals, staging with outside writes at any point, rollback or removal, and the number pruned; it raises exactly in the cases of `PruneRaisesIff` |
| `CandleSeries.HandleContiguousIffAligned` | src/signalbot/runtime.py:339-375 | for arbitrary REST pages: a candle that is not stored leaves a contiguous series, and a stored one keeps it contiguous exactly when it opens a whole number of intervals after the last |
| `CandleSeries.StoredSeriesStayContiguous` | src/signalbot/runtime.py:339-375 | over every sequence of bootstraps, live candles on the exchange's grid, arbitrary recoveries and rotations each stored series stays contiguous and every stored candle is on the grid |
| `CandleSeries.RecoverContiguous` | src/signalbot/runtime.py:466-517 | whatever the pages and wherever a write raises, recovery leaves a contiguous series; complete recovery reaches the end of the gap, a refused one changes nothing |
| `CandleSeries.MisalignedCandleBreaksSeries` | src/signalbot/runtime.py:339-369 | a concrete off-grid candle that is stored and breaks the series |
| `CandleSeries.HonestPagesAreAccepted` | src/signalbot/scanner.py:525-562 | for pages honest at the cursors a whole number of intervals from the start, the paginated loop returns exactly the range the runtime accepts if and only if the gap fits the page budget |
| `CandleSeries.ExchangeGapIsRecovered` | src/signalbot/exchange/binance/rest.py:191-219 | for an exchange that serves only candles of its own grid, through the client's filter on the local clock: the range is accepted if it fits the page budget and the clock is past its end at every page, and only if it fits and some reading is |
| `CandleSeries.OutageHeals` | src/signalbot/runtime.py:339-369 | scanner and runtime together, whatever the clock reads at each page: the series stays contiguous, a closed grid candle after an outage is stored under that same condition, and is otherwise held with the series unchanged |
| `CandleSeries.OutageHealsIff` | src/signalbot/scanner.py:525-562 | with one reading of the clock it is stored if and only if the missing range fits the page budget and the last missing candle closed before it |
| `CandleSeries.FetchMissing` | src/signalbot/scanner.py:525-562 | the pagination loop, with its stops at an empty page or a stuck cursor, computes the specified range and terminates |
| `CandleSeries.ValidatedOk` | src/signalbot/data/candles.py:73-100 | history that passes bootstrap validation is contiguous and on the grid |
| `CandleSeries.ValidatedIff` | src/signalbot/data/candles.py:73-100 | history passes exactly when every candle is on the grid and repeats the one before it or opens one interval later; its candles are kept, each once |
| `CandleSeries.AddOutcome` | src/signalbot/data/candles.py:55-71 | on a series in time order an open candle or one already there changes nothing, another candle of that opening time is a conflict, and any other is inserted in its place with the newest ones kept |
| `CandleSeries.HandleOutcome` | src/signalbot/runtime.py:339-369 | one live candle on a contiguous series, case by case and exactly: when it is ignored, held, stored or raises, and the series it leaves |
| `CandleSeries.ApplyChangesOnly` | src/signalbot/data/candles.py:136-148 | a rotation keeps exactly the named series, a live candle changes its own series only, and a bootstrap fills only a series that is not there |
| `CandleSeries.BudgetIff` | src/signalbot/scanner.py:525-562 | a range of whole intervals is within the page budget exactly when a hundred full pages hold it |
| `CandleSeries.LiveSeries.AddRecovered` | src/signalbot/runtime.py:506-517 | recovered candles are appended in order, up to and including the one whose write fails |
| `CandleSeries.LiveSeries.HandleCandle` | src/signalbot/runtime.py:339-369 | one live candle is the handling step of the theorems above, in series and outcome; a write that raises during recovery raises |
| `FeatureHistory.HistoryIsTopOfFull` | src/signalbot/runtime.py:574-586 | over every run of stores, prunes and rebuilds each history is the newest four entries of the full last-write-wins history and the current feature is its newest entry |
| `FeatureHistory.PutIsLastWriteWins` | src/signalbot/runtime.py:574-586 | the reference history has one entry per time, in time order, and the last write of a time wins |
| `FeatureHistory.StoredIsPut` | src/signalbot/runtime.py:574-586 | dropping, sorting and cutting is the reference's insertion cut to four |
| `FeatureHistory.CutCommutesWithPut` | src/signalbot/runtime.py:574-586 | storing into the newest n entries and cutting equals storing into everything and cutting |
| `FeatureHistory.SelectionMatchesIff` | src/signalbot/runtime.py:602-621 | selection is strictly earlier than the decision and equals selection from the full history exactly when a retained entry is earlier or no earlier entry is recent |
| `FeatureHistory.BoundedSelectionMissesRecent` | src/signalbot/runtime.py:602-621 | five stores after which the bounded history selects nothing and the full history a recent feature |
| `FeatureHistory.ContextsAreStrictlyEarlier` | src/signalbot/runtime.py:602-621 | in every run each offered context is of a higher interval, strictly earlier, at most two intervals old and the newest such entry of the full history |
| `FeatureHistory.ContextOfferedIff` | src/signalbot/runtime.py:602-621 | in every run a context is offered for an interval exactly when it is a higher one and one of the newest four entries is earlier and at most two intervals old |
| `FeatureHistory.FeatureMemory.StoreFeature` | src/signalbot/runtime.py:574-586 | one store is the step of those runs |
| `UniverseRotation.ReleasedIffConfirmed` | src/signalbot/scanner.py:227-291 | a usable poll releases a rotation exactly when it ends a row of at least the configured number of usable polls, failed and empty polls and failed activations skipped, all showing the same changed signature with no active PAPER symbol leaving and no reset in between |
| `UniverseRotation.ConfirmationsAreBacked` | src/signalbot/scanner.py:227-291 | in every run the counter equals the length of such a row |
| `UniverseRotation.AgreementIsCounted` | src/signalbot/scanner.py:227-291 | every such row is counted in full |
| `UniverseRotation.UniverseIsLastShown` | src/signalbot/scanner.py:227-335 | in every run the universe in force is that of the last activation or usable poll of the same tradable and context symbols, and the runtime's is the last one it was told |
| `UniverseRotation.RuntimeKnowsUniverse` | src/signalbot/scanner.py:227-335 | only a failed activation parts the universe the runtime knows from the one in force |
| `UniverseRotation.MarketScanner.PollUniverseCandidate` | src/signalbot/scanner.py:227-291 | one poll is the step of those runs, refreshing surveillance when only that changed |
| `UniverseRotation.MarketScanner.ActivateUniverse` | src/signalbot/scanner.py:293-335 | activation tells the runtime first; when loading fails the universe and the confirmation stay as they were, otherwise the universe is installed and the confirmation reset |
| `ContextCursor.CursorIsMonotoneAndFunctional` | src/position_guardian/runtime.py:148-253 | over every sequence of calls, the stored row being put in doubt at any point, the accepted close times never decrease and, across the whole history, close times and context ids determine each other; the stored row is the last accepted context |
| `ContextCursor.DoubtStopsTheStream` | src/position_guardian/runtime.py:153-175 | once the stored row is uncertain or unparsable no later call is accepted and the row stays |
| `ContextCursor.CursorNeverRegresses` | src/position_guardian/runtime.py:148-253 | a longer run never moves the stored close time back |
| `ContextCursor.AcceptedIffNewOrRepeated` | src/position_guardian/runtime.py:131-253 | over every history a call is accepted if and only if its context is in every respect what was asked for, the stored row was never put in doubt, and it repeats the last accepted context or is newer under an id never accepted before; it adds an event in the second case only |
| `ContextCursor.RejectedIffFirstFault` | src/position_guardian/context_client.py:152-253 | a context is refused for a reason exactly when that check is the first of the twelve to fail |
| `ContextCursor.CursorRepository.PlanShadowOnce` | src/position_guardian/runtime.py:131-253 | one call is the planning step: refusals, an uncertain or unparsable cursor among them, and failures leave the stream unchanged, a replay inserts nothing |
| `RollingWindow.ProfileStream` | scripts/oci_capture/replay_capture_queue.py:216-232 | the peaks equal the maximum number and total size of records over every 10,000 ms window, for records in any order and with equal times |
| `RollingWindow.MaxDequeIsPeak` | scripts/oci_capture/replay_capture_queue.py:216-232 | the largest deque measures exactly the busiest window |
| `RollingWindow.Evict` | scripts/oci_capture/replay_capture_queue.py:228-230 | the inner loop leaves exactly the records at most 9,999 ms old, and their bytes |
| `RollingWindow.WindowOfSort` | scripts/oci_capture/replay_capture_queue.py:216-232 | sorting does not change what any window holds |
| `StorageMath.QuotaSafeIffGateMet` | tools/oci_phase_p_storage_math.py:196-248 | no ingestion within the conservative rate over the gate hours and no finalisation within the bounds exceeds the quota less the margin, if and only if the gate is met and the quota is not already exceeded |
| `StorageMath.GateMetOverQuota` | tools/oci_phase_p_storage_math.py:196-248 | a concrete over-quota input whose gate is met |
| `StorageMath.GreenIffSafe` | tools/oci_phase_p_storage_math.py:196-248 | within quota, GREEN means exactly that nothing within the rates and bounds breaks the quota less the margin or the emergency floor of the root filesystem |
| `StorageMath.RootSafeIffGateMet` | tools/oci_phase_p_storage_math.py:227-237 | the root gate answers exactly when a root rate is known and is met exactly when growth within it leaves the floor free |
| `StorageMath.RejectsIff` | tools/oci_phase_p_storage_math.py:208-219 | the gates refuse exactly a negative input |
| `StorageMath.SplittingNeverLowersReserve` | tools/oci_phase_p_storage_math.py:50-74 | splitting one partial's bytes over any number of partials never lowers the reserve |
| `StorageMath.DeterministicFinalizeReserve` | tools/oci_phase_p_storage_math.py:50-74 | the loop raises exactly on a negative partial or a bound that is not positive, and otherwise adds up the bound of every non-empty partial |
| `StorageMath.ConservativeGrowthRate` | tools/oci_phase_p_storage_math.py:177-193 | the nested loop returns the greatest rate over all same-surface pairs at least 45 minutes apart, or nothing when there is none |
| `StorageMath.GrowthRateMeans` | tools/oci_phase_p_storage_math.py:177-193 | a pair counts exactly when it shares a surface and lies 45 minutes apart, and its rate is the hourly growth, never negative |
| `StorageMath.MaxRateIsOrderFree` | tools/oci_phase_p_storage_math.py:177-193 | the rate does not depend on order or repetition of samples |
| `StorageMath.MaxRateNeverFalls` | tools/oci_phase_p_storage_math.py:177-193 | adding samples never lowers the rate |
| `StorageMath.P95IsNearestRank` | tools/oci_phase_p_storage_math.py:85-89 | for three or more values the result is the smallest value that at least 95 percent do not exceed |
| `StorageMath.ConservativeRateCoversCandidates` | tools/oci_phase_p_storage_math.py:92-174 | rates exist exactly for a capture after activation with no negative partial; the conservative rate is a candidate and at least every candidate, and missing only when none is positive |
| `StorageMath.RatesMeasure` | tools/oci_phase_p_storage_math.py:92-134 | the whole, recent and healthy rates are the hourly share of exactly the bytes they should count over exactly their time |
| `StorageMath.TapeP95IsNearestRank` | tools/oci_phase_p_storage_math.py:135-153 | the p95 candidate is present exactly when the segments have three complete twelve-bucket hours, and is the nearest rank over their byte totals, one for each complete hour |
| `StorageMath.WindowTotalsAreComplete` | tools/oci_phase_p_storage_math.py:135-153 | the window totals are, one for one and in time order, the bytes of the segments of exactly the complete hours |
| `StorageMath.HourlyTotals` | tools/oci_phase_p_storage_math.py:135-153 | the loops over the bucket dictionary and the sorted terminals compute those totals |
| `StorageMath.KeySumIsBytes` | tools/oci_phase_p_storage_math.py:135-153 | adding up per-bucket totals over a range is adding up the segments of the range |
| `ReceiptChain.BuiltChainAcceptedIff` | tools/oci_dbfree_health.py:333-366 | repeated building succeeds and satisfies the independent verifier exactly when the captures rise in time and in name order; latest-only mode then accepts too |
| `ReceiptChain.EqualWidthIsInOrder` | tools/oci_dbfree_health.py:333-339 | increasing capture times of equal width are in order |
| `ReceiptChain.BuildAllProduces` | tools/oci_dbfree_health.py:247-260 | while names come in order no build fails and each receipt links to the one before |
| `ReceiptChain.BuildContinuesIff` | tools/oci_dbfree_health.py:247-260 | the producer can go on from a built chain exactly when its names came in order |
| `ReceiptChain.OutOfOrderNameIsRejected` | tools/oci_dbfree_health.py:247-260 | a receipt whose name sorts before the last one breaks the chain for producer and verifier, and no later build succeeds |
| `ReceiptChain.NineThenTenIsRejected` | tools/oci_dbfree_health.py:333-339 | captures at 9 and 10 increase and their chain is refused |
| `ReceiptChain.FullIffSound` | tools/verify_oci_dbfree_health.py:77-106 | the verifier accepts exactly the chains whose records are valid, linked, rising in time, of one campaign and source, with distinct ids |
| `ReceiptChain.FullImpliesLatest` | tools/verify_oci_dbfree_health.py:77-106 | for every directory, acceptance of the full chain implies acceptance in latest-only mode |
| `ReceiptChain.LatestIff` | tools/verify_oci_dbfree_health.py:77-106 | with more than two receipts, latest-only mode accepts exactly when the last two are consistent, of one campaign and source under different ids, and follow each other and the one before in digest and time |
| `ReceiptChain.BuildOutcome` | tools/oci_dbfree_health.py:244-260 | a build fails exactly when some receipt does not read back or the name is taken; otherwise one receipt is added, at its place in name order, consistent in itself and naming the digest of the last file |
| `ReceiptChain.DecimalReadsBack` | tools/oci_dbfree_health.py:333-339 | a capture time can be read back from its file name |
| `ReceiptChain.VerifyReceipts` | tools/verify_oci_dbfree_health.py:77-106 | the verifier's loop decides acceptance in either mode |

## Left out

- Parsing of user-stream payloads and the canonical JSON behind event ids; a raw payload is a parsed event or none.
- Sessions of another buffer with equal fields; a session is compared by value.
- The recent samples and root samples kept in the FAST state file, freshness, and the sizes of active partials: they do not enter the totals.
- Manifest names are ranks in name order, and the data file a manifest falls back to is part of its payload.
- The full scan's own errors about partials; an error-free FAST run has none.
- Alert message texts, the attempt ledger, response codes and message ids of a delivery result, payload rendering, `Retry-After` and sleeping, and the batch limit of `dispatch_pending`.
- Adoption of a position and the publishing of snapshot state; a ledger may hold any adopted projection.
- Decimal context rounding in quantities and float rounding in rates: arithmetic is exact.
- A rejection for order without a projection raises and leaves no durable event; it is the error outcome of the reconcile step, and the alert agreement then has nothing to compare.
- Rollback renames that fail themselves; like a kill they leave directories in quarantine.
- The archive, upload and remote check behind a verified bundle, the file count and tar digest in its receipt, and file ownership and symlink checks.
- A failing write of the live candle itself, which raises after the candle was stored; concurrent writers on one candle series; the stop event of the pagination loop; bootstrap into a series that already holds candles.
- Planning of the shadow intent itself, which is one failure flag, and the alerts a refused context raises.
- Grouping of records by stream and the per-second and per-minute counters of the profile; they are plain counts.
- StorageMath.ConservativeRateCoversCandidates: the sums behind the whole, recent and healthy rates are recursive functions rather than loops; the loops over buckets are modelled.
- The nested section checks of a receipt are one flag, and what the producer measures is not modelled.
- Indicators, rules, backtests, configuration, command lines, SQL, HTTP, WebSocket and scheduling: plumbing or presentation.
