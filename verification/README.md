# A verified model of the trading worker

The worker receives trading signals, places orders at a broker, and keeps a local table of the
positions it believes are open. The broker changes on its own, every call to it may fail, and several
threads share the table. This project models that core in Dafny and proves what keeps table, broker,
message channel and upstream broker in agreement, and where they are not.

## Structure

| file | what it models |
|---|---|
| `Wrappers`, `Rounding`, `Scans` | optional values; rounding over the reals; jobs that compare each scan with the one before |
| `Repository` | the positions table, its unique index, and the writes checked against it |
| `CycleStatus` | the headline status of a trade's message |
| `Cdc` | publish-then-mark of changed rows, interleaved with any writer |
| `CycleMessages` | one message per trade: recorders, dispatcher, and every interleaving of them |
| `CloseDetector` | closes the terminal made on its own |
| `Reconcile`, `Keys`, `ManualImport` | the two-scan reconciler, its interleavings, how positions are matched to rows, and importing untracked ones |
| `Stops`, `Staleness`, `Sizing`, `MinNotional` | stop validation, drift guard, lot sizing, margin fit, minimum order value |
| `Guard`, `Broker`, `SignalHandler`, `Isolation`, `Processor`, `Exits`, `Tp1Exits`, `Outcomes` | one signal from guard to table, whole runs of signals, row against broker after an exit, and each signal's outcome column by column |
| `Replay` | replay of signals after a handshake |
| `AdminFlat` | the administrator's FLAT |
| `CryptoStops` | stop protection on an exchange |
| `EnvText`, `EnvFile` | parsing and re-writing the dotenv file |

Objects whose methods change state are classes, and each such method is proved equal to a function of
the state it found; the main theorems are lemmas about those functions, over every run, interleaving
and pattern of failing calls. A pattern of failures is a function from the number of a call to its
outcome; the guarantees are for all of them, and only the lemmas that exhibit a failure or describe a
filled order fix one.

`dafny verify dfyconfig.toml` checks the whole project.

## Assumptions

- A stored reference is a broker ticket's text or some other tag, and no tag reads like a ticket.
- A broker ticket is never reused; a position keeps its ticket when a part of it is closed; an order
  that is not filled changes nothing. The broker does not move while one signal is processed, and moves
  arbitrarily between signals.
- `Cdc` assumes that an update's stamp is later than the stamp of every row it touches, and shows what
  happens otherwise. `Processor.AdmittedEntryReplacesNothing` assumes that the symbol lookup and the
  magic map tell the open rows apart. `ManualImport` assumes that live symbols resolve to themselves and that
  no other thread opens rows under the MANUAL strategy.
- An event's uxid is the row's; in the code it is read from the stored message. The order that closes a
  position in an administrator's FLAT is named by the position's id.
- Numbers are reals: the epsilon and half-even rounding are explicit, binary floating point is not.

## Where the code does less than it says

Each of these is a lemma here, most of them with the exact condition under which the promise holds.

- Stamps have one-second grain, so a row closed in the second it was published in stays unreported
  (`Cdc.SameSecondCloseIsLost`).
- Recording an event and storing its text are two transactions; a poll between them leaves the chat on
  the old text until the trade's next event, if there is one (`CycleMessages.PollInsideRecordLosesTheUpdate`).
  So does a text write that fails: it is logged and the report still counts as recorded
  (`CycleMessages.DeliveryIsCurrentIff`, `CycleMessages.QuietTextIsCompleteIff`).
- The TP1 failsafe reaches sibling positions (`Isolation.Tp1SparesSiblingsIff`).
- With both toggles off, a failed FLAT is retried over every magic the worker owns
  (`Isolation.DefaultFlatIsolatedIff`), and one that finds no row of its key marks the row of the first position
  it closed, whosever it is (`Outcomes.FlatOutcome`).
- A FLAT signal whose close fails marks its row FLATTED while the position is live
  (`Exits.FlatFlattensRegardless`); its log line says the position was not found.
- Without a uxid, TP2, SL and R_SL close the row when any sibling's order is filled, so a row can be closed
  while its position is live (`Exits.ExitInStepIff`), and the lookup force-closes the rows of sibling
  signals without touching their positions (`Exits.LookupForceClosesSiblings`).
- After a refused breakeven stop the failsafe reports success when any of the strategy's positions on the
  symbol was closed, so the row can be FORCED_CLOSED while its own position is live
  (`Tp1Exits.ForcedClosedWhileLive`, `Tp1Exits.Tp1InStepIff`).
- A TP1 that closes the whole position leaves its row at TP1, which is active (`Tp1Exits.Tp1RowWithoutPosition`),
  and moves the stop of a sibling (`Isolation.Tp1NarrowBeforeFailsafeIff`).
- Without a uxid TP1 takes the first position listed, whatever row it is written to (`Tp1Exits.Tp1InStepIff`).
- In hedge mode a breakeven move strips the other leg's stop, a close succeeds with one leg left, and an
  administrator's FLAT can flatten the row of a live leg (`CryptoStops.OtherLegIsStripped`,
  `CryptoStops.SuccessMeansProtectedIff`, `AdminFlat.HedgedRowIsNotHonest`).
- On an exchange, an exception after a fill or after the stops were cancelled leaves a naked position and no
  result (`CryptoStops.EntryRaisesNakedIff`, `CryptoStops.Tp1RaisesNakedIff`).
- A position in another quote asset is imported, closed in the table while live, and imported again
  (`Keys.UnstableSymbolIsClosedWhileLive`).
- With several positions per slot a missed close stays hidden while a sibling is live
  (`Keys.ForexStaleIff`).
- Lots are rounded to two decimals, which breaks the risk bound for a step such as 0.025
  (`Sizing.RiskBoundIff`, `Sizing.OffGridStepExceedsRisk`); the stop validator speaks of a distance of at least the minimum
  where its comparison is strict.
- The dotenv initializer resets a quoted menu value (`EnvFile.QuotedMarketTypeIsReset`). A key assigned
  twice keeps its value, but a second run may change its lines (`EnvFile.RepeatedKeyIsNotFixed`), although
  the module's documentation says every key is written exactly once.

## Model

| member | source | states |
|---|---|---|
| Repository.InsertSucceedsIff | worker/db/schema.py:183-187 | An insert is accepted exactly when the table with the new row has at most one active row per (strategy, symbol, uxid or empty) |
| Repository.UpdateSucceedsIff | worker/db/repository.py:267-308 | A status update is accepted exactly when the rewritten table satisfies the index; a refused one leaves the table, and the index, as they were |
| Repository.LateUpdateReopensIff | worker/db/repository.py:281-293 | The update has no guard on the old status: a late TP1 reopens a closed row exactly when no other active row holds its key |
| Repository.MatchesIff | worker/db/repository.py:445-480 | A query returns an open row exactly when it agrees with every filter that was given |
| Repository.MarkOutcome | worker/db/repository.py:356-378 | Only a row still pending under the stamp that was read is published; any other keeps its publication as it was |
| Repository.OpenIff | worker/db/repository.py:445-480 | The active-row queries return exactly the rows matching every filter that was given |
| Repository.OpenIsSingle | worker/db/repository.py:380-404 | Under a full key (uxid included) at most one active row is found |
| Repository.PositionRepository.InsertPosition | worker/db/repository.py:113-213 | Stores the row or raises, and keeps the one-active-row index |
| Repository.PositionRepository.UpdatePositionStatus | worker/db/repository.py:267-320 | Rewrites every row with the reference (missing values keep the old ones), or raises with nothing changed |
| Repository.PositionRepository.MarkPositionSynced | worker/db/repository.py:356-378 | Publishes a row only if it is still pending under the stamp that was read |
| CycleStatus.FoldIsHeadline | worker/schemas/cycle_schema.py:97-138 | Folding any history of statuses gives the first terminal one, else the last live one, else the last refusal, else none |
| CycleStatus.ClosedIsFinal | worker/schemas/cycle_schema.py:97-138 | A closed headline is never changed by anything appended later |
| Cdc.StepKeeps | worker/jobs/cdc_job.py:109-157 | One step of the publisher or of any other thread keeps the invariant, if an update's stamp is later than the row's |
| Cdc.NoUpdateIsLost | worker/jobs/cdc_job.py:109-157 | Over every interleaving with moving stamps, for every PUBLISHED row an event with its id was sent that agrees with the row as it is now on every column it carries, and a row's events are CREATED ones then UPDATED ones |
| Cdc.NoUpdateIsLostFromStart | worker/jobs/cdc_job.py:109-157 | The same from an empty table, where also the first event of every row is a CREATED one |
| Cdc.OvertakenUpdateSurvivesIff | worker/db/repository.py:356-378 | Any accepted update landing between the read and the mark, before or after the publish, is not lost exactly when its stamp differs from the one read, it changes no column an event carries, or those columns were already sent |
| Cdc.SameSecondCloseIsLost | worker/db/repository.py:291-291 | With one-second stamps the promise fails: from an empty table, a row inserted, read, closed and marked in one second is PUBLISHED with the close never sent |
| Cdc.QuietPollDrains | worker/jobs/cdc_job.py:109-157 | An undisturbed poll sends each pending row once, in table order, column by column, as CREATED exactly when it was never published, and leaves the whole table published as it was |
| Cdc.AbandonedPollIsOver | worker/jobs/cdc_job.py:99-107 | A poll that raised publishes and marks nothing more |
| Cdc.PositionCdc.Poll | worker/jobs/cdc_job.py:109-157 | The loop is one interleaving of its snapshot, publish and mark steps with whatever other threads write between them |
| Cdc.Interleave | worker/db/repository.py:168-320 | What other threads' inserts and updates do to the table in the meantime |
| CycleMessages.StepKeeps | worker/db/repository.py:617-860 | Every step of recorders and dispatcher, a failing write included, keeps the cycle sound, and neither events, revision, stored text nor any delivered revision goes back |
| CycleMessages.RunKeeps | worker/db/repository.py:617-860 | The same over every run |
| CycleMessages.EveryInterleaving | worker/db/repository.py:697-717 | Stored text and every delivered revision stay at or below the revision; an accepted body write is for the current revision; the text is current exactly when no recorder still carries the newest body and its text write has not failed |
| CycleMessages.QuietTextIsCompleteIff | worker/services/cycle_notification_service.py:89-131 | When all recorders have finished, the stored body holds every event exactly when the newest text write did not fail, and any stored body has the headline its own statuses fold to |
| CycleMessages.PolledBodyIsCurrentIff | worker/db/repository.py:744-784 | A due row carries the body of the revision it will be marked at exactly when no recorder is between its first two writes with the newest body and that body's write has not failed |
| CycleMessages.DeliveredMeansShown | worker/db/repository.py:786-815 | For any number of recorders, any failing writes and every interleaving in which no poll reads a due row while the newest body is not stored, a chat marked delivered at N shows the first N events (after an answer that was never noted, possibly more), under the right headline |
| CycleMessages.WholeRecordsAreSettled | worker/services/cycle_notification_service.py:89-131 | With recording as one step every poll meets that condition |
| CycleMessages.DeliveryIsCurrentIff | worker/jobs/cycle_notification_job.py:82-128 | From any state between polls that the interleavings reach, delivering a due chat marks it at the current revision, and shows it the current timeline exactly when the newest body is stored |
| CycleMessages.PollInsideRecordLosesTheUpdate | worker/services/cycle_notification_service.py:106-122 | Without that hypothesis it fails: a poll between the two transactions leaves a closed trade shown as open, never due again |
| CycleMessages.DeliveryOutcome | worker/jobs/cycle_notification_job.py:82-144 | What each answer does to a chat, noted or not: what it shows, the revision it is marked at, its message id (kept from a first send, forgotten when the message vanished), its attempts, and exactly when it stays due |
| CycleMessages.VanishedIsSentAgain | worker/jobs/cycle_notification_job.py:111-126 | After a vanished message the chat is posted to anew: the next accepted answer is to a first send, and its message id is the one kept |
| CycleMessages.ChatsJoined | worker/db/repository.py:719-742 | The chats of a cycle afterwards: the ones it had as they were, and the named ones, empty entries aside, undelivered |
| CycleMessages.RecordIsItsSteps | worker/services/cycle_notification_service.py:103-122 | An uninterrupted recording is its three transactions one after the other, whichever of the last two fail |
| CycleMessages.WholeRecordIsOneStep | worker/services/cycle_notification_service.py:89-131 | When all three commit it is the one atomic step |
| CycleMessages.UnnotedOutcome | worker/jobs/cycle_notification_job.py:74-80 | A note that fails leaves the rest of the poll to do, a crash nothing, and either leaves the answer unnoted |
| CycleMessages.NotificationCycleRepository.AppendCycleEvent | worker/db/repository.py:617-695 | Appends to the cycle of its key alone, creating it on first sight |
| CycleMessages.NotificationCycleRepository.SetCycleMessageText | worker/db/repository.py:697-717 | Stores the body of its key's cycle unless a newer revision exists; a write that fails changes nothing |
| CycleMessages.NotificationCycleRepository.EnsureCycleChats | worker/db/repository.py:719-742 | Adds the missing chats of its key's cycle and keeps the existing ones; a write that fails changes nothing |
| CycleMessages.CycleNotifier.Record | worker/services/cycle_notification_service.py:89-131 | Owns the report exactly when there is a uxid, cycles are on and the append commits, whatever becomes of the other two writes; then only its own key's cycle changes, by what was committed; otherwise nothing is recorded |
| CycleMessages.CycleNotificationJob.Poll | worker/jobs/cycle_notification_job.py:82-144 | Every due chat changes as its own answer and its own note say, no other chat changes, and no timeline, revision or text does |
| Scans.LastSeenIff | worker/gateways/reconcile_job.py:173-181 | What a scan remembers is what the completed scan before it observed, none completed in between |
| Scans.RunIsRunOfCompletedScans | worker/gateways/reconcile_job.py:145-164 | A run compares each completed scan with the completed one before it, however many were skipped |
| CloseDetector.NewestClosing | worker/gateways/forex/mt5/close_detector.py:146-166 | The chosen deal is the first maximum by (time, ticket) among the closing deals; none exactly when there is no closing deal |
| CloseDetector.NewestIsUnique | worker/gateways/forex/mt5/close_detector.py:146-159 | The chosen deal is determined |
| CloseDetector.LaterDealIsNewest | worker/gateways/forex/mt5/close_detector.py:146-159 | A closing deal later than all others by (time, ticket) is the chosen one |
| CloseDetector.OpeningDealDoesNotMatter | worker/gateways/forex/mt5/close_detector.py:146-159 | A deal that opens or reverses never changes the choice |
| CloseDetector.BuildEvent | worker/gateways/forex/mt5/close_detector.py:130-203 | A close is reported exactly when the newest closing deal is a stop, a target, a stop-out or a trader's own, under that reason, with that deal's number and price: the worker's own earlier partial cannot mask it |
| CloseDetector.ExaminedIff | worker/gateways/forex/mt5/close_detector.py:206-257 | A ticket is examined exactly when it was live under an owned magic at one completed scan and gone at the next completed one |
| CloseDetector.ExaminedOncePerVanishing | worker/gateways/forex/mt5/close_detector.py:227-257 | It is not examined twice unless it was live again in between |
| CloseDetector.OfflineScansDoNotMatter | worker/gateways/forex/mt5/close_detector.py:224-233 | Dropping the offline and failed scans changes nothing that is examined |
| CloseDetector.EventsAreIsolated | worker/jobs/mt5_event_job.py:136-152 | A row is closed, with the deal and price of its own last event, exactly when a handler for such an event reached its table write; an event failing before or after its write costs no other row its close |
| CloseDetector.Mt5EventJob.ScanTerminalClosed | worker/gateways/forex/mt5/close_detector.py:206-257 | A completed scan reports one event per vanished ticket that was closed by the terminal and replaces the seen set; an offline or raising one leaves it |
| CloseDetector.Mt5EventJob.HandleAll | worker/jobs/mt5_event_job.py:136-152 | The batch is handled event by event, each exception contained |
| Reconcile.ClosedIff | worker/gateways/reconcile_job.py:166-196 | A row is handed to the close handler exactly when at this scan and at the completed one before its keys are known and none is a live position's, none completed between |
| Reconcile.ImportedIff | worker/gateways/reconcile_job.py:226-281 | A live position is handed to the import handler exactly when at this pass and the one before it shares a key with no open row, a pass with unresolvable keys being skipped |
| Reconcile.FailedCloseIsRetried | worker/gateways/reconcile_job.py:188-196 | A row whose handler failed is handed over again at the next completed scan while it stays stale |
| Reconcile.TrackedPositionIsNeverClosed | worker/gateways/reconcile_job.py:145-196 | For every interleaving of live read, table read, handling, skipped scans, entries and closes: a row whose position was live before insertion and has been since, sharing a key, is never handed to the close handler |
| Reconcile.StepKeeps | worker/gateways/reconcile_job.py:152-181 | The invariant behind it: a suspect was open before the next live read, so that snapshot holds its position |
| Reconcile.FreshEntryIsSuspectedOnce | worker/gateways/reconcile_job.py:152-181 | One scan is not enough: a position filled between the two reads is suspected although it is live throughout |
| Reconcile.QuietScan | worker/gateways/reconcile_job.py:145-196 | The interleaved machine, uninterrupted, is the scan: it suspects the stale rows and hands over those suspected before |
| Reconcile.StaleTwiceIsClosed | worker/gateways/reconcile_job.py:166-196 | Two uninterrupted scans hand over a row exactly when it is stale |
| Reconcile.SkippedScan | worker/gateways/reconcile_job.py:145-151 | A skipped scan changes neither suspects nor closes, and a scan reads the broker once |
| Reconcile.PositionReconcileJob.ReconcileMissedCloses | worker/gateways/reconcile_job.py:166-196 | Hands over one row per confirmed reference, the last stale one, and replaces the suspects by the stale references |
| Reconcile.PositionReconcileJob.CollectStaleRows | worker/gateways/reconcile_job.py:170-175 | The dictionary of stale rows by reference, later rows replacing earlier ones |
| Reconcile.PositionReconcileJob.CollectLiveKeys | worker/gateways/reconcile_job.py:285-290 | The union of the keys of the live positions |
| Reconcile.PositionReconcileJob.ImportUntracked | worker/gateways/reconcile_job.py:226-281 | Hands over the confirmed untracked positions, or does nothing at all when a row's keys cannot be resolved |
| Reconcile.PositionReconcileJob.Scan | worker/gateways/reconcile_job.py:145-164 | Both directions of one scan; an unavailable fetch leaves both suspect sets untouched |
| Reconcile.PositionReconcileJob.RunScans | worker/gateways/reconcile_job.py:135-164 | Over a run, the job hands over exactly what the run's history determines |
| Keys.ResolvesToItselfIff | worker/gateways/crypto/executor.py:64-79 | A symbol resolves to itself exactly when it is upper case without separators and ends with the quote asset |
| Keys.ResolvingIsIdempotent | worker/gateways/crypto/executor.py:64-79 | Resolving twice is resolving once |
| Keys.SymbolIs | worker/gateways/crypto/executor.py:64-79 | Every spelling of a plain symbol (venue prefix, small letters, perpetual suffix) trades under the same one: itself in the quote asset, its base in the quote asset when it ends in USD, else with the quote asset appended |
| Keys.SlashIsDropped | worker/gateways/crypto/executor.py:64-79 | A slash between base and quote makes no difference |
| Keys.ImportIsTrackedIff | worker/gateways/crypto/signal_processor.py:383-434 | An imported position is recognised by its row exactly when its symbol resolves to itself |
| Keys.UnstableSymbolIsClosedWhileLive | worker/gateways/crypto/reconcile_job.py:53-60 | Otherwise two scans close the imported row while the position is live, and import it again |
| Keys.ForeignQuoteIsUnstable | worker/gateways/crypto/executor.py:64-79 | A position quoted in another asset is such a symbol |
| Keys.UntrackedIff | worker/gateways/crypto/reconcile_job.py:48-65 | What the reconciler calls untracked is a position no open row resolves to |
| ManualImport.ImportIsStored | worker/gateways/crypto/signal_processor.py:383-434 | A position handed over from the scan's reads is stored, never refused by the index, and its row is the only active MANUAL one for its symbol, whatever other threads wrote since |
| ManualImport.StepKeeps | worker/gateways/reconcile_job.py:152-164 | Every step keeps the invariant: an active MANUAL row was open when the scan read the table, or the scan imported it |
| ManualImport.StepOutcome | worker/gateways/crypto/signal_processor.py:383-434 | An import adds exactly its own MANUAL row, and a position that was not handed over adds none |
| ManualImport.RunKeepsOneManual | worker/gateways/reconcile_job.py:145-281 | Over every run of scans, imports and other threads' writes, at most one active MANUAL row exists per resolved symbol when live symbols resolve to themselves |
| ManualImport.ReconcilerHandsCandidates | worker/gateways/reconcile_job.py:252-261 | What the reconciler's own run hands over at a scan is a candidate of that scan's reads |
| ManualImport.CryptoImporter.ImportManual | worker/gateways/crypto/signal_processor.py:383-434 | The import loop, other threads writing before each insert: every handed position is stored and is in the table at the end, and one active MANUAL row exists per resolved symbol |
| ManualImport.CryptoImporter.OnMissedClose | worker/gateways/crypto/signal_processor.py:313-356 | Closes every row with the reference and never fails on the index |
| Keys.ForexKeysMatchIff | worker/gateways/forex/reconcile_job.py:147-200 | Row and position share a key exactly by ticket or slot (by bare symbol for an unmapped strategy): the namespaced texts never collide |
| Keys.ForexStaleIff | worker/gateways/forex/reconcile_job.py:147-168 | A mapped row is stale exactly when its ticket is gone and its slot is empty, so a live sibling hides a missed close |
| Stops.ValidStopsClearTheQuote | worker/gateways/forex/stop_validator.py:50-126 | On a usable quote the adjusted stops strictly clear the minimum distance after rounding unless the adjusted level is not positive; none moves nearer; validating twice is validating once |
| Stops.PlacedLevelsClearTheMinimum | worker/gateways/forex/stop_validator.py:72-126 | A level that had to move is placed more than `stopsLevel` points beyond the bid or the ask |
| Stops.UnusableQuoteKeeps | worker/gateways/forex/stop_validator.py:92-118 | Without rules or a usable quote nothing is adjusted |
| Stops.KeepBelowClears | worker/gateways/forex/stop_validator.py:28-69 | One level kept below a limit |
| Stops.KeepAboveClears | worker/gateways/forex/stop_validator.py:28-69 | One level kept above a limit |
| Stops.ClearsEveryLimitIff | worker/gateways/forex/stop_validator.py:28-48 | Adjusted levels clear every limit exactly when a point outweighs the rounding |
| Staleness.AdmittedIsFresh | worker/gateways/guard.py:164-275 | The guard admits exactly the entries whose fill lies strictly between stop and target and within the drift limit in force |
| Staleness.UnreadablePriceAdmits | worker/gateways/guard.py:222-250 | Without a readable price the guard lets the entry pass |
| Rounding.RoundHalfEvenIff | worker/gateways/forex/lot_sizing.py:86-96 | The rounding used: the one integer within a half, and at exactly a half the even one |
| Sizing.RiskBoundIff | worker/gateways/forex/lot_sizing.py:46-96 | The sized lot loses at most the risk cash plus half a volume step at the stop, unless it was raised to the minimum, for every entry, stop, risk and capital, exactly when the last rounding lifts no number of whole steps |
| Sizing.CentGridNeverLifts | worker/gateways/forex/lot_sizing.py:86-96 | It lifts none at steps below a hundredth or with step and limits in whole hundredths |
| Sizing.NeverLiftsKeepsRisk | worker/gateways/forex/lot_sizing.py:59-96 | Then the bound also holds of every smaller lot |
| Sizing.LotRiskBound | worker/gateways/forex/lot_sizing.py:46-96 | On a grid of hundredths the lot also falls short of the risk by no more than half a step, unless cut to the maximum |
| Sizing.OffGridStepExceedsRisk | worker/gateways/forex/lot_sizing.py:91-96 | With a step of 0.025 the two-decimal rounding breaks that bound for some risk |
| Sizing.OffGridStepMayKeepRisk | worker/gateways/forex/lot_sizing.py:91-96 | With a step of 0.024 that is the only lot it is rounded down and the bound holds off the grid |
| Sizing.WiderStopNeverRaisesLot | worker/gateways/forex/executor.py:206-215 | A wider stop never sizes a larger lot |
| Sizing.FittedLotIsBest | worker/gateways/forex/executor.py:393-430 | The fitted lot never exceeds the request, fits the usable margin, and is at least every valid lot that is no larger than the request and fits |
| Sizing.RefusalMeansUnaffordable | worker/gateways/forex/executor.py:407-421 | A refusal means the smallest usable lot does not fit, or the affordable lot is within the epsilon below a grid point |
| Sizing.UnknownMarginKeepsRequest | worker/gateways/forex/executor.py:363-392 | The request stands when nothing tells that it does not fit 95% of the free margin |
| Sizing.QuantityLotBound | worker/gateways/forex/lot_sizing.py:98-143 | A quantity becomes a lot the broker accepts, within one step of the contracts it covers and not above them unless raised to the minimum |
| Sizing.UnsizedQuantity | worker/gateways/forex/lot_sizing.py:98-127 | Without a contract size the quantity is the lot, without rules it is 0.01 |
| Sizing.UnsizedRisk | worker/gateways/forex/lot_sizing.py:46-75 | Without a usable distance or tick the lot is the minimum, without rules it is 0.01 |
| Sizing.RequestedLotIs | worker/gateways/forex/executor.py:266-344 | The lot an entry asks for in each sizing mode, with the mode, the risk and the capital by the precedence of setting, signal and old switch |
| Sizing.OrderIs | worker/gateways/forex/executor.py:181-248 | The order carries the side's own price, the validated levels, the lot asked for and what the margin allows of it; none exactly without a price or a lot |
| Sizing.OrderKeepsRisk | worker/gateways/forex/executor.py:181-248 | Across guard, stop validation, sizing and margin fit on one tick, whatever margin the platform quotes or does not quote, the stop is on the losing side, the fit only lowers the lot, and the order risks at most the configured cash plus half a step at the stop it carries |
| Sizing.OrderTakesBestFit | worker/gateways/forex/executor.py:363-430 | With linear margin on an aligned grid the order takes the best lot that fits |
| Sizing.StopOnLosingSide | worker/gateways/guard.py:222-275 | An entry the stale guard admits carries its validated stop on the losing side of the fill |
| MinNotional.BumpedSteps | worker/gateways/crypto/executor.py:315-346 | A too small order is raised to the needed whole steps, or by one step |
| MinNotional.BumpReachesFloorIff | worker/gateways/crypto/executor.py:333-346 | The raised order misses the minimum value by less than one step's worth, and reaches it exactly when the need is under one step away or a whole number of steps |
| MinNotional.KeptOrRefused | worker/gateways/crypto/executor.py:321-332 | A quantity is kept without a minimum, with enough value or without a positive price, and refused exactly when the price that decides is missing |
| MinNotional.UnsteppedBump | worker/gateways/crypto/executor.py:81-86 | Without a step the raised quantity is the needed one to eight decimals |
| Guard.SymbolOpenRejection | worker/gateways/guard.py:26-95 | Rejects exactly when an active row on the symbol blocks under the toggles, each of which exempts along its own axis only |
| Guard.HeldMeansBlocked | worker/gateways/guard.py:122-138 | The already-held exemption of the cap never applies to an entry the symbol guard let through |
| Guard.AdmittedIsBelowCap | worker/gateways/guard.py:98-145 | An admitted entry saw strictly fewer open rows than a positive cap |
| Guard.AdmittedOwnsNothing | worker/gateways/guard.py:63-95 | An admitted entry finds no row open under its own key |
| Broker.ForexExecutor.ClosePosition | worker/gateways/forex/base.py:181-192 | One close order, whole or partial, filled or not |
| Broker.ForexExecutor.CloseAllPositions | worker/gateways/forex/executor.py:478-535 | One order per addressed position, booked on the first; succeeds when one is filled |
| Broker.ForexExecutor.PartialClosePosition | worker/gateways/forex/executor.py:434-459 | Closes at most what is open of the picked position |
| Broker.ForexExecutor.UpdatePositionSl | worker/gateways/forex/executor.py:461-474 | Moves the stop of the picked position |
| Broker.ForexExecutor.PlaceOrder | worker/gateways/forex/executor.py:228-238 | Opens one position under the strategy's magic with a new ticket, or none |
| Broker.ClosedEachRemoves | worker/gateways/forex/executor.py:508-520 | Exactly the positions whose own order was filled are gone |
| Broker.ClosedEachSucceedsIff | worker/gateways/forex/executor.py:508-535 | A close reports success exactly when at least one order was filled |
| Broker.ClosedAllKeeps | worker/gateways/forex/executor.py:497-535 | A close changes no position it does not address |
| Broker.PickIff | worker/gateways/forex/executor.py:539-546 | Picking finds the ticket exactly when it is listed, and else takes the first position |
| SignalHandler.Handler.GetDbPosition | worker/gateways/signal_handler.py:104-143 | The oldest row of the key, further ones force-closed |
| SignalHandler.Handler.ForceCloseStale | worker/gateways/signal_handler.py:234-265 | One close per ticket; the first failure aborts |
| SignalHandler.Handler.HandleEntry | worker/gateways/signal_handler.py:267-440 | Netting check, stale cleanup, row cleanup and order, in that order |
| SignalHandler.Handler.HandleTp1 | worker/gateways/market_strategy.py:255-347 | Partial close, breakeven stop, and the strategy-wide failsafe |
| SignalHandler.Handler.ExecuteExit | worker/gateways/signal_handler.py:149-202 | Row lookup, live check, and the exit narrowed to the tracked ticket when siblings may exist |
| SignalHandler.Handler.HandleFlat | worker/gateways/signal_handler.py:487-593 | Scoped close, unscoped retry without toggles, and the row synced either way |
| SignalHandler.Handler.Handle | worker/gateways/signal_handler.py:208-228 | Dispatch by action |
| Isolation.MagicIsolation | worker/gateways/forex/executor.py:142-156 | With either toggle on, no signal changes a live position under another magic, whatever fails |
| Isolation.DefaultFlatIsolatedIff | worker/gateways/signal_handler.py:528-558 | With both toggles off, a FLAT spares other magics under every failure pattern exactly when no other strategy of the worker holds the symbol |
| Isolation.RetryReachesForeign | worker/gateways/signal_handler.py:549-558 | Otherwise its unfiltered retry closes them |
| Isolation.TicketIsolation | worker/gateways/signal_handler.py:149-202 | With several positions per symbol and a uxid, entry cleanup, TP2, SL, R_SL and FLAT change only the tracked ticket |
| Isolation.Tp1SparesSiblingsIff | worker/gateways/market_strategy.py:311-327 | A TP1 narrowed to a ticket spares every other position under every failure pattern exactly when it stops before the breakeven move or the strategy holds nothing else on the symbol |
| Isolation.FailsafeReachesSibling | worker/gateways/market_strategy.py:322-327 | The failsafe carries no ticket: a refused breakeven move closes the siblings |
| Isolation.Tp1NarrowBeforeFailsafeIff | worker/gateways/market_strategy.py:255-310 | Up to its failsafe TP1 reaches only its own ticket under every failure pattern, exactly when it does not close the whole position and then move the stop of the first sibling |
| Isolation.HandledKeeps | worker/gateways/signal_handler.py:208-228 | Whatever a signal does, positions outside its strategy and symbol are untouched (a FLAT without toggles excepted) |
| Processor.SignalProcessor.ProcessSignal | worker/gateways/processor.py:365-510 | Guards, handler and persistence of one signal; from a well-formed ledger no write is refused and the ledger stays well formed |
| Outcomes.RefusalIff | worker/gateways/processor.py:574-625 | An entry is refused exactly when an open row keeps it out under the toggles, a positive cap is reached by the open rows, or it is stale; its one trace is then a REJECTED row |
| Outcomes.CapRejectsIff | worker/gateways/guard.py:98-145 | The cap guard on its own: it rejects exactly when a positive cap is reached by the open rows and the entry's own position is not among them |
| Outcomes.EntryOutcome | worker/gateways/signal_handler.py:322-422 | An admitted entry, column by column: its order is numbered after those that clear the strategy's positions on the symbol (none under a uxid) and goes out when there was nothing to clear or one of them was filled; row and position appear together exactly when it is filled; a cleared position is gone exactly when its own order was |
| Outcomes.ReplacingEntryOutcome | worker/gateways/signal_handler.py:267-440 | The handler's entry when rows of its own key are open: refused when another strategy holds the symbol, else its position is cleared first, and only when that succeeds its rows are force-closed and its order is sent |
| Outcomes.ExitOutcome | worker/gateways/signal_handler.py:149-202 | TP2, SL and R_SL, column by column: nothing without an open row of the key; else the oldest one gets the action's own status and the last filled order exactly when some order was filled, a position is gone exactly when its own was, and further rows of the key are force-closed |
| Outcomes.FlatOutcome | worker/gateways/signal_handler.py:487-593 | FLAT, column by column, with its retry over every owned magic: the oldest row of the key is FLATTED either way, and without one the rows carrying the first closed ticket are |
| Outcomes.Tp1Outcome | worker/gateways/market_strategy.py:255-347 | TP1, column by column: the first addressed position is reduced or closed, the stop goes to it or when it is gone to the first one still held, a refused stop closes everything held, and the row becomes TP1 or FORCED_CLOSED accordingly |
| Processor.SignalKeepsLedger | worker/gateways/processor.py:512-572 | In every combination of toggles a signal keeps one active row per key, and its own insert or update is never refused |
| Processor.RunKeepsOneActive | worker/db/schema.py:183-187 | So over every run, while the broker moves, other jobs close rows and settings change |
| Processor.AdmittedEntryReplacesNothing | worker/gateways/signal_handler.py:322-422 | An entry that passes the guards changes no row and no tracked position, given that symbols and magics tell the open rows apart |
| Processor.AdmittedInsertSucceeds | worker/gateways/processor.py:535-551 | Its row is always inserted |
| Processor.EntryRowMeansPosition | worker/gateways/processor.py:535-551 | An admitted entry ends as one new row tracking one new position opened as planned (symbol, magic, volume, price, stop), or adds neither; `Outcomes.EntryOutcome` says when |
| Tp1Exits.Tp1InStepIff | worker/gateways/market_strategy.py:255-347 | In every mode: after TP1 the row is active exactly when something of its position is live, under every failure pattern, exactly when TP1 is not sized; or it takes a part of the row's own position and moves no stop or the strategy holds nothing else on the symbol; or it takes another position and moves no stop or closes that one whole and it is the only other |
| Tp1Exits.ForcedClosedWhileLive | worker/gateways/processor.py:555-572 | Under a uxid with a sibling, a refused breakeven stop can end with the row FORCED_CLOSED and its reduced position live |
| Tp1Exits.Tp1RowWithoutPosition | worker/gateways/forex/executor.py:447-459 | Under a uxid, a TP1 that covers the whole position closes it and leaves the row at TP1, which is active |
| Tp1Exits.Tp1Status | worker/gateways/processor.py:552-572 | In every mode the row is untouched by a failed TP1, FORCED_CLOSED when the failsafe reports success, and TP1 otherwise |
| Exits.Tp1LeavesRunnerAtBreakeven | worker/gateways/market_strategy.py:255-310 | When both orders of a breakeven TP1 are filled, it leaves the rest of the first position listed with its stop at the entry price and every other position as it was |
| Processor.SignalKeepsCap | worker/gateways/guard.py:98-145 | Only an admitted entry adds an open row, one, and under a positive cap never beyond it |
| Processor.RunStaysUnderCap | worker/gateways/processor.py:1449-1470 | Over every run of positive caps the open rows never exceed the larger of the start and the largest cap |
| Exits.ExitOutcome | worker/gateways/signal_handler.py:149-202 | In every mode, TP2, SL and R_SL close the row exactly when some addressed order was filled, while its position is gone exactly when its own was |
| Exits.ExitInStepIff | worker/gateways/signal_handler.py:188-202 | So row and position stay in step under every failure pattern exactly when a uxid narrows the exit or the strategy holds nothing else on the symbol |
| Exits.ExitFollowsTheBroker | worker/gateways/signal_handler.py:149-202 | Under a uxid, an unfilled exit changes no row and a filled one closes its own |
| Exits.LookupForceClosesSiblings | worker/gateways/signal_handler.py:104-143 | Without a uxid the lookup force-closes the rows of sibling signals on the symbol, touching no position |
| Exits.FlatFlattensRegardless | worker/gateways/signal_handler.py:487-593 | In every mode a FLAT marks its row FLATTED even when its close fails: the row is really flat exactly when the position's own order is filled, in the first pass or in the unfiltered retry |
| Processor.HeadlineMatchesRow | worker/gateways/processor.py:1717-1741 | After a successful signal the message's headline and the row's status agree |
| Processor.HeadlineIs | worker/gateways/processor.py:1717-1741 | A failed action's headline is FAILED, a filled entry's OPENED, an exit's final unless it was a TP1 without an emergency close |
| Processor.EventOutcome | worker/gateways/processor.py:365-400 | One event of a run: a signal without a magic is skipped, a mapped one processed under the settings of the moment, every other event changes its own part alone |
| Replay.ReplayIsAtMostOnce | worker/gateways/processor.py:1548-1600 | Over any run of live signals and acknowledgements, an id whose handling was logged, whether or not persisting it then failed, is never handled again by replay |
| Replay.ProcessOutcome | worker/gateways/processor.py:365-510 | What one signal leaves: its id in the log exactly when it got past the gate and its row was written, and one call of the handler exactly when it also was not refused |
| Replay.LiveIsNeverReplayed | worker/db/repository.py:417-443 | A live signal that got past the gate and wrote its log row is logged after every later run, and every later replay of its id changes nothing |
| Replay.ReplayedIsNeverReplayed | worker/gateways/processor.py:1563-1600 | So is a replayed one, in the rest of its batch and after every later run |
| Replay.ReplayExecutesIff | worker/gateways/processor.py:1566-1600 | A replayed signal is handled, as a replay, exactly when its id is not logged, it is at most a minute old, unblocked, mapped and not refused; a barred one leaves nothing |
| Replay.RestoredBlockStopsBatch | worker/gateways/processor.py:365-382 | While signals are blocked a batch handles and logs nothing |
| Replay.BlockedAckReplaysNothing | worker/gateways/processor.py:1405-1422 | A block restored by the acknowledgement stops that acknowledgement's whole batch |
| Replay.AckOutcome | worker/gateways/processor.py:1405-1422 | An acknowledgement applies the pushed block and strategies first and then, unless the replay is held back, its batch |
| Replay.BatchIsOneByOne | worker/gateways/processor.py:1563-1600 | A batch is replayed one by one, each signal seeing what those before it logged |
| Replay.TallyCounts | worker/gateways/processor.py:1561-1617 | Each counter counts what it says, by the state in which each signal's turn came |
| Replay.TallyAccountsForAll | worker/gateways/processor.py:1563-1617 | The four counters account for every signal of the batch, a signal that fails after its log row included, and bound the handled ones |
| Replay.SignalReplay.ApplyRetrySignals | worker/gateways/processor.py:1548-1617 | The loop over the batch, with its counters |
| AdminFlat.FlatIsHonestIff | worker/gateways/processor.py:950-1030 | For every pattern of failing closes a row marked FLATTED has no key left live, exactly when the FLAT closes every live position under the row's keys and there is at most one |
| AdminFlat.HedgedRowIsNotHonest | worker/gateways/crypto/signal_processor.py:448-454 | Two legs of a symbol share the crypto key, so their row can be flattened with one leg live |
| AdminFlat.TicketFlatIsHonestIff | worker/gateways/forex/signal_processor.py:529-541 | With FOREX tickets as keys a flattened row is really flat exactly when the FLAT closes every live position the row names and its two references do not name two of them |
| AdminFlat.TicketFlatIsHonest | worker/gateways/forex/signal_processor.py:529-541 | So it always is when the row's other reference is its own ticket or an order's number and its position is among those closed |
| AdminFlat.LiveRowStaysOpen | worker/gateways/processor.py:1022-1030 | A selected row with a position left live under its keys stays open |
| AdminFlat.FlatOutcome | worker/gateways/processor.py:950-1030 | What a whole FLAT leaves of a row: outside the filter unchanged, entry message kept, and open exactly when its position is still live |
| AdminFlat.AttemptedIsLive | worker/gateways/processor.py:1022-1030 | A row is left open only if one of its positions is live |
| AdminFlat.FlatProcessor.CloseLivePositionsForFlat | worker/gateways/processor.py:889-948 | Fills the closed and attempted keys, with the last order that closed each, and removes exactly the positions that closed |
| AdminFlat.FlatProcessor.ReconcileFlatDb | worker/gateways/processor.py:950-1030 | Rewrites exactly the rows sharing the reference of a selected row that closed or was never live, and writes the order of a close of its own to those that closed |
| AdminFlat.FlatProcessor.Flat | worker/gateways/processor.py:771-808 | A position is gone exactly when the directive selects it, its close succeeds and, with a reference, some open row the query selects is recognised in it; a row is flattened exactly when a selected row under its reference had such a close or nothing tried |
| AdminFlat.ChosenIff | worker/gateways/processor.py:904-912 | The positions tried, by table indices: a reference narrows them to those of the rows the query selects |
| CryptoStops.EntryIsAccounted | worker/gateways/crypto/executor.py:137-206 | An entry with a stop that returns leaves the symbol flat, protected, or flagged, in either position mode |
| CryptoStops.EntryRaisesNakedIff | worker/gateways/crypto/executor.py:160-206 | An entry that ends in an exception leaves a naked leg exactly when its order was filled without a stop already covering it, and the stop raised or was refused with the rollback raising |
| CryptoStops.UnfilledEntryOutcome | worker/gateways/crypto/executor.py:137-171 | Nothing is sent without a quantity, and an order that is not filled changes nothing |
| CryptoStops.FilledEntryOutcome | worker/gateways/crypto/executor.py:173-206 | A filled entry, call by call: legs, stops, number of calls and result, for every answer of its stop and target |
| CryptoStops.RolledBackEntryOutcome | worker/gateways/crypto/executor.py:371-416 | A refused stop is answered by a reduce-only order: the entry has failed, and is flagged exactly when that order or the leg it should reduce is missing |
| CryptoStops.Tp1AccountedIff | worker/gateways/market_strategy.py:255-347 | A TP1 that returns leaves the symbol flat, protected or flagged under every failure pattern, exactly when it does not reduce one of two live legs: in one-way mode always |
| CryptoStops.OtherLegIsStripped | worker/gateways/crypto/executor.py:481-486 | In hedge mode even an entirely successful breakeven move leaves the other leg without a stop |
| CryptoStops.SuccessMeansProtectedIff | worker/gateways/crypto/executor.py:582-618 | A full close that reports success leaves the symbol protected under every failure pattern exactly with one leg |
| CryptoStops.CloseOutcome | worker/gateways/crypto/executor.py:558-618 | A full close, call by call, for every answer: which legs and stops are left, how many calls were made, and the result |
| CryptoStops.StopOutcome | worker/gateways/crypto/executor.py:459-496 | A stop move, call by call: which stops are left, for the addressed leg or the other one when it is gone, and the result |
| CryptoStops.PartialOutcome | worker/gateways/crypto/executor.py:420-457 | A partial close, call by call: at most what is open, on the exchange's grid |
| CryptoStops.Tp1Outcome | worker/gateways/market_strategy.py:255-347 | TP1 takes the first leg, and what it reports is determined by its own three steps; the emergency close runs exactly when the stop is refused |
| CryptoStops.Tp1Returns | worker/gateways/market_strategy.py:255-347 | Without an exception TP1 has a result |
| CryptoStops.Tp1RaisesNakedIff | worker/gateways/crypto/executor.py:459-496 | With one leg, a TP1 that ends in an exception leaves it naked exactly when it left a runner, a cancellation took effect, and the stop raised or was refused with the failsafe raising before its fill |
| CryptoStops.RaiseLeavesNaked | worker/gateways/crypto/executor.py:575-586 | One such pattern: the stop is refused and reading positions for the failsafe raises |
| CryptoStops.CryptoExecutor.OpenPosition | worker/gateways/crypto/executor.py:137-206 | Entry, stop, rollback and take-profit, call by call |
| CryptoStops.CryptoExecutor.PartialClosePosition | worker/gateways/crypto/executor.py:420-457 | Partial close, call by call |
| CryptoStops.CryptoExecutor.UpdatePositionSl | worker/gateways/crypto/executor.py:459-496 | Cancel everything, then the stop, then the stored target |
| CryptoStops.CryptoExecutor.CloseAllPositions | worker/gateways/crypto/executor.py:558-618 | Cancel, then one reduce-only order per leg |
| CryptoStops.CryptoExecutor.HandleTp1 | worker/gateways/market_strategy.py:255-347 | TP1 over those operations |
| EnvText.SplitFits | scripts/init_env.py:158-179 | Every split yields a value and comment that can be printed and read back |
| EnvText.IsSpaceIff | scripts/init_env.py:158-179 | White space, code point by code point |
| EnvText.WrittenIs | scripts/init_env.py:269-274 | What is written under an always-quoted key begins and ends with one kind of quote: the value's own or an added pair |
| EnvText.SplitPrintRoundTrip | scripts/init_env.py:269-274 | For every text, splitting, printing under a non-quoted key and splitting again gives the same value and comment |
| EnvText.QuotedRoundTripIff | scripts/init_env.py:269-274 | Under an always-quoted key it does so, up to the added quotes, exactly when the value holds no stray double quote |
| EnvText.CommentReadsBackIff | scripts/init_env.py:158-179 | A comment is read back from beside any value exactly when the value does not open a quote the comment closes |
| EnvText.CrossedCommentChangesValue | scripts/init_env.py:277-299 | A value printed with another line's comment can read back as something else |
| EnvFile.ParseEnv | scripts/init_env.py:182-200 | The entries line by line, and the map of last assignments |
| EnvFile.NamedLineIsAssignment | scripts/init_env.py:182-200 | A line whose first equals sign follows an ASCII name is an assignment of the rest, split into value and comment |
| EnvFile.OtherLineIsRaw | scripts/init_env.py:182-200 | Any other line is kept as it is |
| EnvFile.DropKeepsText | scripts/init_env.py:277-299 | Trailing blank lines are dropped and nothing else |
| EnvFile.RenderFile | scripts/init_env.py:277-299 | The updated entries, then the header and the new keys |
| EnvFile.HeaderIsComments | scripts/init_env.py:290-294 | The header written before new keys is comments only, as the round-trip results need |
| EnvFile.ChosenIsWrittenIff | scripts/init_env.py:277-322 | In any file, however often it assigns its keys, a known key gets the value that was chosen exactly when that value holds no stray quote under an always-quoted key |
| EnvFile.RerunKeepsValues | scripts/init_env.py:277-322 | With no stray quotes, a run accepting every default gives every key of the edited file its value up to quoting and menu choice, and adds each missing template key and no other |
| EnvFile.RerunIsFixedPointIff | scripts/init_env.py:277-322 | In any file, a second such run changes no line exactly when every assignment reads back whole: its chosen value holds no stray quote and does not open a quote its comment closes |
| EnvFile.RerunIsFixedPoint | scripts/init_env.py:277-322 | With distinct keys and no stray quote that is always so |
| EnvFile.RepeatedKeyIsNotFixed | scripts/init_env.py:277-322 | A file that assigns a key twice, without a stray quote, that the second run changes |
| EnvFile.ValueSurvivesIff | scripts/init_env.py:225-249 | A value survives exactly when it is not an off-menu value of a menu key, which becomes FOREX or VERBOSE |
| EnvFile.QuotedMarketTypeIsReset | scripts/init_env.py:225-229 | A quoted market type is off the menu and is reset to the first choice |

## Left out

- Telegram, HTTP, NATS, Binance REST and websocket code, MT5 process control, worker/gateways/forex/mt5/gateway.py: not part of this model; the abstract gateway contracts take their place.
- Handled: an exception out of a FOREX broker call is not modelled, a failing call returns a failed result; exceptions are modelled for exchange calls (`CryptoStops`), replayed signals, handlers and scans.
- Processed: comments, return codes, prices, PnL and log rows are not modelled; entry volume, price and stop and the volume TP1 closes arrive as inputs, which `Sizing` and `Stops` compute.
- Processed: the crypto market's path through the signal handler; its executor is modelled for one symbol in `CryptoStops`, its toggles are always off.
- FlatProcessor.ReconcileFlatDb: the closing price a flattened row gets.
- Processed: two signals at once; one signal is one step of a run.
- Open: a failing SELECT returns no rows in the code; reads are total here.
- AppendEvent: a corrupt events column.
- DueRows: which due rows a poll picks (limit, backoff time) is left to the run, as any list.
- Upper: case mapping beyond ASCII letters.
- Rerun: the byte layer (line endings, the backup copy), and answers other than accepting the default.
- ReplayOne: the age of a signal is an input; the handshake's own retries are not modelled.
- The exchange's own close events, leverage setup, watchdogs, the health thread and the notification outbox: short members with little to prove.
- Message presenters, icons, footers and logging: text only.
- Settings parsing and the validation of incoming payloads: one-branch facts.
- IEEE floating point.
