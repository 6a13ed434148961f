# Verification of the expense bot's core

A Dafny 4.11 model of the protocols and calculations at the heart of the PostgreSQL-backed expense bot, with proofs.
`dafny verify dfyconfig.toml` checks the whole project.

## What is modelled

**The durable work queue.** `WorkQueue` has the `jobs` table, each job with its attempt rows, and what every transaction does to
one row. `ClaimProtocol` interleaves any number of claim transactions, statement by statement, with everything else that happens
to the table: each statement has its own snapshot, rows locked elsewhere are skipped, the advisory lock on the hash of the
serialization key (any hash, collisions included) is held to the end, and writes show at commit. Every clock reading is arbitrary.
The partial unique index on leased serialization keys is not used: the protocol alone keeps the exclusion. `WorkStore` is the
imperative store, its claim loop included, run without contention; `ClaimRefinement` shows that loop to be the protocol with nobody
else at work. `QueueRuns` says what whole runs keep: each row's request, one job per dedupe key, who may end a lease, and how long a
job waits before each lease.

**Delivery.** `Outbox` has the outbound table and, for every row that ever existed, the history of its hand-offs to the
provider. `Delivery` puts ingress, outbox and queue into one system: repeated webhook and poll deliveries, mode switches,
workers that stop at any point, lost leases, the route outside the queue (`deliver_next`), purges. A leased statement is issued
in one step, when its snapshot sees the lease or does not, and lands in a later one, when its guard on the row is evaluated.
`LateSettlingRun` is a run that needs the two. `OutboundStore` is the worker's code with other workers' moves between its
statements given as inputs. `IngressStore` is the ingress transaction with its effects loop, for arbitrary effects on arbitrary
tables; it is proved to be the `Ingress` step of `Delivery`. Hand-off results are the adapter's classification, not what the
provider really did.

**Receipts.** `Receipts` has submissions with their asset, draft and correction log, and expenses; every transaction is a step.
`ReceiptRuns` says how each state is entered and what that writes, which originals there are, and what may happen to an expense.
`ReceiptStore` runs the transactions statement by statement, rollbacks included. `Extraction` runs `receipt.extract` workers on
the queue and the receipt tables together; workers may overtake each other and crash anywhere, as they do in the run of
`OverlapRun`; `StrandedRun` is a run that leaves a submission behind without any overlap.

**Schedules.** `Calendar` is the Gregorian calendar as day numbers, `Zones` a time zone as a list of offset changes, `Schedule`
the next and latest delivery, `ScheduleExact` when the next one lies after `now`, `Turns` and `DeliveryOrder` when it is the
first to come and when the latest one is the most recent, `Periods` the spending periods, `InteractivePeriods` when a command's
period contains the moment it is given, `Scheduler` the tick with its loop, the runs of any number of replicas, and the role
lease, `Windows` which windows those runs emit, `ScheduleRuns` what the commands do to schedules and which of them may emit.

**Chat amounts and CSV.** `Digits` and `Money` print amounts, `Amounts` and `ChatAmounts` parse them with i64 bounds,
`AmountRoundTrip` and `CodedCurrencies` say what printed amounts come back as, `Currencies` which currencies an amount is added
up from, with `Millions` as the case of a dollar sign, `Tails` what digits behind a multiplier mean, `Decimals` when a separator is a
decimal point and what printed amounts denote. `Csv` writes the export and
reads it by section 2 of RFC 4180.

## Where the code does not meet its description

Each of these is a lemma about the code as it is, and most have the exact condition under which the property holds.

- `next_delivery` is documented as the first scheduled instant strictly after `now`; where a clock falls back across midnight it can lie
  in the past (`Schedule.NextDeliveryMayBePast`). Where every date has its delivery on that date, it lies after `now`, for every `now`,
  exactly when no change takes the clock back past a delivery it would offer again (`NextIsAfterNowExactly`), and is the first to come
  exactly when every change keeps what is offered, or comes as that is due, and what is offered between changes is still ahead
  (`NextIsFirstExactly`).
- `latest_delivery` is documented as the most recent scheduled instant at or before `now`; in the same zone it can be an older one
  (`LatestMayBeMissed`). It is the most recent one, for every `now`, exactly when every change keeps what is reported, or comes as a
  delivery is due, and between changes the deliveries come in turn (`LatestIsGreatestExactly`). Both hold at every cadence where dates
  run forward (`NextIsLeast`, `LatestIsGreatest`), that is, where no change takes the clock back across midnight
  (`Zones.DatesForwardExactly`).
- A tick stamps a row with the database's clock and compares the stamp with a delivery reckoned from the process's. With the database
  ahead, a window can be lost (`DatabaseAheadLosesWindow`, and exactly when in `TickEmitsExactly`); otherwise every window that a tick
  follows before the next delivery is emitted (`TickedWindowIsEmitted`).
- `today`, `this week` and `this month` need not contain the moment they are asked for (`TodayMayStartLater`). Where dates run forward
  they do exactly when the times the code tries from a skipped midnight on arrive at the end of the gap (`ContainsNowExactly`), which
  in the ordinary case means that the gap ends a whole number of minutes, 60 to 180, after that midnight (`WholeMinutesReach`).
- A skipped day makes a schedule an error (`SkippedDayIsAnError`); a local time fails to resolve exactly when the clock shows
  neither it nor any minute of the following three hours (`ResolveFailsExactly`). One such row rolls the whole tick back.
- With overlapping executions an extraction can be lost: one worker leaves the submission `failed_transient`, the other's success is
  then a conflict, which kills the job with attempts to spare (`OverlapLosesExtraction`, and the run of `ExtractionIsLost`).
  `TransientFailureIsRetried` is the exact condition for one recording, `SoloTransientFailuresAreRetried` the result for runs without
  overlap.
- A receipt read with a category that does not exist kills the job and leaves the submission in `extracting`
  (`SubmissionIsStranded`). `DeadJobLeavesOpenExactly` says exactly when a recording kills its job and leaves the submission open.
- A statement whose snapshot saw the lease still lands after the lease has ended (`IssuedStatementOutlivesLease`, and the run of
  `StatementLandsLate`); a statement issued later never does (`OutboundFencing`).
- `XtrY`, with any of the six multipliers, is X.Y of them exactly when Y does not have three digits, in a currency without decimal
  places, and exactly when it has two, in one with them (`TailIsDecimalsExactly`): `1tr5` is 1.5 million dong, but 15 million dollars.
  For `X.Y` and `X,Y`, with or without a multiplier, `PointIsDecimalExactly` says when the separator is a decimal point; `12,50` of
  dollars is 1250 of them.
- `1tr$5` adds cents to dong (`MixedCurrenciesAreAdded`), and so does `1tr2tr$5` (`NestedCurrenciesAreAdded`). All numerals of an
  accepted amount are in the currency detected for the whole exactly when every currency symbol left in its text is that currency's own
  (`OneCurrencyExactly`).
- Printed amounts read back for dong from 0 to 10^15 - 1 (`DongRoundTrip`). Dollars come back a hundredfold, so only nothing comes back
  (`DollarsComeBackHundredfold`); a currency printed by its code never does (`CodesDoNotReadBack`).

## Model

| member | source | states |
|---|---|---|
| WorkQueue.TotalRetryWaitClosedForm | src/work/types.rs:256-261 | the first k retry waits add up to 2^k - 1 up to k = 9 and to 511 + 256(k - 9) after, each between 1 and 256 seconds: the cap of 300 is never met |
| WorkQueue.LeaseEndsItsAttempt | src/work/store.rs:172-445 | however a lease ends, exactly its own attempt row is closed, with the outcome and error of that ending, and no other attempt row changes |
| WorkQueue.RowTransactionsKeepLedger | src/work/store.rs:270-445 | heartbeat, complete, fail, cancel and recover keep the job row and its attempt rows in agreement |
| WorkQueue.ClaimKeepsLedger | src/work/store.rs:172-247 | leasing or burying an eligible row keeps the ledger in agreement |
| ClaimProtocol.StepKeepsInv | src/work/store.rs:79-268 | every statement of every open claim, and every other queue transaction, keeps the protocol's invariant |
| ClaimProtocol.SerializationKeyExclusion | src/work/store.rs:98-171 | at every committed point of every interleaving at most one job per serialization key is leased |
| ClaimProtocol.LedgerAgrees | src/work/store.rs:202-247 | attempt rows are numbered 1 to the attempt count, the last is open exactly while the job is leased and carries its token, and a queued job has an attempt left |
| ClaimProtocol.TokenFencing | src/work/store.rs:270-445 | once a lease is over, however it ended, no later call under its token changes anything, whatever clock it reads, and the token never comes back |
| ClaimProtocol.LeasesAreBounded | src/work/store.rs:381-439 | between operator recoveries the leases a job gets are exactly the attempt rows it gains, so at most its maximum of attempts |
| QueueRuns.JobsCarryTheirRequest | src/work/store.rs:53-69 | at every later point of every run a job has the type, payload version, target, dedupe key, serialization key and priority of the request that inserted it, and its creation time |
| QueueRuns.KeyAskedForIsExclusive | src/work/store.rs:53-171 | two jobs asked for under one serialization key are never leased at once, at any point after |
| QueueRuns.EnqueuedRow | src/work/store.rs:45-77 | an accepted request inserts a queued row without attempts, with its run time and maximum of attempts |
| QueueRuns.OneJobPerDedupeKey | src/work/store.rs:53-76 | at every point of every run a dedupe key has one job at most, whatever became of it |
| QueueRuns.LeaseIsNotTaken | src/work/store.rs:98-570 | at every step of every run a lease stands, its deadline moved by its own live heartbeat only, or is ended by its holder while live, by an operator, or by a claim begun after its deadline |
| QueueRuns.FirstLeaseWaits | src/work/store.rs:111-131 | the first lease of a job comes from a claim begun at its run time or later |
| QueueRuns.RetryWaits | src/work/store.rs:391-397 | after a retried failure of attempt k the next lease comes from a claim begun at least 2^(min(k, 9) - 1) seconds later |
| QueueRuns.WaitsAddUp | src/work/types.rs:256-261 | so when attempts 1 to k have failed one after another, with clocks that go forward, the next lease comes at least 2^k - 1 seconds after the first failure, and from the ninth on 256 more for each |
| WorkStore.WorkStore.Enqueue | src/work/store.rs:45-77 | an invalid request errs, exactly for its version, attempts, texts or their lengths; a dedupe key that any job has is reported and changes nothing; anything else adds one queued job with the request's columns |
| WorkStore.WorkStore.Claim | src/work/store.rs:79-268 | bad options err; otherwise the table and the answer are those of the claim loop over an answer to the candidate query |
| WorkStore.WorkStore.ClaimCandidates | src/work/store.rs:131-262 | the loop with its key set and result list computes the claim of each candidate in turn |
| WorkStore.WorkStore.ServeCandidate | src/work/store.rs:172-261 | a lapsed lease is closed as lost and buried with a timeout when its attempts are used up, otherwise the row is leased to the caller under a new numbered attempt, column by column |
| WorkStore.WorkStore.Heartbeat | src/work/store.rs:270-302 | exactly the current holder extends its deadline |
| WorkStore.WorkStore.Complete | src/work/store.rs:304-344 | exactly the current holder, its deadline not passed, completes the job, and its attempt row ends as completed |
| WorkStore.WorkStore.Fail | src/work/store.rs:346-445 | exactly the current holder fails the job: retried, for five error classes and with an attempt left, 2^(min(k, 9) - 1) seconds after attempt k, else dead; its attempt row ends as failed with the class |
| WorkStore.WorkStore.Cancel | src/work/store.rs:447-570 | who may cancel in which state, with which error otherwise, and the row it leaves |
| WorkStore.WorkStore.CancelQueuedBySerializationKey | src/work/store.rs:572-591 | exactly the queued jobs of the key are cancelled, and counted |
| WorkStore.WorkStore.RecoverDead | src/work/store.rs:593-618 | exactly a dead job is requeued, with an attempt left |
| WorkStore.ClaimFirstExclusive | src/work/store.rs:138-171 | the claim loop keeps one leased job per key |
| WorkStore.ClaimAnswersLeases | src/work/store.rs:202-262 | each entry of a claim's answer is a candidate leased to the caller under the attempt, token and deadline it says, and every row the claim leased is in the answer |
| WorkStore.BatchIsDue | src/work/store.rs:111-131 | the candidates are due or lapsed, none of a key that a leased job holds unless lapsed itself, and all of them when the limit allows |
| WorkStore.BatchIsInOrder | src/work/store.rs:111-131 | the candidates go by priority, then run time, then age: none left out comes before one taken |
| WorkStore.LapsedLeasesAreServed | src/work/store.rs:111-196 | an uncontended claim whose batch holds all eligible jobs re-leases or dead-letters every lapsed lease |
| WorkStore.NoLapsedLeaseRemains | src/work/store.rs:152-196 | after it no lease is left lapsed, so no key stays blocked by one |
| WorkStore.DueKeyMakesProgress | src/work/store.rs:111-196 | after it a due job's key has a live holder, or its lapsed holder has just been dead-lettered |
| ClaimRefinement.ClaimLoopRefinesProtocol | src/work/store.rs:98-262 | with no other claim open, a run of the protocol's statements commits exactly what the claim loop computes |
| Outbox.LandedOk | src/outbound/mod.rs:296-364 | a reserving or marking statement, landing in any state, keeps every hand-off but the last recorded as refused |
| Outbox.SettleLandedOk | src/outbound/mod.rs:402-446 | so does a settling statement |
| Delivery.StepKeepsInv | src/ingress/store.rs:111-286 | every step of ingress, outbox and queue keeps the system's invariant |
| Delivery.EffectsCommitAtMostOnce | src/ingress/store.rs:289-392 | however often an event is delivered and the mode switched, its effects commit at most once, and once exactly when it is accepted |
| Delivery.AcceptedOverItsRoute | src/ingress/store.rs:111-164 | an event is accepted only over the route, webhook or polling, that the last switch of the mode chose |
| Delivery.ResendOnlyAfterDefiniteFailure | src/outbound/mod.rs:119-255 | a message is handed over again only after every earlier hand-off was recorded as a definite failure |
| Delivery.ReplyHandedOverOncePerOutcome | src/ingress/store.rs:1751-1864 | end to end: when a reply to an event is handed over, every other hand-off of any reply to it was recorded as a definite failure |
| Delivery.UnresolvedSendBlocksResend | src/outbound/mod.rs:144-255 | a message with an unresolved send is in sending, sent or ambiguous and nobody sends it |
| Delivery.NoResendAfterAcceptedOrAmbiguous | src/outbound/mod.rs:58-116 | once a send returned ok or ambiguous the message is never sent again, in every later state of every run |
| Delivery.ArrivedIsNeverResent | src/outbound/mod.rs:200-255 | in the results' own terms: once a send has returned delivered or ambiguous, no step of the run sends that message again |
| Delivery.EveryMessageHasItsJob | src/ingress/store.rs:1781-1864 | in every reachable state each message that is not suppressed has a delivery job under its key |
| Delivery.OutboundFencing | src/outbound/mod.rs:296-446 | a statement issued under a lease that is over never reserves, marks or settles a row |
| Delivery.IssuedStatementOutlivesLease | src/outbound/mod.rs:402-446 | that bound is exact: a settling statement issued before its job is cancelled still lands |
| LateSettlingRun.StatementLandsLate | src/outbound/mod.rs:402-446 | a run from the empty tables in which the row is settled by a statement whose lease has ended |
| OutboundStore.OutboundStore.ReserveUnderLease | src/outbound/mod.rs:296-327 | reserves exactly a waiting or failed row, under a lease the statement saw |
| OutboundStore.OutboundStore.MarkAmbiguousUnderLease | src/outbound/mod.rs:329-364 | marks exactly a row in sending, under a lease the statement saw |
| OutboundStore.OutboundStore.UpdateDelivery | src/outbound/mod.rs:366-446 | the hand-off ends recorded, with the row sent, ambiguous or failed and the error the result says, or unrecorded; without interference under a live lease it is recorded |
| OutboundStore.OutboundStore.SendReserved | src/outbound/mod.rs:200-255 | one call of the provider under its own reservation, and the job outcome its recorded result asks for |
| OutboundStore.OutboundStore.DeliverForJob | src/outbound/mod.rs:119-255 | whatever others do in between: after a recorded send the job completes as sent or ambiguous or fails with the class, as the result was; it completes otherwise only with the row seen sent or ambiguous, is invalid exactly for its type, version, target or key or a suppressed row, and calls the provider at most once |
| OutboundStore.OutboundStore.RecoverUnfinished | src/outbound/mod.rs:157-168 | a row found in sending becomes ambiguous, never another send |
| OutboundStore.OutboundStore.ReportUnreserved | src/outbound/mod.rs:175-197 | an unreserved row completes the job only if it is sent or ambiguous |
| OutboundStore.OutboundStore.DeliverNext | src/outbound/mod.rs:58-116 | reserves, sends and settles one waiting row, or errs when the row was taken away meanwhile |
| OutboundStore.ApplyExecutionResult | src/runtime/mod.rs:409-452 | under a live lease only: a completed outcome completes the job, a failed one fails it with its class, an invalid one as a validation error, and no other job changes |
| OutboundStore.ExecuteLeasedJob | src/runtime/mod.rs:358-407 | each heartbeat up to the deciding tick found the lease live and extended it, nothing else having changed; then the handler's result is returned, a heartbeat without a live lease gives the job up, or a shutdown fails it as transient if its lease is live |
| IngressStore.IngressStore.ApplyEffects | src/ingress/store.rs:892-920 | each effect applies to the tables the one before left, until the first error, and the reply of the last effect that gave one stands |
| IngressStore.IngressStore.EnqueueOutbound | src/ingress/store.rs:1781-1864 | one row per idempotency key, and a delivery job naming the row that holds the key |
| IngressStore.IngressStore.Decide | src/ingress/store.rs:164-286 | errs exactly when the decision, an effect or the reply's job request fails, with that error; otherwise all effects ran in order, and the effects' reply, or else the decided one, has its row, body and job |
| IngressStore.IngressStore.Accept | src/ingress/store.rs:164-286 | the same, with the event recorded as accepted, or everything as it was |
| IngressStore.IngressStore.Process | src/ingress/store.rs:111-286 | exactly when the event is rejected for its mode, a duplicate, accepted or an error, and what each does to the events; only an accepted one runs effects and stores a reply; an error changes nothing; and the tables move as the `Ingress` step of the whole system |
| IngressStore.ErrorsStay | src/ingress/store.rs:903-918 | an effect's error is the transaction's error |
| Receipts.StepMovesLegally | src/receipt/types.rs:66-105 | every transaction moves submissions along legal transitions only, enters stored from queued only, and never leaves a terminal state but to another |
| ReceiptRuns.StateChangesExactly | src/receipt/types.rs:66-105 | for each state, exactly which transaction brings a submission there, from which states and under which conditions |
| ReceiptRuns.RowsChangeAsWritten | src/receipt/lifecycle.rs:1312-1366 | every transaction's effect on a submission's row, column by column, the version counting the changes of state |
| ReceiptRuns.AcceptInserts | src/receipt/lifecycle.rs:76-141 | a submission appears exactly when it is accepted, as a queued row |
| ReceiptRuns.OneOriginalPerHash | src/receipt/lifecycle.rs:459-546 | at no point of a run do two submissions of an account hold an original of one hash |
| ReceiptRuns.OriginalGoesExactly | src/receipt/lifecycle.rs:917-1018 | an original is let go exactly when it is deleted past intake, or swept once its submission is done with |
| ReceiptRuns.ExpensesChangeExactly | src/ingress/store.rs:955-1035 | which expenses appear, change and disappear in a transaction, and what they then say |
| ReceiptRuns.SettledExpenseStands | src/ingress/store.rs:1596-1661 | once settled, an expense keeps everything but its category, in every later state of a run in which it is still there |
| ReceiptRuns.PurgeTakesTheAccount | src/account/mod.rs:343-372 | a purge leaves nothing of its account and everything of the others |
| Receipts.CorrectionsReplay | src/receipt/lifecycle.rs:257-342 | the corrections of an edit, each recorded against the draft before the edit, replay one after another to the edited draft |
| Receipts.StepKeepsInv | src/receipt/lifecycle.rs:76-1075 | every receipt and expense transaction keeps the invariant of the tables |
| Receipts.OneExpensePerReceipt | src/receipt/lifecycle.rs:143-189 | a submission names an expense exactly when that expense refers to it, and the expense's fields are the draft's, through confirm, edit, reject, expire and recategorize in any order |
| Receipts.CorrectionLogReplays | src/receipt/lifecycle.rs:1738-1800 | while a submission awaits review, its log applied to the extracted draft gives the draft, every old value being the one replaced |
| Receipts.AssetAndDraftStructure | src/receipt/lifecycle.rs:459-546 | stored is entered once at most, one asset row goes with the states past it and none with those before it, and the draft is created once, a version per edit |
| Receipts.SameVersionEditsExclude | src/receipt/lifecycle.rs:226-244 | two edits that expect the same draft version never both commit |
| Receipts.RecategorizeKeepsInv | src/ingress/store.rs:1596-1661 | recategorizing changes expense and draft together |
| ReceiptStore.ReceiptStore.ConfirmReview | src/receipt/lifecycle.rs:143-189 | the statements come to the step `Confirm`: not found for a stranger, the same answer when already confirmed, a conflict unless the draft is under review at that version, and else one settled expense of the draft |
| ReceiptStore.ReceiptStore.RejectReview | src/receipt/lifecycle.rs:192-223 | the statements come to the step `Reject`, with its errors spelled out |
| ReceiptStore.ReceiptStore.EditDraft | src/receipt/lifecycle.rs:226-349 | the statements come to the step `Edit`: refused exactly for a stranger, a draft not under review at that version or an unacceptable value; else each given field is taken, the others stay, and the log grows by the changed ones with their old values |
| ReceiptStore.ReceiptStore.WriteEdit | src/receipt/lifecycle.rs:262-348 | an unknown transaction type, found after corrections were logged, rolls them back |
| ReceiptStore.ReceiptStore.CorrectFields | src/receipt/lifecycle.rs:262-343 | the log grows by exactly the changed fields, in order, with the values before the edit |
| ReceiptStore.PatchIsTaken | src/receipt/lifecycle.rs:262-343 | field by field, what a patch makes of a draft and of its log |
| ReceiptStore.ReceiptStore.ExpireReviews | src/receipt/lifecycle.rs:871-915 | every candidate expires, as the step `Expire` has it, and nothing else changes |
| ReceiptStore.ReceiptStore.PersistStored | src/receipt/lifecycle.rs:459-546 | transition, asset row and extract job, with its columns, commit together or not at all |
| ReceiptStore.ReceiptStore.StoreOriginal | src/receipt/lifecycle.rs:459-520 | a queued submission without an original, whose hash no other holds, becomes stored with it; anything else changes nothing |
| Extraction.TransientFailureIsRetried | src/receipt/lifecycle.rs:1884-1892 | a recording that leaves `failed_transient` fails the job with a retried class, exactly unless another worker had left it so and this outcome is not retried |
| Extraction.DeadJobLeavesOpenExactly | src/receipt/lifecycle.rs:728-827 | a recording kills its job and leaves the submission open exactly when the receipt's category does not exist, or the submission was found neither in `extracting` nor closed and the outcome is one the queue does not retry |
| Extraction.PersistMovesState | src/receipt/lifecycle.rs:728-827 | what a recording does to the submission and to the job's outcome |
| Extraction.ClaimDecides | src/receipt/lifecycle.rs:668-711 | what a claim makes of each state a submission may be found in: proceed, complete, or fail with which class |
| Extraction.ExtractDecides | src/receipt/lifecycle.rs:559-667 | a worker whose account is no longer active completes its job and records nothing |
| Extraction.PersistDecides | src/receipt/lifecycle.rs:728-827 | what recording each result makes of each state: the state left, and the job completed or failed with which class |
| Extraction.ApplyDecides | src/runtime/mod.rs:409-452 | while its lease is live the job is completed or failed as was decided, else nothing changes |
| Extraction.DraftIsWhatWasRead | src/receipt/lifecycle.rs:728-827 | a recording that brings a submission to review makes a first draft of exactly the fields the worker read |
| Extraction.CompletedJobMeansClosed | src/runtime/jobs.rs:190-257 | while the account is active, a completed extract job means its submission awaits review or is terminal, whatever workers ran and crashed |
| Extraction.SoloTransientFailuresAreRetried | src/runtime/jobs.rs:190-257 | without overlapping executions, a failure that leaves `failed_transient` is requeued until the attempts run out |
| Extraction.OverlapLosesExtraction | src/receipt/lifecycle.rs:728-827 | with overlapping executions a success can be refused as a conflict, the job dying while the submission waits for a retry |
| OverlapRun.OvertakingIsReached | src/receipt/lifecycle.rs:728-827 | a run from the empty tables reaches that state: one worker's timeout is recorded before the other's success |
| OverlapRun.ExtractionIsLost | src/runtime/jobs.rs:190-257 | and goes on to a dead job with eight attempts left, its submission in `failed_transient` and its account active |
| StrandedRun.SubmissionIsStranded | src/receipt/lifecycle.rs:728-827 | a run without overlap ends with the job dead after one attempt of ten and its submission in `extracting` |
| Calendar.FirstDayClosedForm | src/schedule/next_run.rs:88-115 | the day number of the first of any month, in closed form: 365 days a year, the leap days of the Gregorian rule and the usual month lengths |
| Calendar.DateUpToIsLast | src/schedule/next_run.rs:142-183 | the date steps back to the last delivery date of the cadence |
| Calendar.DateAfterIsFirst | src/schedule/next_run.rs:62-115 | and forward to the first one after it |
| Zones.FromLocalExact | src/schedule/next_run.rs:242-255 | a local time resolves to the least instant the clock shows it at, and to none exactly when there is none |
| Zones.DatesForwardExactly | src/schedule/next_run.rs:242-255 | local dates run forward exactly when no change takes the clock back across midnight |
| Zones.HourLaterIsShown | src/schedule/next_run.rs:246-251 | with gaps of an hour at most, and no other change within an hour after one, a skipped local time is shown an hour later |
| Schedule.ScanForwardLocal | src/schedule/next_run.rs:257-266 | the loop finds the first shown minute of the next three hours, or errs |
| Schedule.ResolveLocalDatetime | src/schedule/next_run.rs:242-255 | the time itself, an hour later, or the scan |
| Schedule.LocalDeliveryDatetime | src/schedule/next_run.rs:225-240 | the delivery of a date |
| Schedule.NextDelivery | src/schedule/next_run.rs:47-119 | the code's candidate steps compute `NextOf`; an invalid minute or zone errs |
| Schedule.LatestDelivery | src/schedule/next_run.rs:122-189 | the code's candidate steps compute `LatestOf` |
| Schedule.NextIsLeast | src/schedule/next_run.rs:47-119 | in a regular zone the next delivery is the least scheduled instant after now, for every cadence and minute |
| Schedule.LatestIsGreatest | src/schedule/next_run.rs:122-189 | and the latest delivery the greatest one up to now |
| Schedule.ShortGapsAreRegular | src/schedule/next_run.rs:242-255 | a zone whose date never runs backwards, with gaps of an hour at most that no other change follows within an hour and that do not push the delivery to another date, is regular |
| Schedule.NextDeliveryMayBePast | src/schedule/next_run.rs:60-69 | a zone and an instant for which the next delivery lies in the past |
| ScheduleExact.NextIsAfterNowExactly | src/schedule/next_run.rs:47-119 | where every date has its delivery on that date, the next delivery is after now at every instant exactly when no change takes the clock back past a delivery it would offer again, for each cadence |
| DeliveryOrder.NextIsFirstExactly | src/schedule/next_run.rs:46-119 | under the same condition on dates, the next delivery is the first scheduled instant after now, at every instant, exactly when every change keeps what is offered, or comes as that is due, and no delivery offered between changes has gone by |
| DeliveryOrder.LatestIsGreatestExactly | src/schedule/next_run.rs:121-189 | and the latest delivery is the most recent one exactly when every change keeps what is reported, or comes as a delivery is due, and between changes deliveries come in turn |
| DeliveryOrder.LatestMayBeMissed | src/schedule/next_run.rs:121-189 | a zone and an instant for which a delivery later than the latest one reported has gone out |
| Turns.LatestExactly | src/schedule/next_run.rs:142-189 | the same for any numbered deliveries and any clock that only runs forward between changes |
| Turns.NextExactly | src/schedule/next_run.rs:62-119 | and for the next one |
| Schedule.ResolveFailsExactly | src/schedule/next_run.rs:242-266 | exactly when a local time cannot be resolved |
| Schedule.SkippedDayIsAnError | src/schedule/next_run.rs:257-266 | a skipped day makes the next delivery an error |
| Periods.ScheduledPeriodIs | src/schedule/next_run.rs:206-218 | a delivery covers the time from the start of the delivery date before it to the start of its own |
| Periods.PeriodsTile | src/schedule/next_run.rs:283-378 | of two consecutive deliveries the later period starts where the earlier one ends |
| Periods.EveryInstantInOnePeriod | src/schedule/next_run.rs:206-218 | every instant falls into exactly one scheduled period |
| Periods.InteractivePeriodIs | src/schedule/next_run.rs:273-362 | from the start of the day, week or month to the end of today |
| InteractivePeriods.ContainsNowExactly | src/schedule/next_run.rs:192-203 | where dates run forward, every interactive period contains now exactly when the times tried from a skipped midnight on arrive at the end of its gap |
| InteractivePeriods.WholeMinutesReach | src/schedule/next_run.rs:242-266 | for a gap whose times are shown at no other time, and unless an hour after midnight is skipped by another gap, they arrive there exactly when it ends a whole number of minutes, 60 to 180, after midnight |
| InteractivePeriods.InteractivePeriodContainsNow | src/schedule/next_run.rs:192-203 | so it does when midnight gaps start at midnight and last an hour |
| InteractivePeriods.TodayMayStartLater | src/schedule/next_run.rs:273-281 | a zone and a moment for which `today` starts after the moment it is asked for |
| Scheduler.Store.Tick | src/runtime/scheduler.rs:58-149 | all due rows are processed, or on any error none |
| Scheduler.Store.TickRow | src/runtime/scheduler.rs:82-142 | one row: the latest missed window unless already emitted, deduplicated, and the next run |
| Scheduler.TickProcesses | src/runtime/scheduler.rs:79-142 | a tick that commits has processed each of its rows: next run, stamp and emit job; it touches no other row, and adds at most one job a row, that of its latest missed window |
| Scheduler.PlanIsRight | src/runtime/scheduler.rs:86-100 | in a regular zone the row's two deliveries are neighbours around now, and the period belongs to the earlier one |
| Scheduler.LateTickEmitsLatestWindow | src/runtime/scheduler.rs:86-142 | however late, a tick leaves the row due at the first delivery after now and emits only the window of the last one up to now |
| Scheduler.KeyIsInjective | src/schedule/mod.rs:30-41 | two emit jobs have one dedupe key text exactly when they are for one account, frequency and period start |
| Scheduler.EnqueuedIsWithJob | src/runtime/scheduler.rs:111-127 | enqueueing an emit job is the queue's own insert under that text |
| Scheduler.EmitRowIs | src/runtime/scheduler.rs:111-127 | the queued row of an emit job, column by column |
| ScheduleRuns.TimezoneChangeReschedules | src/ingress/store.rs:1237-1259 | a change of timezone moves every enabled schedule of the account to its first delivery after now in the new zone, where its deliveries are in order, and touches nothing else |
| ScheduleRuns.UnknownTimezoneIsRefused | src/ingress/store.rs:1238-1240 | a timezone that does not parse changes nothing |
| ScheduleRuns.UpsertSchedules | src/ingress/store.rs:1260-1301 | a schedule that is set is enabled for its first delivery after now and keeps when it last emitted; a minute out of range changes nothing |
| ScheduleRuns.OneSchedulePerCadence | src/ingress/store.rs:1277-1289 | over any run an account keeps one schedule of a frequency at most |
| ScheduleRuns.DisabledStaysOff | src/ingress/store.rs:1302-1328 | a disabled schedule is in no tick until it is set again, whatever happens in between |
| ScheduleRuns.OnlyDueSchedulesEmit | src/runtime/scheduler.rs:58-142 | over any run a new emit job is for a schedule that is enabled, due and of an active account then |
| Scheduler.OneEmitJobPerPeriod | src/runtime/scheduler.rs:58-149 | over any run of any number of replicas, timezone and schedule changes included, one emit job at most per account, frequency and period start |
| Windows.TickedWindowIsEmitted | src/runtime/scheduler.rs:86-142 | over any run that leaves the schedule alone, with clocks that go forward and a database clock not ahead of the process's: once a tick has committed, the window of the last delivery up to it has its emit job for good |
| Windows.TickEmitsExactly | src/runtime/scheduler.rs:96-142 | a tick leaves the latest window emitted exactly if it was, or the row's stamp is before that delivery |
| Windows.DatabaseAheadLosesWindow | src/runtime/scheduler.rs:96-142 | two ticks around a delivery, the first stamped by a database clock that is already past it: neither emits its window |
| Scheduler.RoleLeases.TryAcquire | src/runtime/scheduler.rs:151-172 | acquired exactly when free, lapsed or one's own |
| Scheduler.RoleLeaseExclusive | src/runtime/scheduler.rs:151-172 | the role passes to another replica only when the first one's lease has run out |
| Money.GroupDigits | src/conversation/money.rs:38-48 | the loop from the left writes groups of three from the right |
| Money.LeftIsRight | src/conversation/money.rs:38-48 | counting from either end gives the same groups |
| Amounts.StripSeparators | src/conversation/amount.rs:205-207 | the loop keeps exactly the digits |
| Amounts.TakeSuffix | src/conversation/amount.rs:87-98 | the loop takes the first multiplier of the table that ends the text, and its factor |
| Amounts.TakeNumber | src/conversation/amount.rs:100-107 | the loop drops spaces and refuses anything but digits and separators |
| Amounts.SpacesDropOut | src/conversation/amount.rs:100-107 | a space anywhere in a number makes no difference |
| Amounts.ForeignRefused | src/conversation/amount.rs:100-107 | a number is refused exactly for a character that is no digit, dot, comma or space |
| Amounts.FinishAmount | src/conversation/amount.rs:181-199 | the i64 checks of a numeral without decimals give its value or refuse it as too large |
| Amounts.WithDecimals | src/conversation/amount.rs:143-178 | the i64 checks and the scaling loop of a numeral with decimals give its value, or the right refusal |
| Amounts.ParseSingleAmount | src/conversation/amount.rs:86-179 | the code reads a single amount as `SingleOf` says |
| Amounts.ValueIsExact | src/conversation/amount.rs:143-199 | an accepted numeral is exact and in 0 .. i64::MAX; it is too large exactly for its digits or its product, and not whole only if no whole number of minor units equals it |
| Amounts.ChatIsValid | src/conversation/amount.rs:13-22 | the code's multipliers and currencies meet what the results ask of such tables |
| ChatAmounts.DetectCurrency | src/conversation/amount.rs:209-224 | the loop finds the first symbol of the table before or after the amount, else the hint |
| ChatAmounts.TryParseCompound | src/conversation/amount.rs:43-84 | the loop over multipliers and the recursion into the tail compute the compound readings, and terminate |
| ChatAmounts.ParseAmount | src/conversation/amount.rs:25-41 | the whole parser computes `AmountOf`, and terminates |
| ChatAmounts.SingleIsExact | src/conversation/amount.rs:86-179 | an accepted single amount equals its numeral |
| ChatAmounts.AmountsAreExact | src/conversation/amount.rs:25-84 | every accepted amount is in 0 .. i64::MAX and exactly what its numerals say, a compound being the sum of its parts |
| ChatAmounts.CurrencyIsDetected | src/conversation/amount.rs:209-224 | every accepted amount is, up to case, in the currency detected in its text |
| ChatAmounts.MixesExactly | src/conversation/amount.rs:69-79 | two amounts added by a cut are of different currencies exactly when the tail's detected currency is not the one the compound is read in |
| Currencies.PartsAddUp | src/conversation/amount.rs:25-84 | an accepted amount is the sum of the amounts of its numerals, each read in the currency detected where it stands |
| Currencies.OneCurrencyExactly | src/conversation/amount.rs:25-84 | all of these are in the currency detected for the whole exactly when every currency symbol left in the text is that currency's own |
| AmountRoundTrip.DongRoundTrip | src/conversation/money.rs:10-36 | parsing a printed dong amount gives it back, for any hint, exactly for 0 .. 10^15 - 1; negative ones and larger ones are refused |
| AmountRoundTrip.DollarsComeBackHundredfold | src/conversation/money.rs:10-36 | printed dollars come back a hundred times as large below 10^15 cents, are too large from there on and refused when negative: only 0 comes back as it was |
| CodedCurrencies.CodesDoNotReadBack | src/conversation/money.rs:31-35 | an amount printed with its currency code is refused whatever the hint, as negative or for its letters |
| AmountRoundTrip.GroupedIsPrinted | src/conversation/amount.rs:205-207 | stripping separators undoes grouping |
| Tails.DigitTailReading | src/conversation/amount.rs:63-67 | an amount cut before bare digits, at any multiplier and in any currency, is read as all its digits together, with the tail as decimals or not |
| Tails.ShorthandAmount | src/conversation/amount.rs:43-67 | `XtrY`, with any multiplier in any case and for any hint, is such an amount |
| Tails.TailIsDecimalsExactly | src/conversation/amount.rs:118-136 | accepted, it is X and decimals Y times the multiplier exactly when Y does not have three digits, without decimal places, or has two, with them (or all digits are zero) |
| Tails.ShorthandIsDecimalExactly | src/conversation/amount.rs:118-136 | so for `XtrY` and the other multipliers, for every hint |
| Decimals.PointIsDecimalExactly | src/conversation/amount.rs:109-179 | an accepted `X.Y` or `X,Y`, with any multiplier or none and for any hint, is X and decimals Y exactly when, without decimal places, it is under a multiplier and Y does not have three digits, or, with them, the separator is a dot and Y has two; otherwise the separator counts for nothing |
| Decimals.ScaledIsSingle | src/conversation/amount.rs:25-98 | a number with one multiplier behind it, in any case, is not cut up |
| Decimals.PrintedDenotes | src/conversation/money.rs:10-48 | a printed amount is a sign, digits that are the amount, in threes, with a comma and two digits exactly for currencies with decimal places, and the symbol or code |
| Millions.MixedCurrenciesAreAdded | src/conversation/amount.rs:69-79 | a dollar sign in the tail is converted to cents and added to dong |
| Millions.NestedCurrenciesAreAdded | src/conversation/amount.rs:69-79 | so is one in the tail of the tail, where the tail itself is read as dong |
| Csv.Export | src/account/mod.rs:240-250 | the loop writes a file from which a reader by section 2 of RFC 4180 gets back, per expense, its fields and, from the amount column, the number of minor units |
| Csv.QuotedExactly | src/account/mod.rs:437-443 | a field is quoted exactly when it holds a comma, a quote or a line break |
| Csv.FieldBack | src/account/mod.rs:437-443 | an escaped field reads back as itself |
| Csv.AmountBack | src/account/mod.rs:240-250 | the text of an amount reads back as the amount, whatever its sign |
| Csv.ExportReadsBack | src/account/mod.rs:240-251 | such a reader gets back the header and every field of every expense, the amount as a signed number |

## Left out

- The conversation: intents, `decide`, the mapping of its outcomes to effects, pending actions, templates and labels. Effects are arbitrary functions in `IngressStore`.
- HTTP, the provider adapter, image decoding, extraction calls, object storage and its agreement with the tables: results are inputs.
- Quotas and delivery policy: whether a reply may be delivered is an input. Account creation inside ingress is not modelled.
- Configuration, command line, health, metrics, maintenance and updates.
- Account deletion and export jobs beyond purging rows and the CSV body; insight aggregates and narration.
- Reads (`list_jobs`, `get_state` and the like), and the correction log's timestamps: the log is kept in commit order.
- Correction values are kept as values, not as the text they are stored as; UUIDs are numbers, and new ones are new.
- How UUIDs and instants are written is an input: in `Scheduler` each has a text of its own, an account's without a colon, both of 64 characters at most.
- Lowercasing covers ASCII and the two Vietnamese letters of the multipliers, all of one length; trimming covers space, tab, CR and LF. So the Kelvin sign U+212A is no `k` here; in the code it is, three bytes that lowercase to one, and cutting the suffix off then panics (src/conversation/amount.rs:94).
- A panic on an unresolvable local midnight is an error in `Periods`.
- WorkStore.WorkStore.Claim: the answer to the candidate query and the fresh tokens are inputs; contention is in `ClaimProtocol`.
- WorkStore.WorkStore.ClaimCandidates: the advisory lock is never refused here and no row is skipped as locked; `ClaimProtocol` has both.
- Scheduler.Store.Tick: the due rows, at most a batch of them, are an input.
- OutboundStore.ExecuteLeasedJob: the handler runs beside the heartbeats as one input, its result.
- ReceiptStore.ReceiptStore.ExpireReviews: the candidates are an input.
- Csv.Export: the timestamp text is an input, taken to need no escaping.
