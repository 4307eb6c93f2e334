# Payment orchestration ledger: a verified model

This project models the ledger of a payment orchestration service and the small protocols
around it, and proves what they promise. Payment intents carry what is due, paid, refunded and
remaining; transaction rows record payments and refunds; use cases, webhooks, jobs and workers
race on single-row conditional updates. Nothing here runs the service: every result below is a
theorem about the model, over all inputs, all runs or all reachable states.

`dafny verify dfyconfig.toml` checks the whole project.

## How it is laid out

| part | modules | what is proved |
|---|---|---|
| tables | `Domain`, `IntentStatusRules`, `LedgerSpec`, `PaymentDb` | each repository statement, as a method over the two tables, against the function that says what it does |
| sequential layer | `LedgerInvariant`, `RefundAccounting`, `Sequential` | the invariant of the ledger, and that every sequence of use cases keeps it |
| use cases | `CreateGatewayPayment`, `CreditPaths`, `RefundPayment`, `VoidPayment`, `ExpireStale`, `ProviderEvents`, `Reconcile` | each `execute`, statement by statement, amounts to one effect of the sequential layer; crashes between statements and their repair |
| interleaved layer | `Interleaving`, `Races`, `RaceRuns`, `WholePayments`, `RefundKeys` | the use cases as small programs with stale reads whose steps interleave: what the SQL guards save, and what a race can still spoil |
| tie | `Solo` | with nothing in between, those programs come to just what the use cases do |
| stale writes | `StaleWrites`, `StaleRuns` | the same runs with the credits that write totals computed from a read: what still holds, and what they lose or collect too much |
| keys | `StableJson`, `Idempotency` | the canonical request text, and the key protocol for any number of concurrent requests |
| merchant webhooks | `Outbox`, `OutboxRaces`, `DeliveryQueue`, `DeliveryRaces` | deduplication, the delivery queue, and its attempt bound |
| request security | `CanonicalQuery`, `QueryForms`, `SignedAuth`, `RateLimiter` | the canonical query, replay protection, and the fixed-window limiter against its full log |
| shared | `Sums`, `Sorting` | weighted sums over tables, and sorting by a total order |

Each use case is proved against a function that says what it does, and what that function means
is stated once more in columns: which rows and intents may change, to what, and under which
condition each error is given (the members whose names end in `Exactly` or `Columns`).

Each database transaction, and each single `UPDATE ... WHERE ... RETURNING` or `INSERT`, is one
atomic step; a unique index is an insert or update that fails. Identifiers the service draws at
random are parameters required to be new. What a provider, the clock, the network or another
component answers is a parameter too, so every result holds for all answers.

## Where a promise does not hold

These are kept as the code has them, each with its exact condition and an input that fails it.

- The guarded credit looks at neither the direction of the row nor at its amount or intent. It
  keeps totals equal to row sums exactly when the caller passes an incoming row with its own
  amount and intent (`Races.CreditKeepsRowSumsExactly`); the confirm endpoint accepts any row id,
  also that of a pending refund (`RaceRuns.ConfirmingARefundRow`).
- `updateStatus` is unconditional, so a stale void, failure or expiry can overwrite a succeeded
  row (`RaceRuns.VoidOverwritesACredit`). It keeps totals equal to row sums exactly when the row
  has not succeeded (`Races.WriteKeepsRowSumsExactly`). Over whole runs these two are the only
  steps that part totals from rows (`Races.RowSumsHoldExactly`), and no row is ever credited twice.
- Refresh, reprocess and the confirm fallback check and write totals computed from a read. Alone
  they equal the guarded credit. Interleaved they lose whatever was paid or refunded since the
  read, and where a concurrent credit has used up the room, which the guarded credit would
  reject, they collect more than is due (`Races.StaleTotalsAgreeExactly`,
  `StaleRuns.AStaleWriteLosesACredit`, `StaleRuns.AStaleWriteCollectsTooMuch`). The results of
  `Races`, `WholePayments` and `RefundKeys` are therefore about runs without these writes. Over
  runs with them the columns of an intent stay conserved and bounded
  (`StaleWrites.ColumnsStayConserved`) and no row is taken for paid twice
  (`StaleWrites.TakenAtMostOnce`), but the columns no longer tell what the rows hold, and the next
  reconcile can turn the intent overpaid.
- The bound on the refunds of one source is checked before the provider is called and not again.
  For intents that allow partial payments two refunds can exceed it
  (`WholePayments.SettlingKeepsSourcesExactly`, `RaceRuns.BothRefundsSettle`).
- Reprocessing reads the reference out of the stored payload differently from the webhook
  (`ProviderEvents.ReprocessAgreesExactly`, `ProviderEvents.TwoReferencesDisagree`).
- A processed provider event can go back to failed when telling the merchant throws
  (`ProviderEvents.HandleFound`); this is harmless to the ledger
  (`ProviderEvents.RedeliveryIsHarmless`).
- An expiry summary can list one id both as expired and as skipped (`ExpireStale.ListedAsBoth`,
  `ExpireStale.OverdueIsListedAsBoth`).
- The canonical query forgets the order of pairs exactly when no two different pairs rank the
  same (`CanonicalQuery.OrderForgottenExactly`), and the string and record forms agree exactly
  when such pairs come in the order in which the record lists their keys
  (`QueryForms.StringAndRecordAgreeExactly`); a script object lists array indices first, then the
  other keys as they first appear (`QueryForms.ScriptRecordAgreesExactly`). Locale-aware
  comparison ranks canonically equivalent spellings as equal and ignores some characters, and
  then neither need hold (`CanonicalQuery.EquivalentKeysPrintInTwoWays`,
  `QueryForms.EquivalentKeysPartTheForms`, `QueryForms.IndexKeysPartTheForms`).
- The configured minimum for keeping nonces suffices only if no time passes between the check of
  a timestamp and the insert of its nonce (`SignedAuth.AcceptedAtMostOnceExactly`).
- After a replay, a slow worker's failure can reopen a webhook another worker has delivered
  (`DeliveryRaces.ReopenedExactly`, `DeliveryRaces.StaleFailureReopens`).
- A webhook secret that cannot be decrypted ends the worker's run, and it and the rows claimed
  after it stay marked as delivering (`DeliveryQueue.Deliver`).
- Deliveries lost when an emit dies are never made up for by later emits
  (`OutboxRaces.LaterEmitsAddNothing`, `OutboxRaces.DeadEmitLosesDeliveries`); and replaying an
  event fails as soon as one listed endpoint has a delivery of it
  (`Outbox.WebhookTables.ReplayEvent`).
- Comments and code differ in places, and the model follows the code: a failed idempotency key
  cannot be retried although a comment says it can (`Idempotency.FailedKeyRefuses`); the webhook
  credits through the guarded update rather than the two steps its header describes; the first
  backoff entry is never used (`DeliveryRaces.FailuresWait`).

## Model

| member | source | states |
|---|---|---|
| `LedgerSpec.StatusRulesAgree` | apps/service/src/application/payment-state/intentStatus.ts:3-13 | the SQL status expressions and the service's own status functions give the same status, and exactly when they do not |
| `LedgerSpec.WritesKeepIndexes` | apps/service/src/infrastructure/schema.ts:115-120 | an insert or status write that the unique indexes on key and provider reference admit leaves them holding |
| `LedgerSpec.IndexesHoldExactly` | apps/service/src/infrastructure/schema.ts:115-120 | the indexes hold exactly when no two rows share a merchant and a key, or a provider and a reference |
| `LedgerSpec.RefusedByIndexesExactly` | apps/service/src/infrastructure/repositories/DrizzlePaymentTransactionRepository.ts:243-300 | an insert or a status write is refused exactly when it would break an index |
| `LedgerSpec.CreditAnswersExactly` | apps/service/src/infrastructure/repositories/DrizzlePaymentTransactionRepository.ts:35-115 | when the guarded credit credits, was made before, or refuses with which error; only a credit changes anything |
| `LedgerSpec.RefundAnswersExactly` | apps/service/src/infrastructure/repositories/DrizzlePaymentTransactionRepository.ts:117-168 | when the guarded refund goes through or refuses with which error; a refusal changes nothing |
| `PaymentDb.Tables.ApplySucceededPayment` | apps/service/src/infrastructure/repositories/DrizzlePaymentTransactionRepository.ts:35-115 | the whole new state and answer of the guarded credit: credit, already credited, not confirmable, overpayment; a refusal leaves both tables as they were |
| `PaymentDb.Tables.ApplySucceededRefund` | apps/service/src/infrastructure/repositories/DrizzlePaymentTransactionRepository.ts:117-168 | the whole new state and answer of the guarded refund; a refusal by the intent guard undoes the row update |
| `PaymentDb.Tables.MarkSucceededIfConfirmable` | apps/service/src/infrastructure/repositories/DrizzlePaymentTransactionRepository.ts:328-346 | changes the row exactly when it is pending or requires action |
| `PaymentDb.Tables.UpdateStatus` | apps/service/src/infrastructure/repositories/DrizzlePaymentTransactionRepository.ts:280-300 | the unconditional status write, refused only for a missing row or a taken key or reference |
| `PaymentDb.Tables.CreateTx` | apps/service/src/infrastructure/repositories/DrizzlePaymentTransactionRepository.ts:243-278 | an insert goes through exactly when both unique indexes admit the row |
| `PaymentDb.Tables.SumSucceededRefundsByParent` | apps/service/src/infrastructure/repositories/DrizzlePaymentTransactionRepository.ts:302-315 | returns the sum over succeeded outgoing refund rows of one parent |
| `PaymentDb.Tables.FindByIntentId` | apps/service/src/infrastructure/repositories/DrizzlePaymentTransactionRepository.ts:184-193 | lists every row of the intent and merchant exactly once |
| `PaymentDb.Tables.FindStalePendingTransactions` | apps/service/src/infrastructure/repositories/DrizzlePaymentTransactionRepository.ts:195-208 | at most `limit` rows that are pending or require action and whose expiry is set and not after `now`, each once, and all of them when fewer than `limit` |
| `PaymentDb.Tables.FindByProviderReference` | apps/service/src/infrastructure/repositories/DrizzlePaymentTransactionRepository.ts:210-227 | finds a row of the provider and reference, or there is none |
| `PaymentDb.Tables.FindByKey` | apps/service/src/infrastructure/repositories/DrizzlePaymentTransactionRepository.ts:229-241 | finds a row of the merchant and key, or there is none |
| `PaymentDb.Tables.CreateIntent` | apps/service/src/infrastructure/repositories/DrizzlePaymentIntentRepository.ts:64-97 | a new intent owes all that is due and has paid nothing |
| `PaymentDb.Tables.UpdateTotals` | apps/service/src/infrastructure/repositories/DrizzlePaymentIntentRepository.ts:99-115 | absolute write of the three totals, status kept |
| `PaymentDb.Tables.UpdateIntentStatus` | apps/service/src/infrastructure/repositories/DrizzlePaymentIntentRepository.ts:131-142 | absolute write of the status, totals kept |
| `PaymentDb.Tables.FindExpiredActive` | apps/service/src/infrastructure/repositories/DrizzlePaymentIntentRepository.ts:117-129 | at most `limit` intents that are still to be paid and whose expiry is set and not after `now`, each once, and all of them when fewer than `limit` |
| `LedgerInvariant.CreditInv` | apps/service/src/infrastructure/repositories/DrizzlePaymentTransactionRepository.ts:80-101 | crediting an incoming row keeps the full invariant: conservation, row shapes, totals equal to row sums, refunds within sources, status tied to totals |
| `LedgerInvariant.RefundInv` | apps/service/src/infrastructure/repositories/DrizzlePaymentTransactionRepository.ts:117-168 | a refund within what its source and its intent have left keeps the full invariant |
| `LedgerInvariant.FailedRefundInv` | apps/service/src/application/use-cases/RefundPaymentTransaction.ts:207-221 | a refund row that ends failed keeps the full invariant |
| `LedgerInvariant.UncountedIncomingInv` | apps/service/src/infrastructure/repositories/DrizzlePaymentTransactionRepository.ts:280-300 | adding or closing an uncounted incoming row keeps the full invariant |
| `LedgerInvariant.NewIntentInv` | apps/service/src/infrastructure/repositories/DrizzlePaymentIntentRepository.ts:64-97 | a new intent starts with empty sums and keeps the full invariant |
| `LedgerInvariant.IntentChangeInv` | apps/service/src/infrastructure/repositories/DrizzlePaymentIntentRepository.ts:131-142 | a change of an intent that moves no total and suits its status keeps the full invariant |
| `Sequential.NextKeepsInv` | apps/service/src/application/use-cases/ReconcilePaymentIntentTotals.ts:58-145 | every effect of every use case keeps the full invariant |
| `Sequential.RunKeepsInv` | apps/service/src/application/payment-state/intentStatus.ts:3-13 | in every sequence of use cases: paid and remaining make up what is due, totals equal the row sums, no source is refunded beyond its amount, and each status implies its relation between due, paid and refunded, no other status being reachable |
| `Sequential.RunOnlyGrows` | apps/service/src/infrastructure/repositories/DrizzlePaymentTransactionRepository.ts:40-50 | in every sequence of use cases closed rows never change again, terms are fixed, and paid and refunded totals never shrink |
| `Sequential.VerdictKeepsInv` | apps/service/src/application/use-cases/HandleProviderWebhook.ts:215-269 | a provider's verdict, whichever path brings it, keeps the full invariant |
| `Sequential.ExpireKeepsInv` | apps/service/src/application/use-cases/ExpireStalePaymentTransactions.ts:113-148 | closing any open rows and unpaid active intents keeps the full invariant |
| `Sequential.ReconcileMovesNoTotal` | apps/service/src/application/use-cases/ReconcilePaymentIntentTotals.ts:82-122 | on an invariant ledger a reconcile moves no total and rewrites the status exactly when it was refunded or expired |
| `CreateGatewayPayment.Execute` | apps/service/src/application/use-cases/CreateGatewayPayment.ts:101-424 | the provider is called only for an unexpired intent of the merchant that is still to be paid, for an amount it may be paid; the row stored and the answer, column by column; a success moves the amount from what remains to what is paid and is never turned away |
| `CreateGatewayPayment.RefusedExactly` | apps/service/src/application/payment-state/intentStatus.ts:15-40 | each refusal code with its condition on expiry, status, remaining and partial payments, in the order of the checks |
| `CreateGatewayPayment.CreatePaymentIntent` | apps/service/src/application/use-cases/CreatePaymentIntent.ts:73-181 | a positive amount stores an intent that owes it all under the terms asked for, any other is refused |
| `CreditPaths.RefreshProviderStatus` | apps/service/src/application/use-cases/RefreshProviderStatus.ts:41-138 | run alone, the read-check-write credit ends in the state of the single guarded update, or the same rejection with no change, and the answer holds the stored row and intent; stopped half way it leaves exactly the crashed states |
| `CreditPaths.ReplaySucceeded` | apps/service/src/application/use-cases/ReprocessProviderEvents.ts:172-204 | the same for the credit of the reprocess job, which errs exactly on overpayment |
| `CreditPaths.ConfirmFakeGatewayPayment` | apps/service/src/application/use-cases/ConfirmFakeGatewayPayment.ts:50-191 | the atomic branch and the fallback answer alike and leave the same ledger; confirmed means succeeded, now or before, and each refusal has its condition; production and unknown rows change nothing |
| `CreditPaths.VerdictColumns` | apps/service/src/application/use-cases/HandleProviderWebhook.ts:215-269 | what a verdict moves, column by column: only open rows and the four deciding verdicts; a success that fits moves its amount and makes the intent paid exactly when it was all that remained; the others close the row under their own name |
| `CreditPaths.CrashedColumns` | apps/service/src/application/use-cases/RefreshProviderStatus.ts:86-117 | what a crash leaves undone: after the mark the whole intent, after the totals only its status |
| `ProviderEvents.Mutate` | apps/service/src/application/use-cases/HandleProviderWebhook.ts:215-269 | the webhook's own mutation is the same verdict effect, failing exactly on overpayment |
| `Reconcile.Fold` | apps/service/src/application/use-cases/ReconcilePaymentIntentTotals.ts:82-96 | the fold over an intent's rows is the sum the ledger invariant speaks of |
| `Reconcile.Execute` | apps/service/src/application/use-cases/ReconcilePaymentIntentTotals.ts:58-145 | from any ledger, drifted or crashed, the totals become the folds and the status follows; `changed` holds exactly when the ledger changed |
| `Reconcile.ReconciledColumns` | apps/service/src/application/use-cases/ReconcilePaymentIntentTotals.ts:98-113 | what remains is never negative, and with what was paid makes up the larger of due and paid; the status tells how paid compares to due, overpaid included |
| `Reconcile.ReconcileIdempotent` | apps/service/src/application/use-cases/ReconcilePaymentIntentTotals.ts:114-122 | a second run changes nothing |
| `Reconcile.ReconcileOnInvariant` | apps/service/src/application/use-cases/ReconcilePaymentIntentTotals.ts:114-145 | on every sequentially reachable ledger no total moves, and something changes exactly when the status was refunded or expired |
| `Reconcile.ReconcileFinishesCrashedCredit` | apps/service/src/application/use-cases/RefreshProviderStatus.ts:86-117 | a credit that crashed after either of its writes, then reconciled, is the finished credit |
| `Reconcile.CrashLosesTheAmount` | apps/service/src/application/use-cases/RefreshProviderStatus.ts:86-96 | until then the crashed ledger is off by exactly the marked row's amount |
| `RefundAccounting.PartitionByParent` | apps/service/src/infrastructure/repositories/DrizzlePaymentTransactionRepository.ts:302-315 | the outgoing rows of an intent summed directly equal their sums source by source |
| `RefundAccounting.SourceCheckImpliesIntentGuard` | apps/service/src/application/use-cases/RefundPaymentTransaction.ts:138-148 | a refund that passed the check on its source always passes the SQL guard on its intent |
| `RefundAccounting.LeftIsPaidMinusRefunded` | apps/service/src/application/use-cases/GetRefundability.ts:67-90 | what all sources have left is what was paid minus what was refunded |
| `RefundPayment.AdmittedRefundSettles` | apps/service/src/application/use-cases/RefundPaymentTransaction.ts:160-250 | an admitted refund is one effect, within the intent's guard, and moves its source's refunds by its amount or not at all |
| `RefundPayment.RefusedExactly` | apps/service/src/application/use-cases/RefundPaymentTransaction.ts:120-158 | a refund is admitted exactly when its source is a succeeded incoming payment, earlier refunds and this one stay within it, and its provider can refund or is manual; each refusal with its condition |
| `RefundPayment.SettledColumns` | apps/service/src/application/use-cases/RefundPaymentTransaction.ts:160-250 | the row of a settled refund in full, and the intent: refunded grown by the amount, refunded in status exactly when all that was paid went back |
| `RefundPayment.RetryGetsTheRefund` | apps/service/src/application/use-cases/RefundPaymentTransaction.ts:97-118 | however much later, the key of a settled refund answers the same amount of the same payment by that refund, and anything else by a conflict |
| `RefundPayment.Settle` | apps/service/src/application/use-cases/RefundPaymentTransaction.ts:187-245 | the provider's answer and the write that follows it, on the ledger that already holds the row |
| `RefundPayment.Execute` | apps/service/src/application/use-cases/RefundPaymentTransaction.ts:71-281 | every refusal with its error and no trace; a used key is answered by what is stored under it; a new refund is answered by the row just stored, the intent as it is now, whether the provider refunded, and what the source has left |
| `RefundPayment.TotalRefundable` | apps/service/src/application/use-cases/GetRefundability.ts:67-90 | the total refundable is paid minus refunded |
| `RefundPayment.GetRefundability` | apps/service/src/application/use-cases/GetRefundability.ts:50-99 | one item for each refundable source with its exact amounts, and their total |
| `VoidPayment.Execute` | apps/service/src/application/use-cases/VoidPaymentTransaction.ts:71-189 | conflict, replay, refusal with its error, cancellation, or failure when the provider refuses: an answer other than a replay finds the row cancelled, a provider refusal leaves it failed |
| `VoidPayment.VoidColumns` | apps/service/src/application/use-cases/VoidPaymentTransaction.ts:128-189 | which row a void may touch and which of its columns, for a cancellation, a refusal by the provider, and a replay |
| `VoidPayment.VoidRefusals` | apps/service/src/application/use-cases/VoidPaymentTransaction.ts:82-118 | when a void conflicts, is not voidable, or is not supported by the provider |
| `VoidPayment.SecondVoidReplays` | apps/service/src/application/use-cases/VoidPaymentTransaction.ts:82-104 | however much later, a void under the key of a cancellation replays it, changes nothing, and conflicts on every other transaction |
| `ExpireStale.Execute` | apps/service/src/application/use-cases/ExpireStalePaymentTransactions.ts:56-157 | what the two queries pick, within the limit, decides the ledger, the counters, the summaries and the statuses; every row that changed was due and is expired, and they are as many as reported |
| `ExpireStale.ClosesExactlyWhatIsDue` | apps/service/src/infrastructure/repositories/DrizzlePaymentTransactionRepository.ts:195-208 | a run closes only open rows whose own expiry has come or that of their intent, and all of them when it stays under its limit |
| `ExpireStale.ExpiresExactlyWhatIsDue` | apps/service/src/application/use-cases/ExpireStalePaymentTransactions.ts:135-148 | it expires only intents that are active and still owe, and are due themselves or have a due row; all of them when it stays under its limit |
| `ExpireStale.ListsExactly` | apps/service/src/application/use-cases/ExpireStalePaymentTransactions.ts:93-132 | row by row, which are listed as expired and which as skipped |
| `ExpireStale.Worker.ExpireAll` | apps/service/src/application/use-cases/ExpireStalePaymentTransactions.ts:93-117 | the loop over rows: each open one is closed and listed, each other one passed over and listed |
| `ExpireStale.Worker.ExpireIntents` | apps/service/src/application/use-cases/ExpireStalePaymentTransactions.ts:120-132 | the loop over overdue intents closes all their open rows |
| `ExpireStale.Worker.CloseIntents` | apps/service/src/application/use-cases/ExpireStalePaymentTransactions.ts:135-148 | the last loop expires exactly the touched intents that are active and still owe, and reports their statuses |
| `ExpireStale.ListedAsBoth` | apps/service/src/application/use-cases/ExpireStalePaymentTransactions.ts:93-132 | no id is listed twice as expired or twice as skipped; it is listed as both exactly when the first pass expired it and the second came upon it again |
| `ExpireStale.OverdueIsListedAsBoth` | apps/service/src/application/use-cases/ExpireStalePaymentTransactions.ts:93-132 | a ledger on which every run with room for two lists its one payment as both |
| `ExpireStale.RunChangesExactlyItsRows` | apps/service/src/application/use-cases/ExpireStalePaymentTransactions.ts:101-111 | the rows a run expires are exactly the rows that changed; totals and succeeded rows stay |
| `ExpireStale.RunIsOneEffect` | apps/service/src/application/use-cases/ExpireStalePaymentTransactions.ts:113-148 | a run is one effect of the sequential layer and, with a positive limit, makes progress |
| `ExpireStale.RunShrinksBacklog` | apps/service/src/application/use-cases/ExpireStalePaymentTransactions.ts:113-148 | a run never adds to what is stale or overdue and takes something off it while there is any |
| `ExpireStale.RepeatedRunsFinish` | apps/service/src/application/use-cases/ExpireStalePaymentTransactions.ts:113-148 | repeated runs at a fixed time leave no stale row and no overdue active intent, in as many runs as there were of them |
| `ProviderEvents.EventTable.ReserveEventOrGet` | apps/service/src/infrastructure/repositories/DrizzlePaymentProviderEventRepository.ts:63-94 | inserts unless (provider, event id) is taken and then returns the row that took it; the index stays unique |
| `ProviderEvents.EventTable.ClaimForProcessing` | apps/service/src/infrastructure/repositories/DrizzlePaymentProviderEventRepository.ts:96-104 | claims exactly the events that wait or have failed |
| `ProviderEvents.EventTable.MarkFailed` | apps/service/src/infrastructure/repositories/DrizzlePaymentProviderEventRepository.ts:141-151 | takes any event, even a processed one, to failed and counts the attempt |
| `ProviderEvents.HandleClaimed` | apps/service/src/application/use-cases/HandleProviderWebhook.ts:166-298 | the ledger effect of a claimed event, and the state and attempt count it is left in for every outcome; an event answered as done leaves no row open that it decides, one that overpays is failed and moves nothing |
| `ProviderEvents.HandleProviderWebhook` | apps/service/src/application/use-cases/HandleProviderWebhook.ts:77-299 | one delivery end to end: replay, not claimed, or handled; the event stored is the one delivered and failed unless done; only a row with its provider and reference, and that row's intent, can change; done leaves no row open that it decides |
| `ProviderEvents.HandleFound` | apps/service/src/application/use-cases/HandleProviderWebhook.ts:189-298 | for a row that was found: the ledger effect; done exactly leaves the row closed, an overpayment is thrown exactly when an open row does not fit, and the event is failed with one more attempt unless done |
| `ProviderEvents.AcceptedExactly` | apps/service/src/infrastructure/providers/FakeGatewayWebhookHandler.ts:87-126 | a body is accepted exactly when it shows an id and a type and names a reportable status; what is read from it |
| `ProviderEvents.StatusesReadBack` | apps/service/src/infrastructure/providers/FakeGatewayWebhookHandler.ts:28-34 | exactly the six reportable statuses are read, each under its own spelling |
| `ProviderEvents.TrimExactly` | apps/service/src/infrastructure/providers/FakeGatewayWebhookHandler.ts:119-126 | trimming takes all blanks off both ends and nothing else |
| `ProviderEvents.CoercedStatusExactly` | apps/service/src/application/use-cases/ReprocessProviderEvents.ts:161-170 | the status the job reads: the one spelled, ignored when missing, undecided when unknown |
| `ProviderEvents.ReplayParsedEvent` | apps/service/src/application/use-cases/ReprocessProviderEvents.ts:120-153 | applying a stored payload: the ledger effect, and exactly when it errs |
| `ProviderEvents.ReplayIsDelivery` | apps/service/src/application/use-cases/ReprocessProviderEvents.ts:120-170 | it is the delivery a webhook would make of the status and reference the job reads |
| `ProviderEvents.ReprocessProviderEvents` | apps/service/src/application/use-cases/ReprocessProviderEvents.ts:45-118 | each event is applied, skipped or failed as reported, the counters count the details, the ledger goes through one such application after the other, keeps its invariant and only grows |
| `ProviderEvents.TurnDecides` | apps/service/src/application/use-cases/ReprocessProviderEvents.ts:120-153 | one event's turn in columns: it gives up exactly when no row has the reference or a success does not fit, and then changes nothing; otherwise the row is left as a webhook would have left it |
| `ProviderEvents.RedeliveryIsHarmless` | apps/service/src/application/use-cases/HandleProviderWebhook.ts:272-296 | once a verdict has closed a row, delivering any verdict again, however much later, changes nothing |
| `ProviderEvents.ReprocessAgreesExactly` | apps/service/src/application/use-cases/ReprocessProviderEvents.ts:155-170 | the stored payload changes every ledger as the webhook did exactly when the event decides nothing, or its members providerReference, provider_reference and provider_ref let both read the same reference |
| `ProviderEvents.SameReferenceExactly` | apps/service/src/application/use-cases/ReprocessProviderEvents.ts:162 | the two readings of the reference are the same exactly under that condition on the members |
| `ProviderEvents.TwoReferencesDisagree` | apps/service/src/application/use-cases/ReprocessProviderEvents.ts:162 | a payload the webhook accepts, with both members and two references, on which webhook and job disagree |
| `ProviderEvents.DocumentedShapeAgrees` | apps/service/src/infrastructure/providers/FakeGatewayWebhookHandler.ts:11-17 | for the documented payload shape both always agree |
| `Interleaving.StepKeepsInv` | apps/service/src/infrastructure/repositories/DrizzlePaymentTransactionRepository.ts:35-168 | every step of every interleaving keeps: paid and remaining make up what is due, refunded within paid within due, never overpaid, totals equal to the credited and refunded rows, counted rows never confirmable again |
| `Solo.CreateAlone` | apps/service/src/application/use-cases/CreateGatewayPayment.ts:275-424 | with nothing in between, the interleaved steps of a payment are the effect its use case has |
| `Solo.RefundStarts` | apps/service/src/application/use-cases/RefundPaymentTransaction.ts:120-186 | the steps up to the provider call leave the row stored as pending |
| `Solo.RefundAlone` | apps/service/src/application/use-cases/RefundPaymentTransaction.ts:160-250 | and those of a refund end settled as its use case settles it |
| `Solo.VerdictAlone` | apps/service/src/application/use-cases/HandleProviderWebhook.ts:215-269 | and those of a verdict are its effect |
| `Solo.VoidAlone` | apps/service/src/application/use-cases/VoidPaymentTransaction.ts:128-189 | and those of a void write what its use case writes |
| `Solo.ExpireAlone` | apps/service/src/application/use-cases/ExpireStalePaymentTransactions.ts:101-148 | and those that close a row and its intent are an expiry run on the two |
| `Solo.StaleCreditAlone` | apps/service/src/application/use-cases/RefreshProviderStatus.ts:77-117 | and the credit in four statements passes through both crashed states and ends as the guarded credit |
| `Interleaving.RowStep` | apps/service/src/infrastructure/repositories/DrizzlePaymentTransactionRepository.ts:40-101 | a row change moves exactly its own intent's totals by what the row counts for |
| `Races.Conservation` | apps/service/src/infrastructure/repositories/DrizzlePaymentTransactionRepository.ts:80-168 | over every run of interleaved use cases with stale reads and crashes, conservation and column bounds hold and overpaid is unreachable |
| `Races.TotalsMoveOnlyByRows` | apps/service/src/infrastructure/repositories/DrizzlePaymentTransactionRepository.ts:80-153 | a total moves only by a credit or a refund step, and by that row's amount |
| `Races.CreditedAtMostOnce` | apps/service/src/infrastructure/repositories/DrizzlePaymentTransactionRepository.ts:40-50 | no row is credited at two moments of a run, whatever blind writes come in between |
| `Races.RefundedAtMostOnce` | apps/service/src/infrastructure/repositories/DrizzlePaymentTransactionRepository.ts:117-153 | no refund row is applied at two moments of a run |
| `Races.RunIsForward` | apps/service/src/infrastructure/repositories/DrizzlePaymentTransactionRepository.ts:280-300 | no step returns an existing row to a confirmable status |
| `Races.PaidAgainstRows` | apps/service/src/infrastructure/repositories/DrizzlePaymentTransactionRepository.ts:280-300 | the paid total is at least the sum of succeeded incoming rows, and equal exactly when every credited row is incoming and still succeeded |
| `Races.RefundedAgainstRows` | apps/service/src/infrastructure/repositories/DrizzlePaymentTransactionRepository.ts:117-168 | the same for the refunded total and succeeded outgoing rows |
| `Races.RowSumsHoldExactly` | apps/service/src/infrastructure/repositories/DrizzlePaymentTransactionRepository.ts:280-300 | over every run, totals equal the row sums exactly as long as no credit has gone through on an outgoing row and no blind write on a succeeded one; and no later step makes up for either |
| `Races.WriteKeepsRowSumsExactly` | apps/service/src/infrastructure/repositories/DrizzlePaymentTransactionRepository.ts:280-300 | the blind write keeps the row sums exactly when the row it closes has not succeeded |
| `Races.RefundKeepsRowSumsExactly` | apps/service/src/infrastructure/repositories/DrizzlePaymentTransactionRepository.ts:117-168 | the guarded refund keeps the row sums exactly when its row is outgoing, has not succeeded, and is passed with its own intent and amount |
| `Races.CreditKeepsRowSumsExactly` | apps/service/src/infrastructure/repositories/DrizzlePaymentTransactionRepository.ts:35-101 | the guarded credit keeps the row sums exactly when the row is incoming and the caller passes its own intent and amount |
| `RaceRuns.VoidOverwritesACredit` | apps/service/src/application/use-cases/VoidPaymentTransaction.ts:165-178 | a run in which a void read before a credit is written after it: 1 is paid and no row has succeeded |
| `RaceRuns.ConfirmingARefundRow` | apps/service/src/application/use-cases/ConfirmFakeGatewayPayment.ts:104-110 | a run in which a pending refund row, confirmed by its id, is credited as a payment |
| `Races.StaleTotalsAgreeExactly` | apps/service/src/application/use-cases/RefreshProviderStatus.ts:80-117 | totals written from a stale read, whatever the intent has left by then, agree with the guarded credit exactly when neither total has moved since the read; otherwise both differences are lost, and where the guarded credit would be rejected more has been collected than is due |
| `StaleWrites.ColumnsStayConserved` | apps/service/src/application/use-cases/RefreshProviderStatus.ts:80-117 | over every interleaving that includes stale writes, each intent's columns make up what is due, refunded within paid within due, and no intent is overpaid |
| `StaleWrites.TakenAtMostOnce` | apps/service/src/application/use-cases/ReprocessProviderEvents.ts:172-204 | between guarded credits and stale ones no row is taken for paid at two moments of a run |
| `StaleWrites.MoveKeeps` | apps/service/src/application/use-cases/RefreshProviderStatus.ts:80-117 | every step of guarded and stale programs keeps the columns, the terms of rows and intents, and closed rows closed |
| `StaleRuns.AStaleWriteLosesACredit` | apps/service/src/application/use-cases/RefreshProviderStatus.ts:97-117 | one run that passes the credit of one payment while a refresh holds an older read, and ends with 1 paid of 2 due although two payments of 1 have succeeded |
| `StaleRuns.AStaleWriteCollectsTooMuch` | apps/service/src/application/use-cases/RefreshProviderStatus.ts:80-117 | one run that passes a ledger on which the guarded credit is rejected and ends with 2 collected of 1 due; a reconcile then makes the intent overpaid |
| `WholePayments.OneCreditedRow` | apps/service/src/application/payment-state/intentStatus.ts:27-40 | an intent without partial payments has at most one credited row in every interleaving of the guarded steps, an incoming one for all that is due |
| `WholePayments.RefundsStayWithinTheSource` | apps/service/src/infrastructure/repositories/DrizzlePaymentTransactionRepository.ts:147-153 | for such an intent the guard on the intent alone keeps the refunds of each source within it, in every interleaving of the guarded steps |
| `WholePayments.RunStaysWhole` | apps/service/src/application/payment-state/intentStatus.ts:34-39 | for such an intent remaining is all or nothing, every payment row is for all that is due, and refund rows exist only once it is paid |
| `WholePayments.SettlingKeepsSourcesExactly` | apps/service/src/infrastructure/repositories/DrizzlePaymentTransactionRepository.ts:117-168 | for other intents settling a refund keeps the bound on sources exactly when its source still has that much left |
| `RaceRuns.BothRefundsSettle` | apps/service/src/application/use-cases/RefundPaymentTransaction.ts:138-148 | a run in which two refunds of one source pass that check, the second with the row of the first already stored, and both settle beyond it |
| `RefundKeys.OneProviderRefundPerKey` | apps/service/src/application/use-cases/RefundPaymentTransaction.ts:97-199 | in every interleaving all provider calls under one merchant and key belong to one refund row |
| `RefundKeys.SettledAtMostOnce` | apps/service/src/application/use-cases/RefundPaymentTransaction.ts:160-250 | and that row's call is settled at most once |
| `RefundKeys.StepKeepsIndexes` | apps/service/src/infrastructure/schema.ts:115-120 | every step of every use case keeps the unique indexes |
| `Idempotency.StepKeepsInv` | apps/service/src/infrastructure/repositories/DrizzlePaymentIdempotencyRepository.ts:60-145 | every step of any number of concurrent keyed requests keeps the protocol's invariant |
| `Idempotency.AtMostOneEffectPerKey` | apps/service/src/application/use-cases/CreateGatewayPayment.ts:275-351 | the provider is called, or an intent created, at most once for each merchant, scope and key |
| `Idempotency.KeyHistory` | apps/service/src/infrastructure/repositories/DrizzlePaymentIdempotencyRepository.ts:60-145 | a key is absent, then processing, then completed or failed, and keeps its request and its outcome for good |
| `Idempotency.StepMovesKey` | apps/service/src/infrastructure/repositories/DrizzlePaymentIdempotencyRepository.ts:60-91 | a key only ever appears as processing |
| `Idempotency.ReplayIsTheFirstResponse` | apps/service/src/application/use-cases/CreateGatewayPayment.ts:121-143 | every response given under a key is the result of the one request that took it, and goes only to requests for the same thing |
| `Idempotency.RetryIsAnswered` | apps/service/src/application/use-cases/CreateGatewayPayment.ts:291-314 | a retry under a completed key gets that response exactly when it asks for the same thing, and is a conflict otherwise |
| `Idempotency.FailedKeyRefuses` | apps/service/src/application/use-cases/CreateGatewayPayment.ts:121-143 | a failed key refuses every later request, at the first look or as a conflict when the insert meets it |
| `Idempotency.RetryAfter` | apps/service/src/application/use-cases/CreateGatewayPayment.ts:275-351 | what a key answers after a success, after a failure that was stored, and after one that was not |
| `Idempotency.AloneIsARun` | apps/service/src/application/use-cases/CreateGatewayPayment.ts:121-424 | the uninterrupted use case is a run of the protocol: same stored key, same answer, one call |
| `Idempotency.CreateGatewayPayment` | apps/service/src/application/use-cases/CreateGatewayPayment.ts:121-424 | a keyed request alone: the provider is called exactly under an unused key when all checks pass; the answer, and what the key keeps for each outcome |
| `Idempotency.KeyTable.ReserveOrGet` | apps/service/src/infrastructure/repositories/DrizzlePaymentIdempotencyRepository.ts:60-91 | inserts a processing key exactly when the slot is free |
| `StableJson.PrintsAlikeExactlyWhenSame` | apps/service/src/application/use-cases/CreateGatewayPayment.ts:45-51 | two JSON values print alike exactly when they are the same value with object members in any order |
| `StableJson.SameIsEqualWithoutObjects` | apps/service/src/application/use-cases/CreateGatewayPayment.ts:45-51 | values without objects are the same exactly when they are equal |
| `StableJson.PrintSkips` | apps/service/src/application/use-cases/CreatePaymentIntent.ts:18-24 | unique readability: the end of a printed value is found whatever follows it |
| `StableJson.CommasInjective` | apps/service/src/application/use-cases/CreateGatewayPayment.ts:46-49 | a comma-separated list of printed values can be cut up in one way only |
| `DeliveryQueue.DeliveryTable.ClaimDue` | apps/service/src/infrastructure/repositories/DrizzleMerchantWebhookDeliveryRepository.ts:28-68 | the first due rows in queue order, at most the limit, each counted and handed out once |
| `DeliveryQueue.ClaimsExactly` | apps/service/src/infrastructure/repositories/DrizzleMerchantWebhookDeliveryRepository.ts:28-68 | in columns: what may be claimed, in which order, and when something due is left over |
| `DeliveryQueue.Deliver` | apps/service/src/application/merchant-webhooks/worker.ts:21-63 | the claimed rows up to the first whose secret cannot be read are attempted once each and end up succeeded, failed with their backoff, or dead; that row and the rest stay claimed, others stay as they were |
| `DeliveryQueue.AttemptedColumns` | apps/service/src/application/merchant-webhooks/worker.ts:21-71 | an attempt in columns: counted; succeeded exactly on an answer in the two hundreds, dead at the limit, else failed for a minute, five, fifteen, or an hour |
| `DeliveryQueue.DeliveryTable.Fail` | apps/service/src/application/merchant-webhooks/worker.ts:65-71 | the choice between dead and failed, and the backoff, follow the worker's own copy of the row |
| `DeliveryQueue.DeliveryTable.Requeue` | apps/service/src/infrastructure/repositories/DrizzleMerchantWebhookDeliveryRepository.ts:84-89 | queues a delivery again from any status, and an unknown one is an error |
| `DeliveryRaces.AttemptsAreBounded` | apps/service/src/infrastructure/repositories/DrizzleMerchantWebhookDeliveryRepository.ts:28-89 | with slow, stale and crashed workers, attempts never exceed max(1, maxAttempts) plus the number of replays |
| `DeliveryRaces.FailuresWait` | apps/service/src/application/merchant-webhooks/worker.ts:65-71 | over every run and from any stale copy, a failed attempt waits exactly as long as the worker's count says, a minute at first and an hour at last; the immediate first entry of the table is never used |
| `DeliveryRaces.GivenUpExactly` | apps/service/src/application/merchant-webhooks/worker.ts:65-68 | over every run, a delivery that was not replayed becomes dead exactly by an undelivered attempt at its limit |
| `DeliveryRaces.OneHolder` | apps/service/src/infrastructure/repositories/DrizzleMerchantWebhookDeliveryRepository.ts:28-68 | without replays at most one worker holds a delivery, with an up-to-date copy |
| `DeliveryRaces.DeliveryTerminates` | apps/service/src/infrastructure/repositories/DrizzleMerchantWebhookDeliveryRepository.ts:28-89 | every run works on a delivery only finitely often, by a measure each claim, mark and crash uses up |
| `DeliveryRaces.StepKeepsInv` | apps/service/src/infrastructure/repositories/DrizzleMerchantWebhookDeliveryRepository.ts:28-89 | every claim is paid for by the creation, a replay, or a failed attempt of its own |
| `DeliveryRaces.ClosedForGoodUnlessReplayed` | apps/service/src/infrastructure/repositories/DrizzleMerchantWebhookDeliveryRepository.ts:69-83 | over every run, a delivery that was never replayed stays succeeded, or dead, for good |
| `DeliveryRaces.ReopenedExactly` | apps/service/src/infrastructure/repositories/DrizzleMerchantWebhookDeliveryRepository.ts:74-89 | a closed delivery becomes claimable again exactly by a replay, or by the failure of a worker whose copy was below the limit, and the latter only after a replay |
| `DeliveryRaces.StaleFailureReopens` | apps/service/src/application/merchant-webhooks/worker.ts:65-71 | a run with one replay in which a slow worker's failure makes a delivered webhook due again |
| `CanonicalQuery.CanonicalQuery` | packages/core/src/security/canonicalRequest.ts:64-101 | both forms of a query are parsed or collected, sorted and printed; an undecodable string is refused |
| `CanonicalQuery.DecodeUndoesEncode` | packages/core/src/security/canonicalRequest.ts:98-100 | percent-decoding undoes percent-encoding on every text |
| `CanonicalQuery.EncodesExactly` | packages/core/src/security/canonicalRequest.ts:98-100 | letters, digits and nine marks stand for themselves, every other byte for its number in two capital digits |
| `CanonicalQuery.HexReadsExactly` | packages/core/src/security/canonicalRequest.ts:67-79 | hexadecimal digits of both cases read as their number |
| `CanonicalQuery.DecodeFailsExactly` | packages/core/src/security/canonicalRequest.ts:67-79 | decoding fails exactly on a percent sign that two hexadecimal digits do not follow |
| `CanonicalQuery.PartReads` | packages/core/src/security/canonicalRequest.ts:70-78 | a part is cut at its first equals sign and both sides decoded; without one it is all key |
| `CanonicalQuery.QueryReads` | packages/core/src/security/canonicalRequest.ts:67-79 | a query is its parts between ampersands, in order, a question mark in front dropped, and fails with any of them |
| `CanonicalQuery.ParseUndoesPrint` | packages/core/src/security/canonicalRequest.ts:67-79 | parsing a printed query gives back its pairs in order |
| `CanonicalQuery.CanonicalTellsTies` | packages/core/src/security/canonicalRequest.ts:91-100 | under any comparison two queries have the same canonical string exactly when they list the same pairs, and those that rank the same in the same order |
| `CanonicalQuery.CanonicalTellsPairs` | packages/core/src/security/canonicalRequest.ts:91-100 | for a query in which no two different pairs rank the same, exactly when they hold the same multiset of pairs |
| `CanonicalQuery.CanonicalIsFixed` | packages/core/src/security/canonicalRequest.ts:64-101 | a canonical string is its own canonical string and parses to the pairs of the query by key, and by value where keys rank the same |
| `QueryForms.StringAndRecordAgreeExactly` | packages/core/src/security/canonicalRequest.ts:64-96 | in whatever order the record lists its keys, the string and the record built from its pairs have the same canonical string exactly when pairs that rank the same come in that order |
| `QueryForms.RecordIsStableSort` | packages/core/src/security/canonicalRequest.ts:80-89 | building a record from the pairs and laying it out again is a stable sort by the order in which it lists its keys |
| `QueryForms.ScriptRecordAgreesExactly` | packages/core/src/security/canonicalRequest.ts:81-89 | the same condition for the record a script builds, which lists array indices first and by value, then the other keys as they first appear |
| `QueryForms.IndexKeysPartTheForms` | packages/core/src/security/canonicalRequest.ts:80-96 | a query of two different keys that rank the same, each once, on which the forms differ because the record lists an index first |
| `QueryForms.EquivalentKeysPartTheForms` | packages/core/src/security/canonicalRequest.ts:91-96 | a query on which the two forms differ, under every comparison that ranks two spellings of a letter the same |
| `CanonicalQuery.OrderForgottenExactly` | packages/core/src/security/canonicalRequest.ts:91-96 | under any comparison, the order of a query's pairs never shows exactly when no two different ones rank the same |
| `CanonicalQuery.OrderForgottenExactlyByCollations` | packages/core/src/security/canonicalRequest.ts:91-96 | it shows for no query at all exactly when the comparison tells every two texts apart |
| `CanonicalQuery.EquivalentKeysPrintInTwoWays` | packages/core/src/security/canonicalRequest.ts:91-96 | a query that prints in two ways under every comparison that ranks two spellings of a letter the same |
| `CanonicalQuery.CanonicalStringBinds` | packages/core/src/security/canonicalRequest.ts:116-127 | single-line requests have the same string to sign exactly when all fields agree and the queries list the same pairs up to an order that does not show |
| `CanonicalQuery.SignedLines` | packages/core/src/security/canonicalRequest.ts:116-127 | cut into lines, what is signed shows algorithm, time, nonce, verb in capitals, path, canonical query and body hash, in this order |
| `CanonicalQuery.CollectPairs` | packages/core/src/security/canonicalRequest.ts:80-89 | the loops over a record collect the pairs of every field in order |
| `CanonicalQuery.RecordReads` | packages/core/src/security/canonicalRequest.ts:80-89 | field by field: none for an absent one, one pair for a value, one for each value of a list, in order |
| `RateLimiter.InMemoryRateLimiterStore.Hit` | apps/service/src/rate-limit/rateLimiter.ts:57-85 | the whole new map and the answer of a hit |
| `RateLimiter.StoreCountsTheLog` | apps/service/src/rate-limit/rateLimiter.ts:62-75 | with one window length the map holds exactly the keys of the current window, each with its number of hits in the full log |
| `RateLimiter.AllowedByTheLog` | apps/service/src/rate-limit/rateLimiter.ts:77-84 | a hit is allowed exactly when the key's hits in its window number at most the limit; pruning never changes an answer |
| `RateLimiter.RemainingIsExact` | apps/service/src/rate-limit/rateLimiter.ts:77-84 | of the key's later hits in the window exactly as many are allowed as an answer says remain, whoever else hits in between |
| `RateLimiter.AnswerExactly` | apps/service/src/rate-limit/rateLimiter.ts:57-84 | the reset is the start of the next window, and a hit that is allowed need not wait |
| `RateLimiter.IntervalIsLimited` | apps/service/src/rate-limit/rateLimiter.ts:57-85 | any interval of one window length lets at most twice the limit through |
| `RateLimiter.WindowIsLimited` | apps/service/src/rate-limit/rateLimiter.ts:77 | an aligned window lets exactly the smaller of its hits and the limit through |
| `RateLimiter.RetryAfterReachesReset` | apps/service/src/rate-limit/rateLimiter.ts:79-82 | waiting as told reaches the reset, by less than a second, and lands in a later window |
| `RateLimiter.OtherCountsKeptExactly` | apps/service/src/rate-limit/rateLimiter.ts:62-68 | a hit keeps another key's count exactly when that key's window starts where its own does |
| `SignedAuth.VerifySignedRequest` | apps/service/src/middleware/signedAuth.ts:77-215 | the first failing check decides the error; the nonce is spent exactly when all hold, even if the client turns out inactive, and a request is let in only if it was fresh |
| `SignedAuth.PresentableExactly` | apps/service/src/middleware/signedAuth.ts:77-198 | who gets as far as the nonce, in terms of headers, clock, and the first candidate key of the client, active and not past its expiry |
| `SignedAuth.FailsExactly` | apps/service/src/middleware/signedAuth.ts:77-198 | each error in its turn, given exactly when its check fails and those before it hold |
| `SignedAuth.RequestNonceRepository.Consume` | apps/service/src/infrastructure/repositories/DrizzleRequestNonceRepository.ts:25-53 | inserts exactly when the key has not used the nonce |
| `SignedAuth.RequestNonceRepository.CleanupExpired` | apps/service/src/infrastructure/repositories/DrizzleRequestNonceRepository.ts:55-62 | removes exactly the rows past their expiry and counts them |
| `SignedAuth.AcceptedAtMostOnceExactly` | apps/service/src/middleware/signedAuth.ts:116-198 | over all runs with cleanup at any moment, the same key, timestamp and nonce are accepted at most once exactly when nonces are kept for the skew plus the lag between check and insert |
| `SignedAuth.ConfigurationIsSafeWithoutLag` | apps/service/src/config/env.ts:141-147 | what the configuration enforces suffices when check and insert are one step, and at its minimum only then |
| `Outbox.IntentEventTypes` | apps/service/src/application/merchant-webhooks/events.ts:9-13 | every intent status is announced under its own listed type, overpaid as paid |
| `Outbox.WebhookTables.CreateOrGet` | apps/service/src/infrastructure/repositories/DrizzleMerchantWebhookEventRepository.ts:9-15 | creates exactly when the merchant's dedupe key is new |
| `Outbox.WebhookTables.Emit` | apps/service/src/application/merchant-webhooks/events.ts:42-64 | an emit that creates the event leaves exactly one delivery for each listed endpoint; every other changes nothing |
| `Outbox.WebhookTables.ReplayEvent` | apps/service/src/application/merchant-webhooks/useCases.ts:63-70 | a replay of an event goes through exactly when no listed endpoint has a delivery of it, and stops at the first that has |
| `Outbox.WebhookTables.EmitIntentStatus` | apps/service/src/application/merchant-webhooks/events.ts:30-34 | every intent status is announced, once for each dedupe key, under a listed type that overpaid shares with paid |
| `Outbox.WebhookTables.EmitTransactionStatus` | apps/service/src/application/merchant-webhooks/events.ts:36-40 | a transaction status is announced under a listed type unless it is pending, expired, reversed or ignored |
| `OutboxRaces.OneDeliveryEach` | apps/service/src/infrastructure/schema.ts:338 | over every interleaving: one event for each dedupe key, at most one delivery for each event and endpoint, and exactly one for each listed endpoint once the creating emit or a replay has finished |
| `OutboxRaces.OneCreator` | apps/service/src/infrastructure/repositories/DrizzleMerchantWebhookEventRepository.ts:9-15 | of all emits of one key at most one makes deliveries |
| `OutboxRaces.EventCreated` | apps/service/src/application/merchant-webhooks/events.ts:42-57 | with nothing in between, an emit under a new key gets as far as its event |
| `OutboxRaces.EmitAlone` | apps/service/src/application/merchant-webhooks/events.ts:58-63 | and the rest of its steps leave what the use case leaves: one delivery for each listed endpoint |
| `OutboxRaces.LaterEmitsAddNothing` | apps/service/src/application/merchant-webhooks/events.ts:58-63 | over every run, once an event is there and its emit has finished or died, no later emit adds a delivery of it; only a replay does |
| `OutboxRaces.DeadEmitLosesDeliveries` | apps/service/src/application/merchant-webhooks/events.ts:58-63 | a run in which an emit dies after creating its event, so that no endpoint has a delivery |

## Left out

- Provider HTTP, signatures and ciphers, random ids, audit logs, redaction, mappers, routes, the dashboard, the client SDK and credential management: I/O, or single-row copying. The payload fields a handler reads are assumed not to be redacted.
- Hashes: requests are compared by their canonical text, and signatures are an answer of the outside world.
- Account, method and merchant checks before a gateway payment: their verdict is one parameter (`admission`).
- Display columns of rows (URLs, failure reasons, raw responses, metadata, update times, response bodies) are not modelled.
- Provider refund results are succeeded or failed, as the shipped adapters return them; a `pending` refund would leave its row open.
- RefundPayment.Execute: its last case assumes that the provider names each refund afresh; when a reference is already stored, the unique index refuses the write and the row stays pending.
- CreditPaths.ConfirmFakeGatewayPayment: the branch that reloads after losing the row to a concurrent confirm does not occur in the sequential layer; the interleaved layer has the atomic branch only.
- Interleaving.StepKeepsInv: the totals that refresh, reprocess and the confirm fallback write from a read break this invariant, so they are steps of `StaleWrites` only; a reconcile that interleaves with other writers is a step of neither.
- Interleaving.Enabled: a program that begins reads and checks in one step (a refund reads its source, intent and earlier refunds in several statements); what holds is shown for that coarser first step, everything after it interleaves freely.
- Interleaving.Do: crashes stop a program between statements; rows a crash leaves pending, processing or delivering are never reclaimed by the service, and nothing is claimed about them but safety.
- Idempotency.CreateGatewayPayment: requests without a key skip the protocol and are not part of it; the expiry column of keys is never read by the service.
- ProviderEvents.HandleProviderWebhook: parsing is modelled for the fake gateway; whitespace trimmed from event ids is space, tab and line ends.
- ProviderEvents.ReprocessProviderEvents: the query by age that picks the stale events is a parameter; every stored event has a payload.
- DeliveryQueue.Deliver: runs alone; workers that interleave, are slow, or stop (also at a secret that cannot be read) are the subject of `DeliveryRaces`, which claims one row at a time.
- QueryForms.StringAndRecordAgreeExactly: the record is the one that holds the pairs of the string; servers that read `+` as a space, nest bracketed keys, cap the number of pairs or drop an empty key or `__proto__` build another one. UTF-8 validity of decoded bytes is not checked.
- StableJson.Print: numbers are given by their printed text, names are ordered by character value, and `undefined`, dates and lone surrogates, which no parsed JSON holds, are not modelled.
- SignedAuth.VerifySignedRequest: header trimming and number parsing happen before it, and one clock reading serves all its checks.
- RateLimiter.InMemoryRateLimiterStore.Hit: a window length of zero or less is not covered.
- Outbox.WebhookTables.Emit: payloads are not modelled, and the endpoint list is a parameter; deletion of endpoints and its cascades are not part of this model.
- Liveness of interleaved programs, payment-method synchronisation, listing and paging queries, and in-memory test repositories.
- Integer overflow inside a `WHERE` expression; stored columns are shown to stay between zero and the amount due.
