# Bayline: verified model

Bayline runs car dealerships and their workshops: purchases of parts, orders of vehicles,
sales and their financing, accounts, maintenance plans, and the services beneath them.
This project models the parts of its backend where state changes from several entry
points, and proves what those parts promise over every run.

How the program's terms are rendered:

- **Rows and sessions.** A table is a sequence held in a field of a service object; a row is
  identified by its position (the modelled operations delete rows only in the rate limiter,
  whose table is a map). Methods change these fields step by step, as the services change
  their mapped objects, and each is proved equal to a pure function of the old state. Commit
  and rollback are explicit: a method that raises restores the snapshot it took.
- **Locks.** Row locks, advisory locks and single statements make each call one atomic step;
  runs are arbitrary sequences of such steps. The rate limiter interleaves any number of
  workers, each with its own cache, over one shared table.
- **Answers from elsewhere.** Clocks, rates of exchange, delivery of messages, what other
  tables answer, and the order in which the database returns rows are parameters; results
  hold for all of them. Hashes (`sha256`, HMAC) are injective: a hash is its input.
- **Amounts.** Money in columns with two decimals is whole cents with half-up rounding
  (`Money`); other arithmetic is over exact rationals.

Where the code and its own words differ, the model follows the code, and says how far:

- `app/modules/compras/service.py:335-337` says the unit costs always match the invoice
  total. They lose a cent exactly when what is left for the last unit is a negative half
  cent (`VehicleOrderRuns.SplitIsExactIff`); never for totals in whole cents. A run from
  nothing loses one (`ARunLosesACent`), and lost cents never cancel (`RunConservesIff`).
- Reversing the counter-entry of a purchase payment puts the money back in the ledger and on
  no purchase, because counter-entries carry no source; and a grouped payment is found again
  only through the latest payment a purchase names. `PurchaseRuns.AmountsMatchIff` says when
  all amounts agree over a run, `ShareMatchesIff` and `SingleMatchesIff` when those of one
  purchase do, `PurchaseGaps` has a concrete run for each failure.
- The limit per window holds as long as no check runs after another one has seen a time past
  the end of its window. `docs/api-rate-limits.md:19` asks for synchronised clocks; a check
  that is merely late breaks the bound too (`RateLimiterRuns.LateCheckRestartsTheCount`).
- The legs of a transfer can be reversed one at a time, which changes the total of a
  currency (`Accounts.LegUndoneMovesTotal`, and from nothing `ARunLosesTheLeg`); undoing
  both restores every balance (`BothLegsUndone`).
- `app/modules/ajustes/bulk.py:112` accepts both 1.234,56 and 1234.56; `1.234` alone is one
  thousand two hundred and thirty-four (`NumberText.PointIsDecimalIff`).

Operations on rows are stated three times, each tied to the next by proof: as the method that
changes rows step by step; as a function of the old rows; and, in the `…Answers` modules,
by what it answers, without that function's parts: exactly when it is accepted, what an
accepted call leaves in every row, and that the reason of a refused one is true. The order
in which several true reasons are tried is that of the functions.

The modules, hardest first: `PurchaseRuns` over `Purchases`, `PurchaseWorkflow`,
`PurchaseGoods`, `PurchasePayments`, `PurchaseSteps`, `PurchaseLedger` and `Ledger`, with
`PurchaseAnswers` and `PurchaseGoodsAnswers`; `RateLimiterRuns`, `RateLimiterAnswers` and
`RateLimiterCache` over `RateLimiter`; `Idempotency` and `PurchaseRetries`;
`VehicleOrderRuns` and `VehicleOrderAnswers` over `VehicleOrders`; `AuditBuffer` and
`AuditFlushes`; `Recovery`, `Financing`, `NumberText`, `Accounts`, `MaintenancePlan`, and
`Profitability` with `Workshop`, each with its answers; `Movements`; with `Money`, `Text`
and `Prelude` shared by all.

## Model

| member | source | states |
|---|---|---|
| RateLimiter.PostgresRateLimiter.constructor | app/core/rate_limiting.py:94-101 | A new worker has an empty cache, its first cleanup due at once, and a cache size clamped at zero. |
| RateLimiter.PostgresRateLimiter.Check | app/core/rate_limiting.py:103-149 | One check, over the shared table and the private cache: its outcome, the new table and the new cache are those of the specification `Decide`, for every answer the database may give and every failure; the rows of `RateLimiterAnswers` say what those are. |
| RateLimiter.PostgresRateLimiter.CachedRejection | app/core/rate_limiting.py:111-115 | The loop over cached rejections answers exactly when some budget of the request has one in force, and refreshes that entry only. |
| RateLimiter.PostgresRateLimiter.RememberRejections | app/core/rate_limiting.py:141-146 | Inserting, moving to the end and evicting inside the loop leaves the cache that drops, appends and trims once. |
| RateLimiter.PostgresRateLimiter.EvictOldest | app/core/rate_limiting.py:145-146 | The eviction loop keeps the most recently used entries, in order. |
| RateLimiter.RetryAfterIsLeast | app/core/rate_limiting.py:106-148 | The waiting time lies in 1..60, waiting that long leaves the window, and one second less does not. |
| RateLimiter.TrimBeforeTouch | app/core/rate_limiting.py:141-146 | Evicting before or after an entry is refreshed gives the same cache. |
| RateLimiterRuns.MonotoneIsOrderly | app/core/rate_limiting.py:104-105 | A clock that never goes back across workers is one way to be orderly. |
| RateLimiterRuns.OrderlyIsOnTime | app/core/rate_limiting.py:104-105 | An orderly run is orderly for every budget and on time at every check, which is all the results below need. |
| RateLimiterRuns.StepCounter | app/core/rate_limiting.py:120-138 | No step, cleanup or failure touches a counter of an open window, except a check that counts it, which adds one. |
| RateLimiterRuns.CounterIsExact | app/core/rate_limiting.py:116-138 | Over every orderly run the stored counter of an open window is the number of committed attempts, saturated. |
| RateLimiterRuns.BlocksAreBacked | app/core/rate_limiting.py:139-146 | Every cached rejection of every worker is backed by a committed count above its limit. |
| RateLimiterRuns.AdmittedMeaning | app/core/rate_limiting.py:139-149 | An admitted request found every one of its budgets within its limit. |
| RateLimiterRuns.RefusedMeaning | app/core/rate_limiting.py:111-148 | A refused request has a budget whose committed count is above its limit, cached answer or not. |
| RateLimiterRuns.AdmissionsBounded | app/core/rate_limiting.py:103-149 | For any number of workers, cache sizes, interleavings, evictions, cleanups and failures, at most `limit` requests are admitted under a key in its window, for limits up to the saturation value; the clock discipline is only asked of the checks under that key. |
| RateLimiterRuns.SaturatedLimitNeverRefuses | app/core/rate_limiting.py:124 | That bound is sharp: a limit past the saturation value never refuses. |
| RateLimiterRuns.RefusalIsBacked | app/core/rate_limiting.py:111-148 | A refusal is never premature: some budget had more committed attempts than its limit. |
| RateLimiterRuns.SingleBudgetIsExact | app/core/rate_limiting.py:103-149 | With one budget and a working store the limiter admits exactly the first `limit` requests of the window. |
| RateLimiterRuns.StaysUncached | app/core/rate_limiting.py:100-146 | A cache size of zero switches the cache off for good. |
| RateLimiterRuns.CachedCommitsFewer | app/core/rate_limiting.py:111-115 | On the same requests the cached limiter never commits more attempts than the uncached one. |
| RateLimiterRuns.CacheSimulation | app/core/rate_limiting.py:103-149 | On the same requests, counters stay at or below the uncached ones and whatever the uncached limiter admits the cached one admits. |
| RateLimiterRuns.LateCheckRestartsTheCount | app/core/rate_limiting.py:104-137 | The clock discipline is needed: whenever a check may run after another has seen the end of its window, some run admits more than the limit. |
| RateLimiterAnswers.RefusalSaysHowLong | app/core/rate_limiting.py:103-148 | Over every run, every refusal, cached or not, tells the client the least number of seconds, from 1 to 60, after which the next window has begun. |
| RateLimiterAnswers.AdmittedIff | app/core/rate_limiting.py:116-149 | A check the store answers admits exactly when, under every name of the request, the attempts committed in the window leave room below the last limit given for it. |
| RateLimiterAnswers.LimitOfLast | app/core/rate_limiting.py:107 | Of several budgets with one name the last one sets the limit. |
| RateLimiterAnswers.RefusalIsRemembered | app/core/rate_limiting.py:139-148 | A worker with room remembers what it has just refused. |
| RateLimiterAnswers.NextIsAnsweredFromCache | app/core/rate_limiting.py:111-115 | The next check of the same budgets in the same window, on that worker, is refused without touching the store. |
| RateLimiterAnswers.FailureMeaning | app/core/rate_limiting.py:116-138 | A check that fails counts exactly if it had committed, and only moves the next cleanup of its worker, if it got that far. |
| RateLimiterAnswers.CleanupsAreAMinuteApart | app/core/rate_limiting.py:128-137 | Over every run, one worker removes rows at most once a minute. |
| RateLimiterAnswers.CleanupClears | app/core/rate_limiting.py:128-137 | A cleanup that is due and committed takes only expired rows nobody has locked: all of them, or a thousand of the oldest. |
| RateLimiterCache.CachesStayBounded | app/core/rate_limiting.py:145-146 | Over every run every cache keeps within its size and holds a rejection once. |
| RateLimiterCache.EvictedAfterOthers | app/core/rate_limiting.py:111-146 | Least recently used: a rejection a check used, as a hit or confirmed by the store, is still cached unless the worker has used as many others since as its cache holds. |
| Ledger.ValidAppend | app/modules/administracion/service.py:1246-1489 | Appending an original, or the first counter-entry of an entry, keeps the shape of the ledger. |
| Ledger.OneTail | app/modules/administracion/service.py:1246-1466 | Chains of counter-entries do not branch: only the last entry of a chain is not reversed. |
| Ledger.LiveAfter | app/modules/administracion/service.py:1246-1489 | A counter-entry flips whether every entry of its own chain stands, and of no other. |
| Ledger.TailAmount | app/modules/administracion/service.py:1252-1488 | The last entry of a chain has the sign of the original exactly when the original stands. |
| Ledger.ChainNet | app/modules/administracion/service.py:1235-1489 | A chain nets to the amount of its original while it stands, and to zero otherwise. |
| Ledger.NetIsLive | app/modules/administracion/service.py:935-1489 | The net of any selection of chains is the total of the originals that stand, for every amount a counter-entry negates. |
| Money.RoundIsNearest | app/modules/administracion/purchase_workflow.py:28-29 | Half-up to the cent: the nearest cent, ties away from zero, and nothing else. |
| Money.RoundExact | app/modules/administracion/purchase_workflow.py:28-29 | Whole cents are left as they are. |
| Text.StripIs | app/modules/ajustes/bulk.py:109 | A stripped text is the text without the blanks around it, and no more. |
| Text.CasesAre | app/modules/compras/service.py:247 | Capitals and small letters are exchanged at their place of the alphabet. |
| PurchaseWorkflow.Session.CreateRequest | app/modules/administracion/service.py:358-397 | Creates the purchase and its lines, or raises and changes nothing. |
| PurchaseWorkflow.Session.Receive | app/modules/administracion/purchase_workflow.py:83-181 | Validation interleaved with mutation over the items: the result is that of the specification, and an error midway leaves no lot, receipt, quantity or event. |
| PurchaseWorkflow.Session.ReceiveItems | app/modules/administracion/purchase_workflow.py:107-170 | The loop stocks every item, or reports the first problem, seeing the lines as already changed. |
| PurchaseWorkflow.Session.UpdateStatus | app/modules/administracion/service.py:399-474 | Transitions, quotes and receipt of what is missing, or an error and no change. |
| PurchaseWorkflow.Session.ReceiveMissing | app/modules/administracion/service.py:436-469 | The loop over the lines receives exactly what is missing of each, skipping complete lines. |
| PurchaseWorkflow.Session.Reconcile | app/modules/administracion/purchase_workflow.py:227-295 | Invoice, rewritten lot costs, total and payment fields, or an error and no change, as `PurchaseAnswers.ReconcileAcceptedIff`, `ReconcileTotal`, `ReconcileCosts` and `ReconcileEffect` spell out. |
| PurchaseWorkflow.Session.RecostLines | app/modules/administracion/purchase_workflow.py:243-264 | The nested loops rewrite the cost of every lot of the purchase by its part and add up the subtotal. |
| PurchaseWorkflow.RecostOneMore | app/modules/administracion/service.py:370-372 | Distinct parts at work: the rewrite for a line touches no lot an earlier line has costed. |
| PurchaseWorkflow.Session.Pay | app/modules/administracion/purchase_workflow.py:297-384 | One payment: the expense, the paid amount, the date and the event, or an error and no change, as `PurchaseAnswers.PayAcceptedIff` and `PayEffect` spell out. |
| PurchaseWorkflow.Session.CreateExpense | app/modules/administracion/service.py:1300-1411 | An expense, and when it names purchases, their settlement in one payment. |
| PurchaseWorkflow.Session.ReverseExpense | app/modules/administracion/service.py:1413-1518 | A counter-entry, and the payment taken back from every purchase found. |
| PurchaseWorkflow.Session.UndoPayments | app/modules/administracion/service.py:1490-1515 | The loop over the purchases found takes the latest payment of the entry off each. |
| PurchaseGoodsAnswers.CreateAcceptedIff | app/modules/administracion/service.py:358-397 | A request is accepted exactly for a supplier of the filial, distinct parts and parts in scope. |
| PurchaseGoodsAnswers.CreateEffect | app/modules/administracion/service.py:358-397 | It adds one purchase, ENVIADA, with a line for every input, nothing received, invoiced or paid. |
| PurchaseGoodsAnswers.ReceiveAcceptedIff | app/modules/administracion/purchase_workflow.py:83-125 | A receipt is accepted exactly for a purchase that is open, distinct lines of it, something to receive, scope, quoted lines, and no line beyond its order. |
| PurchaseGoodsAnswers.ReceiveMoves | app/modules/administracion/purchase_workflow.py:107-170 | Each line gets exactly what was asked of it, in a new lot of its part at its quoted cost, and there is no other new lot. |
| PurchaseGoodsAnswers.ReceiveRecords | app/modules/administracion/purchase_workflow.py:150-181 | One event tells of each lot, in order; the status is RECIBIDA exactly when every line is complete; nothing else changes. |
| PurchaseGoodsAnswers.ReceiveReason | app/modules/administracion/purchase_workflow.py:83-125 | The reason of a refused receipt is true. |
| PurchaseGoodsAnswers.StatusAcceptedIff | app/modules/administracion/service.py:399-436 | A status is set by hand exactly to quote every line, to receive what is missing of a paid purchase, to cancel one that received nothing, or to no change. |
| PurchaseGoodsAnswers.StatusReason | app/modules/administracion/service.py:399-436 | The reason of a refused status is true. |
| PurchaseGoodsAnswers.StatusEffect | app/modules/administracion/service.py:399-474 | It changes the status and adds its event; lots and lines change only with the two rows below. |
| PurchaseGoodsAnswers.QuotingEffect | app/modules/administracion/service.py:419-434 | Quoting gives each line the last cost listed for it. |
| PurchaseGoodsAnswers.HandReceiptEffect | app/modules/administracion/service.py:436-469 | Receiving by hand brings in exactly what each line lacks, in lots of their own. |
| PurchaseGoodsAnswers.TransferEffect | app/modules/administracion/purchase_workflow.py:261-263 | A transferred lot is of the same part, cost and purchase as its origin. |
| PurchaseAnswers.ReconcileAcceptedIff | app/modules/administracion/purchase_workflow.py:227-264 | An invoice is accepted exactly for a complete purchase without one, when it is numbered and prices every line once. |
| PurchaseAnswers.ReconcileTotal | app/modules/administracion/purchase_workflow.py:265-272 | The total is the value of the stock received, at its new costs, plus the percentage of it to the nearest cent. |
| PurchaseAnswers.ReconcileCosts | app/modules/administracion/purchase_workflow.py:243-264 | Every lot of a part of the purchase, transferred or not, costs the cents nearest to what the invoice says for its line. |
| PurchaseAnswers.ReconcileEffect | app/modules/administracion/purchase_workflow.py:265-295 | What else an invoice changes, and that no other purchase, lot or entry moves. |
| PurchaseAnswers.ReconcileReason | app/modules/administracion/purchase_workflow.py:227-275 | The reason of a refused invoice is true; in a consistent state none is refused for being below its payments. |
| PurchaseAnswers.PayAcceptedIff | app/modules/administracion/purchase_workflow.py:297-362 | A payment is accepted exactly when everything but the amount allows it and the cents nearest to its dollars, bolivars divided by the rate, are positive and within what is left to pay. |
| PurchaseAnswers.PayEffect | app/modules/administracion/purchase_workflow.py:325-384 | The new expense holds the cents nearest to the amount, in its account and currency, and to its dollars; `paid` grows by exactly those dollars, and the purchase is settled exactly when that is its total. |
| PurchaseAnswers.PayReason | app/modules/administracion/purchase_workflow.py:297-362 | The reason of a refused payment is true: too small below half a cent, overpayment when its cents exceed what is left. |
| PurchaseAnswers.PlainExpenseAcceptedIff | app/modules/administracion/service.py:1300-1374 | When an expense without purchases is accepted. |
| PurchaseAnswers.GroupedExpenseAcceptedIff | app/modules/administracion/service.py:1316-1374 | One that names purchases is accepted exactly when it may settle each, names each once, and its cents are what they owe together. |
| PurchaseAnswers.ExpenseEffect | app/modules/administracion/service.py:1360-1411 | The entry it leaves: the cents nearest to its amount and to its dollars, under the purchase it pays, or as a group. |
| PurchaseAnswers.ExpenseSettles | app/modules/administracion/service.py:1384-1407 | Every purchase named is paid in full, with the event and the entry; no other changes. |
| PurchaseAnswers.ExpenseReason | app/modules/administracion/service.py:1300-1374 | The reason of a refused expense is true, of one of the purchases where it speaks of one. |
| PurchaseAnswers.ReverseAcceptedIff | app/modules/administracion/service.py:1413-1424 | An expense can be reversed exactly once, unless it belongs to a reservation. |
| PurchaseAnswers.CounterEffect | app/modules/administracion/service.py:1466-1489 | The counter-entry has the opposite amounts, in the same account and filial, and no source. |
| PurchaseAnswers.ReversalReopens | app/modules/administracion/service.py:1425-1515 | Whatever the books hold, a reversal opens again exactly the purchases the entry names, or that name it while it is a grouped payment or has no source, by an event that tells the amount, never below zero. |
| PurchaseAnswers.ReversalCorrects | app/modules/administracion/service.py:1490-1515 | Over consistent books each of them loses exactly a payment recorded under the entry. |
| PurchaseGoods.DeliveryKeepsGoods | app/modules/administracion/purchase_workflow.py:97-170 | A delivery keeps, for every line, received quantity = sum of its receipts = stock that entered for it, within the order. |
| PurchaseGoods.ReceiveKeepsGoods | app/modules/administracion/purchase_workflow.py:83-181 | `receive` keeps the goods invariant, whatever its input. |
| PurchaseGoods.MissingCompletes | app/modules/administracion/service.py:436-469 | Receiving what is missing completes every line. |
| PurchaseGoods.UpdateStatusKeepsGoods | app/modules/administracion/service.py:399-474 | So does every status change: complete lines exactly in RECIBIDA and CONCILIADA, nothing received in CANCELADA. |
| PurchaseGoods.ReconcileKeepsGoods | app/modules/administracion/purchase_workflow.py:227-295 | So does reconciling; every lot of an invoiced purchase has the invoiced cost of its part. |
| PurchaseGoods.TransferKeepsGoods | app/modules/administracion/purchase_workflow.py:261-263 | So does a transfer of a lot, which keeps the purchase it came from. |
| PurchaseGoods.ReconciliationConservesValue | app/modules/administracion/purchase_workflow.py:243-272 | After reconciling, the receipt lots at their new costs are worth the invoice subtotal, and the total is the subtotal plus its half-up IVA, which `PurchaseAnswers.ReconcileTotal` spells out. |
| PurchasePayments.OutstandingAfterReversal | app/modules/administracion/service.py:1493-1515 | A reversal event takes back exactly what its entry had paid. |
| PurchasePayments.FoundPayment | app/modules/administracion/service.py:1493-1502 | The payment a reversal finds is recorded, stands, and is at most the paid amount. |
| PurchasePayments.ClampNeverFires | app/modules/administracion/service.py:1502-1506 | For every purchase a reversal finds, the event is there and `max(0, …)` never clamps. |
| PurchasePayments.ReversalRecorded | app/modules/administracion/service.py:1502-1515 | A reversed payment leaves the purchase consistent. |
| PurchaseSteps.PayKeepsMoney | app/modules/administracion/purchase_workflow.py:297-384 | A payment keeps the payment invariant of every purchase and of every ledger entry. |
| PurchaseSteps.ReconcileKeepsMoney | app/modules/administracion/purchase_workflow.py:265-283 | So does reconciling. |
| PurchaseSteps.GroupKeepsMoney | app/modules/administracion/service.py:1316-1411 | So does a grouped payment: the entry is worth the balances it settles. |
| PurchaseSteps.CreateExpenseKeepsMoney | app/modules/administracion/service.py:1300-1411 | So does any expense, accepted or refused. |
| PurchaseSteps.ReverseKeepsMoney | app/modules/administracion/service.py:1413-1518 | So does a reversal, of any entry. |
| PurchaseLedger.PaidIsLive | app/modules/administracion/service.py:1360-1515 | A purchase in agreement, however it was paid and whatever became of the others, was paid its share of the payments the ledger still holds. |
| PurchaseLedger.SinglePurchaseMatchesLedger | app/modules/administracion/purchase_workflow.py:297-384 | If it was only paid on its own, that is the net ledger expense over its own payments and their counter-entries. |
| PurchaseLedger.PurchasesMatchLedger | app/modules/administracion/service.py:1360-1407 | In agreement, grouped payments included, all paid amounts together are the net ledger expense of all purchase payments. |
| PurchaseLedger.SingleIsFaithful | app/modules/administracion/service.py:1425-1431 | Reversing a payment made on its own, for the first time, always finds its purchase. |
| PurchaseLedger.ReversalKeepsAgreementForIff | app/modules/administracion/service.py:1413-1515 | A reversal keeps one purchase in agreement exactly when it is faithful to it: if the purchase was paid through the chain, then by the entry itself, which it still names. |
| PurchaseLedger.ReversalKeepsShareIff | app/modules/administracion/service.py:1413-1515 | It leaves the paid amount equal to the share in the ledger exactly then. |
| PurchaseLedger.SingleFaithfulIff | app/modules/administracion/service.py:1425-1459 | To a purchase paid on its own every reversal is faithful but that of a counter-entry of its own payments. |
| PurchaseLedger.ReversalKeepsAgreementIff | app/modules/administracion/service.py:1413-1515 | A reversal keeps purchases and ledger in agreement exactly when it is faithful: not inside the chain of a purchase payment, and still named by every purchase it paid. |
| PurchaseLedger.ReversalKeepsAmountsIff | app/modules/administracion/service.py:1413-1515 | From a state in agreement, a reversal leaves the paid amounts equal to the net ledger expense exactly when it is faithful. |
| PurchaseRuns.RunKeepsPromises | app/modules/administracion/purchase_workflow.py:83-384 | After any run of calls, failed ones included, the goods and the payment invariants hold. |
| PurchaseRuns.EveryPurchaseIsConsistent | app/modules/administracion/purchase_workflow.py:265-384 | The same for one purchase: paid = payments not reversed, 0 <= paid <= total, `paid_at` set exactly when fully paid, quantities within the order. |
| PurchaseRuns.FaithfulRunAgrees | app/modules/administracion/service.py:1413-1515 | Without unfaithful reversals, purchases and ledger stay in agreement over the whole run. |
| PurchaseRuns.FaithfulRunMatchesLedger | app/modules/administracion/service.py:1360-1515 | Then what all purchases say was paid is what the ledger spent on them. |
| PurchaseRuns.AmountsMatchIff | app/modules/administracion/service.py:1360-1515 | The two amounts are equal after every call of a run exactly when every reversal that went through was faithful. |
| PurchaseRuns.ShareMatchesIff | app/modules/administracion/service.py:1360-1515 | One purchase, whatever is done to others: its paid amount is its share of the ledger after every call exactly when every reversal that went through was faithful to it. |
| PurchaseRuns.SingleMatchesIff | app/modules/administracion/service.py:1413-1515 | One purchase paid on its own: its paid amount is its net ledger expense after every call exactly when no counter-entry of its payments was reversed. |
| PurchaseGaps.UndoingTheCounterEntryIsLost | app/modules/administracion/service.py:1437-1489 | Reversing the counter-entry of a payment gives the ledger its money back and changes no purchase, so the amounts differ. |
| PurchaseGaps.LaterPaymentHidesTheGroup | app/modules/administracion/service.py:1433-1444 | A grouped payment covered by a later payment of the purchase is no longer found when it is reversed, and the amounts differ. |
| PurchaseGaps.ConcreteRunDisagrees | app/modules/administracion/service.py:1413-1515 | A concrete run, from nothing, whose ledger has spent 6.00 while its purchase says it was paid nothing. |
| PurchaseGaps.GroupedRunDisagrees | app/modules/administracion/service.py:1413-1515 | The same for the grouped payment: a concrete run, from nothing, whose purchases say 6.00 were paid while the ledger has spent 2.00. |
| Idempotency.RetriesAreInvisible | app/core/idempotency.py:37-77 | Any run ends in the state of the run that keeps only the first attempts, and business data is what those calls alone produce. |
| Idempotency.RetryInsertedAnywhere | app/core/idempotency.py:37-64 | A call under an id that has a receipt, whatever it says, changes nothing now or later. |
| Idempotency.ReceiptsStay | app/core/idempotency.py:66-77 | Receipts are never changed or removed. |
| Idempotency.AtMostOnce | app/core/idempotency.py:37-64 | After a success, later calls under the id replay the stored response if actor, filial, operation, resource and payload agree, and conflict otherwise. |
| Idempotency.FailureConsumesNothing | app/core/idempotency.py:37-77 | A failed call consumes no id. |
| PurchaseRetries.Service.ReplayOperation | app/core/idempotency.py:37-64 | Runs the operation exactly when the id has no receipt; otherwise replays or conflicts. |
| PurchaseRetries.Service.RememberOperation | app/core/idempotency.py:66-77 | Writes the receipt of this request, if it has an id. |
| PurchaseRetries.Service.Receive | app/modules/administracion/purchase_workflow.py:83-181 | `receive` with its receipt is the generic protocol around the bare operation. |
| PurchaseRetries.Service.Pay | app/modules/administracion/purchase_workflow.py:297-384 | `pay` with its receipt is the generic protocol around the bare operation. |
| PurchaseRetries.CoherentRetriesReplay | app/modules/administracion/purchase_workflow.py:83-384 | With ids reused only for the same request, every retry of a success replays it and moves neither goods nor money, whatever receipts, payments, reconciliations, transfers or reversals stand between. |
| PurchaseRetries.OtherCallsHappen | app/modules/administracion/service.py:358-474 | A call outside the protocol does what it does in a run of purchases, and leaves the receipts alone. |
| PurchaseRetries.RetryMeaning | app/core/idempotency.py:37-64 | A call under a used id replays exactly when filial, operation, actor, purchase and payload are those of the receipt, else it conflicts; nothing changes. |
| PurchaseRetries.PayAttempt | app/modules/administracion/purchase_workflow.py:297-384 | A first payment is done exactly if the bare payment of what the client sent is accepted, and its receipt says who asked for what and was answered what. |
| PurchaseRetries.ReceiveAttempt | app/modules/administracion/purchase_workflow.py:83-181 | A first receipt of goods, likewise. |
| VehicleOrders.ComprasService.RecomputeStatus | app/modules/compras/service.py:217-230 | The cached status after a change of units, final statuses kept. |
| VehicleOrders.ComprasService.AddReception | app/modules/compras/service.py:232-300 | Checks of the batch, quantities by line, new units and status, or an error and no change, as `VehicleOrderAnswers.ReceptionAcceptedIff`, `ReceptionEffect` and `StatusMeaning` spell out. |
| VehicleOrders.ComprasService.CheckBatch | app/modules/compras/service.py:241-251 | The loop raises the first problem of the batch: line, repeated VIN, VIN already taken. |
| VehicleOrders.ComprasService.CheckQuantities | app/modules/compras/service.py:254-266 | The loop over requested quantities refuses exactly when some line would exceed its order. |
| VehicleOrders.ComprasService.AddInvoice | app/modules/compras/service.py:302-350 | Target units, split of the total, marks and status, or an error and no change, for any order in which the units come. |
| VehicleOrderRuns.SplitIsExactIff | app/modules/compras/service.py:335-346 | The unit costs add up to the invoice exactly unless the last remainder is a negative half cent; then one cent is lost. |
| VehicleOrderRuns.ACentCanBeLost | app/modules/compras/service.py:335-346 | That happens: 0.015 over three units is stored as 0.02 and distributed as 0.01, 0.01 and -0.01. |
| VehicleOrderRuns.WholeCentSplit | app/modules/compras/service.py:335-346 | For totals in whole cents the split is exact, the last unit is within n/2 cents of the share, and not negative when the share is at least that. |
| VehicleOrderRuns.RecomputedIsFromScratch | app/modules/compras/service.py:217-230 | Recomputing the cached status gives the status computed from lines and units. |
| VehicleOrderRuns.ReceptionKeepsYard | app/modules/compras/service.py:232-300 | A reception keeps statuses right, VINs distinct and lines within their orders. |
| VehicleOrderRuns.BillingKeepsYard | app/modules/compras/service.py:302-350 | So does an invoice. |
| VehicleOrderRuns.CreateKeepsYard | app/modules/compras/service.py:186-215 | So does a new order: ENVIADA is its status from scratch, and no unit of it exists yet. |
| VehicleOrderRuns.CancelKeepsYard | app/modules/compras/service.py:352-360 | So does a cancellation. |
| VehicleOrderRuns.RunKeepsYard | app/modules/compras/service.py:217-360 | Over every run: every status of a non-cancelled order is the one from scratch, no line is over-received, and VINs are distinct. |
| VehicleOrderRuns.ClosedOrdersStay | app/modules/compras/service.py:217-360 | A cancelled or reconciled order keeps its status and lines, and receives nothing more, whatever is called later. |
| VehicleOrderRuns.CancelledForGood | app/modules/compras/service.py:352-360 | An order that is cancelled was not complete, and stays as it was, CANCELADA, with what it had received. |
| VehicleOrderRuns.BillingCosts | app/modules/compras/service.py:323-346 | An invoice distributes its total but for the cent it may lose, and changes the cost under no other invoice. |
| VehicleOrderRuns.WholeCentsAreLossless | app/modules/compras/service.py:335-346 | An invoice in whole cents loses nothing. |
| VehicleOrderRuns.RunSplitsExactlyIff | app/modules/compras/service.py:302-350 | After any run, every invoice is distributed to the cent over its units exactly when no accepted invoice lost one. |
| VehicleOrderRuns.ARunLosesACent | app/modules/compras/service.py:186-350 | A run from nothing, three units ordered, received and invoiced at 0.015, after which the costs are not the invoice. |
| VehicleOrderRuns.ConciliadaMeansComplete | app/modules/compras/service.py:217-230 | An order that was not cancelled is CONCILIADA exactly when every ordered unit exists and is invoiced. |
| VehicleOrderRuns.InvoicedOnce | app/modules/compras/service.py:310-321 | Whatever is called later, an invoiced unit is never invoiced again and its cost never changes. |
| VehicleOrderRuns.CostsMatchInvoices | app/modules/compras/service.py:323-346 | The costs of all invoiced units never exceed the sum of all invoices, and equal it exactly when each invoice is fully distributed. |
| VehicleOrderRuns.RunConservesIff | app/modules/compras/service.py:302-350 | After any run the costs of all invoiced units are the sum of all invoices exactly when no accepted invoice lost a cent. |
| VehicleOrderAnswers.StatusMeaning | app/modules/compras/service.py:217-230 | What each stored status says of the ordered lines and the units in the yard, counted one by one. |
| VehicleOrderAnswers.ReceptionAcceptedIff | app/modules/compras/service.py:232-266 | A reception is accepted exactly for an order that is neither cancelled nor complete, lines of it, VINs new and distinct once stripped and in capitals, and no line beyond its order. |
| VehicleOrderAnswers.ReceptionEffect | app/modules/compras/service.py:267-300 | It adds one unit for each input, on its line, under its VIN, with an estimated cost and no invoice, and touches no other order. |
| VehicleOrderAnswers.ReceptionReason | app/modules/compras/service.py:232-266 | The reason of a refused reception is true. |
| VehicleOrderAnswers.CancelAcceptedIff | app/modules/compras/service.py:352-360 | An order is cancelled exactly while it is neither cancelled nor complete, and nothing else changes. |
| VehicleOrderAnswers.CreateEffect | app/modules/compras/service.py:186-215 | A new order has the lines asked for and is ENVIADA. |
| VehicleOrderAnswers.BillingAcceptedIff | app/modules/compras/service.py:302-322 | An invoice is accepted exactly for units of the order not yet invoiced: all those named, or any there are. |
| VehicleOrderAnswers.BillingReason | app/modules/compras/service.py:302-322 | The reason of a refused invoice is true. |
| VehicleOrderAnswers.BillingEffect | app/modules/compras/service.py:323-350 | Every unit covered gets the invoice and, all but one, the cents nearest to an even share of the total; no other unit changes. |
| AuditBuffer.AuditedSession.BeginNested | app/core/audit_logging.py:143-144 | Opening a savepoint leaves every list as it was; later changes go to a list of its own. |
| AuditBuffer.AuditedSession.Collect | app/core/audit_logging.py:141-173 | A flush appends its creations, modified updates and deletions to the list of the innermost transaction, as `AuditFlushes.FlushIsTold` spells out. |
| AuditBuffer.AuditedSession.BulkChange | app/core/audit_logging.py:175-204 | A bulk statement appends one change; a select or a statement without a table none. |
| AuditBuffer.AuditedSession.AfterCommit | app/core/audit_logging.py:206-216 | A released savepoint moves its list to the end of its parent's; the root writes everything and forgets it. |
| AuditBuffer.AuditedSession.AfterRollback | app/core/audit_logging.py:218-224 | A rolled back savepoint drops its list, the root drops everything. |
| AuditBuffer.LogIsExact | app/core/audit_logging.py:141-224 | For any sequence of writes, savepoints, commits and rollbacks, the log is exactly the changes whose enclosing transactions are all finally committed, in order and each once. |
| AuditBuffer.LogFromStart | app/core/audit_logging.py:141-224 | The same from a new session. |
| AuditBuffer.TransactionIsExact | app/core/audit_logging.py:206-224 | For nested work, committing the root logs exactly what no savepoint undid; rolling it back logs nothing. |
| AuditFlushes.FlushIsTold | app/core/audit_logging.py:141-173 | A flush records one change for every created, modified and deleted object, in this order, with its operation, table, ids and columns, and nothing for an unmodified one. |
| AuditFlushes.ToldOnce | app/core/audit_logging.py:141-173 | That leaves one possible sequence of records. |
| AuditFlushes.FlushThenCommit | app/core/audit_logging.py:141-216 | A flush and a commit of the root add exactly the records of its objects to the log. |
| AuditFlushes.LogTellsObjects | app/core/audit_logging.py:141-224 | For any run of flushes, bulk statements, savepoints, commits and rollbacks from a new session, the log tells, in order and once each, every object created, modified or deleted by what was finally committed. |
| AuditFlushes.RecordsExist | app/core/audit_logging.py:141-204 | Every run has such records. |
| NumberText.Parse | app/modules/ajustes/bulk.py:108-129 | An accepted number is not negative; an accepted integer is whole and at most 2147483647. |
| NumberText.PriceRoundTrip | app/modules/concesionario/documents.py:18 | `number` reads the printed price of every amount in cents back as that amount. |
| NumberText.MileageRoundTrip | app/modules/concesionario/documents.py:81-85 | `number(…, integer=True)` reads the printed mileage back exactly when it is at most 2147483647, and raises above. |
| NumberText.PlainRoundTrip | app/modules/ajustes/bulk.py:112-124 | The form with a decimal point and two decimals is read as such. |
| NumberText.PointIsDecimalIff | app/modules/ajustes/bulk.py:117-120 | A point is read as the decimal point unless one to three digits, not starting with zero, are followed by three: those are thousands. |
| NumberTextAnswers.BlanksAreIgnored | app/modules/ajustes/bulk.py:108-112 | Blanks around a text change nothing, and only blanks are no number. |
| NumberTextAnswers.DigitsAreRead | app/modules/ajustes/bulk.py:112-129 | A run of digits is its value, up to 2147483647 as an integer. |
| NumberTextAnswers.SignsAreRead | app/modules/ajustes/bulk.py:121-126 | A plus sign says nothing; a minus sign is allowed on zero only. |
| NumberTextAnswers.CommaIsRead | app/modules/ajustes/bulk.py:112-129 | A comma between digits is the decimal point. |
| NumberTextAnswers.BadFormatIff | app/modules/ajustes/bulk.py:112-116 | A text with a comma is refused as badly written exactly unless what precedes it is digits, plain or in groups of three, and what follows is digits. |
| NumberTextAnswers.UnderscoresAreIgnored | app/modules/ajustes/bulk.py:121 | An underscore between digits says nothing. |
| NumberTextAnswers.ExponentsAreRead | app/modules/ajustes/bulk.py:121 | An exponent moves the point to the right, or to the left after a minus sign. |
| NumberTextAnswers.StrangeIsRefused | app/modules/ajustes/bulk.py:112-126 | A text with any other character is refused. |
| NumberTextAnswers.PriceLooks | app/modules/concesionario/documents.py:18 | A printed price has points between thousands, a comma and two decimals. |
| NumberTextAnswers.MileageLooks | app/modules/concesionario/documents.py:81-85 | A printed mileage has points between thousands. |
| Movements.SortIsStable | app/modules/administracion/service.py:1053 | The sort keeps the order of movements with equal keys. |
| Movements.FeedMatchesFullSort | app/modules/administracion/service.py:986-1054 | Fetching the newest of each table, merging, sorting and cutting gives the key sequence of sorting everything, for any tables, any order of ties and any limit. |
| Movements.FeedIsReal | app/modules/administracion/service.py:994-1054 | The feed repeats nothing and invents nothing. |
| Movements.NothingNewerIsMissing | app/modules/administracion/service.py:990-1054 | No movement newer than one shown is left out. |
| Movements.FeedIsNewestFirst | app/modules/administracion/service.py:986-1054 | The feed shows later dates first, then later creations, and is as long as the limit and the movements allow. |
| Accounts.AccountsService.AccountBalance | app/modules/administracion/service.py:934-945 | The balance is the opening plus incomes minus expenses in the currency of the account. |
| Accounts.AccountsService.UndoIncome | app/modules/administracion/service.py:1235-1275 | Appends the counter-entry, or raises and changes nothing. |
| Accounts.AccountsService.MoveMoney | app/modules/administracion/service.py:1520-1583 | Appends the two legs of a transfer, or raises and changes nothing. |
| Accounts.BalanceIsLive | app/modules/administracion/service.py:934-1489 | After any run, a balance is the opening plus the incomes that stand minus the expenses that stand, however often entries were undone and redone. |
| Accounts.ReversalUndoesIncome | app/modules/administracion/service.py:1252-1272 | Reversing an income takes exactly it out of every balance. |
| Accounts.ReversalUndoesExpense | app/modules/administracion/service.py:1468-1488 | Reversing an expense gives exactly it back to every balance. |
| Accounts.RecordThenReverse | app/modules/administracion/service.py:1235-1275 | Recording and reversing restores every balance. |
| Accounts.TransferMoves | app/modules/administracion/service.py:1534-1583 | A transfer takes the amount from one account, adds what arrives to the other, and touches no third. |
| Accounts.SecondTransfer | app/modules/administracion/service.py:1534-1577 | Sending back what a transfer across currencies stored, at the same rate, stores the amount converted there and back, rounded to cents each time. |
| Accounts.ComesBackIff | app/modules/administracion/service.py:1534-1549 | Every amount in cents comes back from that exactly when the rate of the first conversion is at least one. |
| Accounts.LegsAgreeInDollars | app/modules/administracion/service.py:1534-1577 | Both legs carry the same value in dollars, which is the amount of a leg in dollars. |
| Accounts.TransferConserves | app/modules/administracion/service.py:1534-1583 | A transfer within a currency keeps the total of every currency; across currencies each total moves by its own leg. |
| Accounts.LegReversalConservesIff | app/modules/administracion/service.py:1235-1275 | Reversing the income leg alone keeps the total of its currency exactly when the leg is worth nothing. |
| Accounts.ExpenseLegReversalConservesIff | app/modules/administracion/service.py:1413-1489 | Reversing the expense leg alone, likewise. |
| Accounts.LegsAreReversible | app/modules/administracion/service.py:1235-1489 | After any transfer either leg can be reversed, alone or after the other, and the order does not matter. |
| Accounts.LegUndoneMovesTotal | app/modules/administracion/service.py:1235-1583 | With one leg undone the total of every currency is off by the leg that stands. |
| Accounts.BothLegsUndone | app/modules/administracion/service.py:1235-1583 | With both undone every balance is what it was before the transfer. |
| Accounts.ARunLosesTheLeg | app/modules/administracion/service.py:1235-1583 | A run from nothing: 10.00 move within a currency, reversing the income leaves its total 10.00 short, reversing the expense too restores it. |
| AccountsAnswers.TransferAcceptedIff | app/modules/administracion/service.py:1520-1549 | A transfer is accepted exactly between two existing accounts, in an open period, with the rate it needs; the reason of a refused one is true. |
| AccountsAnswers.TransferEffect | app/modules/administracion/service.py:1534-1583 | The two legs: the cents nearest to what leaves, to what arrives at the rate, and to their common value in dollars. |
| AccountsAnswers.IncomeReversal | app/modules/administracion/service.py:1235-1275 | An income can be reversed exactly once, unless it belongs to a reservation, by its opposite. |
| AccountsAnswers.ExpenseReversal | app/modules/administracion/service.py:1413-1489 | An expense, likewise. |
| AccountsAnswers.BalanceIs | app/modules/administracion/service.py:934-945 | A balance is the opening, plus the incomes and minus the expenses of the account in its own currency. |
| Profitability.ConsolidationIsAdditive | app/modules/administracion/service.py:2041-2276 | The report of distinct filiales is the sum of their own reports at the same rate, line by line. |
| Profitability.TotalsAreAdditive | app/modules/administracion/service.py:2124-2229 | So are net sales, direct cost and net profit. |
| Profitability.WarrantyEffect | app/modules/administracion/service.py:2170-2172 | Over distinct filiales a claim costs once. |
| Profitability.SaleEffect | app/modules/administracion/service.py:1698-1754 | A vehicle sale moves the net profit by its price less its cost, frozen at the sale if it was. |
| Profitability.PartEffect | app/modules/administracion/service.py:1756-1805 | A counter sale moves it by its total less its recorded or average cost. |
| Profitability.IncomeEffect | app/modules/administracion/service.py:1927-1987 | An income moves it by its dollars, if brand warranty or intermediation, and by its gain in exchange. |
| Profitability.ExpenseEffect | app/modules/administracion/service.py:2128-2152 | An expense moves it by its dollars, if operating or commission, and by its gain in exchange, both negative. |
| Profitability.ReturnAndRetentionEffect | app/modules/administracion/service.py:2153-2228 | A stock return is lost at cost, a retained deposit is earned. |
| Profitability.FrozenRateCancels | app/modules/administracion/service.py:1948-1987 | A charged expense in bolivars weighs its bolivars at the closing rate, whatever rate it was frozen at. |
| Profitability.TransferIsNeutral | app/modules/administracion/service.py:1948-1987 | A transfer within a currency, two legs of the same money, changes no profit at any closing rate. |
| Profitability.TransferEffect | app/modules/administracion/service.py:1948-1987 | Any transfer moves the profit by the exchange gains of its two legs and nothing else. |
| Profitability.ExchangeIsNeutralIff | app/modules/administracion/service.py:1534-1577 | A transfer across currencies moves the profit by what its bolivars gain at the closing rate; it is neutral exactly when there is no closing rate, or it is the agreed one. |
| ProfitabilityAnswers.NoRows | app/modules/administracion/service.py:2041-2229 | Without rows every line of the report is zero. |
| ProfitabilityAnswers.SaleLine | app/modules/administracion/service.py:1698-1754 | One more vehicle sale moves only its line: by its price, and by its cost frozen at the sale, or else the vehicle's. |
| ProfitabilityAnswers.CounterLine | app/modules/administracion/service.py:1756-1805 | One more part sold, only the line of parts: by its total, and by its quantity at its own cost, or else the average. |
| ProfitabilityAnswers.IncomeLine | app/modules/administracion/service.py:1927-1987 | One more income, only the line of its concept and the exchange. |
| ProfitabilityAnswers.ExpenseLine | app/modules/administracion/service.py:1948-2152 | One more expense, only the line of its category and the exchange. |
| ProfitabilityAnswers.ReturnLine | app/modules/administracion/service.py:2153-2169 | One more stock return, only the losses of stock. |
| ProfitabilityAnswers.SettlementLine | app/modules/administracion/service.py:2173-2228 | One more settlement, only the deposits retained. |
| ProfitabilityAnswers.ClaimLine | app/modules/administracion/service.py:2170-2172 | One more claim, only the warranty, once. |
| ProfitabilityAnswers.InvoiceLine | app/modules/administracion/service.py:1826-1840 | One more invoice: its labour and its parts on their lines if it tells them apart, else all of it as labour. |
| ProfitabilityAnswers.DispatchLineOfInvoice | app/modules/administracion/service.py:1842-1891 | One more dispatched line of an invoiced order costs its lots, or its own record when they cost nothing, on the line its invoice says. |
| ProfitabilityAnswers.DispatchLineUnbilled | app/modules/administracion/service.py:1842-1891 | One of no invoice costs nothing yet. |
| Workshop.Department | app/modules/administracion/service.py:1807-1925 | The dictionary loops compute the two workshop rows of the report and the orders that lose money. |
| Workshop.CostByOrder | app/modules/administracion/service.py:1847-1886 | The dictionary holds every order's own cost, and sums to the cost of any set of orders. |
| Workshop.CostByLine | app/modules/administracion/service.py:1866-1876 | The dictionary of lot costs holds every line's allocations. |
| Workshop.BucketIsShare | app/modules/administracion/service.py:1888-1891 | The sum over a bucket of orders is the sum over the lines of its invoices. |
| Workshop.SalesAreSplit | app/modules/administracion/service.py:1826-1840 | Labour and parts sales share out every invoice. |
| Workshop.BucketsShareOutOrders | app/modules/administracion/service.py:1847-1891 | The two cost buckets together are exactly the sum of the invoiced orders' own costs. |
| ProfitabilityAnswers.LossesAre | app/modules/administracion/service.py:1893-1925 | The orders reported as losing money are exactly those whose invoice, its parts if it tells them apart, is worth less than was spent on them. |
| MaintenancePlan.AddMonthsIsExact | app/modules/clients/service.py:59-64 | The result is a real date exactly that many calendar months on, on the same day or the last of the month; it raises exactly past the year 9999. |
| MaintenancePlan.AddMonthsIsMonotone | app/modules/clients/service.py:59-64 | More months is strictly later. |
| MaintenancePlan.AddMonthsKeepsOrder | app/modules/clients/service.py:59-64 | A later start is never earlier. |
| MaintenancePlan.TwoSteps | app/modules/clients/service.py:59-64 | Two steps never land later than one, and land on the same date exactly when the month between is long enough for the final day. |
| MaintenancePlan.Completions | app/modules/clients/service.py:761-775 | The dictionary keeps the most recent completion of every service. |
| MaintenancePlan.PlanStatus | app/modules/clients/service.py:753-799 | The loop gives every entry, in plan order, its status, and raises exactly when a date it needs is off the calendar. |
| MaintenancePlan.StatusesByPosition | app/modules/clients/service.py:777-798 | OMITIDO is exactly before, VENCIDO and PENDIENTE exactly after, the last CUMPLIDO. |
| MaintenancePlan.OutOfOrderIff | app/modules/clients/service.py:753-798 | In any plan, exactly when PENDIENTE comes before VENCIDO: the earlier entry gives kilometres and the later is overdue by its date only, or the earlier gives none and the later a billion kilometres or more. |
| MaintenancePlan.KmPlansInOrder | app/modules/clients/service.py:753-798 | In plans by kilometres only, VENCIDO comes before PENDIENTE. |
| MaintenancePlan.MixedPlanOutOfOrder | app/modules/clients/service.py:753-798 | A concrete plan with dates shows them out of order. |
| MaintenancePlan.OverdueStays | app/modules/clients/service.py:786-798 | Later days and more kilometres only turn PENDIENTE into VENCIDO. |
| MaintenanceAnswers.StatusMeaning | app/modules/clients/service.py:753-799 | What each status says in completed tasks, kilometres and days of the calendar. |
| MaintenanceAnswers.CalendarIsGregorian | app/modules/clients/service.py:59-64 | Which days end their month. |
| MaintenanceAnswers.RaisesIff | app/modules/clients/service.py:753-799 | A plan raises exactly when a date it has to compute lies past December 9999. |
| MaintenanceAnswers.NewestIsFirst | app/modules/clients/service.py:761-775 | The completion that counts is the first row of its service. |
| Financing.FinancingService.Sync | app/modules/concesionario/financing.py:88-111 | One report: stored, ignored as a repetition, or refused without change. |
| Financing.BalanceIsSound | app/modules/concesionario/financing.py:45-79 | The balance is never negative; a complete schedule fully paid settles the credit, and an unsettled complete one has an unpaid installment. |
| Financing.ContractsStayUnique | app/modules/concesionario/financing.py:105-109 | Whatever is delivered, no two sales of a filial hold the same contract. |
| Financing.NeverOlder | app/modules/concesionario/financing.py:97-101 | A snapshot is only replaced by a later report. |
| Financing.LatestReportWinsFor | app/modules/concesionario/financing.py:88-111 | One sale: whatever is delivered for the others, in any order and with any repetitions, it ends with its latest report, or what it held, as long as no other sale of the filial holds or reports its contracts. |
| Financing.AlwaysSettledIff | app/modules/concesionario/financing.py:88-111 | It is so after every delivery exactly when no report that should win met another sale holding its contract. |
| Financing.LatestReportWins | app/modules/concesionario/financing.py:88-111 | With the contracts of all sales told apart, all of them end so. |
| Financing.OrderDoesNotMatterFor | app/modules/concesionario/financing.py:88-111 | Two deliveries of the same reports end the same for a sale whose contracts are its own and whose reports differ in time. |
| Financing.OrderDoesNotMatter | app/modules/concesionario/financing.py:88-111 | For all sales, likewise. |
| FinancingAnswers.SyncMeaning | app/modules/concesionario/financing.py:88-111 | A report is accepted exactly for a financed sale, if it repeats what is held, or is newer and no other sale of the filial holds its contract; it is stored exactly if newer; the reason of a refused one is true. |
| FinancingAnswers.CreditMeaning | app/modules/concesionario/financing.py:45-79 | What is owed, and which state a credit is in on a day. |
| Recovery.RecoveryService.Issue | app/modules/auth/recovery.py:116-175 | A new code, with the earlier ones consumed, or an error and no change, a failed delivery included. |
| Recovery.RecoveryService.Verify | app/modules/auth/recovery.py:191-221 | Accepts or refuses a code; a wrong one is counted. |
| Recovery.RecoveryService.ResetPassword | app/modules/auth/recovery.py:223-243 | A right code sets the password and consumes every open challenge of the user. |
| Recovery.RecoveryService.VerifyPhone | app/modules/auth/recovery.py:260-265 | A right code enrols the phone and consumes its challenge. |
| Recovery.RunIsSound | app/modules/auth/recovery.py:116-265 | Over every run: codes of a user and purpose are a minute apart, only the last can be open, and no count passes the cap. |
| Recovery.OnlyLastIsAccepted | app/modules/auth/recovery.py:143-151 | Only the latest code of a user and purpose is ever accepted. |
| Recovery.AcceptedOnce | app/modules/auth/recovery.py:208-264 | A challenge that was accepted is refused forever after. |
| Recovery.SentCodeWorksIff | app/modules/auth/recovery.py:116-221 | A code just sent works, after any run, exactly for its owner and purpose, until it expires, while nothing has closed its challenge and fewer wrong codes than the cap were compared with it. |
| Recovery.ResetClosesTheAccount | app/modules/auth/recovery.py:223-243 | A reset changes the password of its user alone and leaves none of their challenges open, of any purpose. |
| Recovery.EnrolledPhonesAreProved | app/modules/auth/recovery.py:260-265 | Over every run, each enrolled phone is where a phone code of that user was sent, and that challenge is consumed. |
| Recovery.CodesBounded | app/modules/auth/recovery.py:123-142 | In any span, at most its minutes, rounded up, codes are issued per user and purpose. |
| Recovery.StepCountsGuess | app/modules/auth/recovery.py:216-220 | The stored attempts grow by one with every wrong code compared, and only then. |
| Recovery.GuessesBounded | app/modules/auth/recovery.py:116-221 | In any span, at most cap * (minutes rounded up + 1) wrong codes are compared per user and purpose. |
| RecoveryAnswers.IssueAcceptedIff | app/modules/auth/recovery.py:116-175 | A code is sent exactly when the channel works and no code for that use is younger than a minute. |
| RecoveryAnswers.IssueEffect | app/modules/auth/recovery.py:143-175 | It leaves one new open challenge and consumes the earlier ones for that use, and those only. |
| RecoveryAnswers.IssueReason | app/modules/auth/recovery.py:116-175 | The reason of a code not sent is true, and nothing changes. |
| RecoveryAnswers.VerifyMeaning | app/modules/auth/recovery.py:191-221 | A code is accepted exactly if its challenge is of that use and owner, open, in time and under the cap, and the code is right; a wrong one is counted once, and nothing else changes. |
| RecoveryAnswers.ResetMeaning | app/modules/auth/recovery.py:223-243 | A reset goes through exactly with a right code, sets that user's password and consumes their open challenges only. |
| RecoveryAnswers.PhoneMeaning | app/modules/auth/recovery.py:260-265 | A phone is enrolled exactly with a right code; only it and its challenge change. |
| RecoveryAnswers.PasswordIsLastReset | app/modules/auth/recovery.py:223-243 | Over every run the password of a user is that of the last reset a right code allowed. |

## Left out

- Legacy purchase paths: paid amounts inferred from expenses without a source, and status PAGADA; they depend on historical rows nothing constrains.
- Dates on purchases and invoices (due dates, credit days) beyond whether a purchase is marked paid, and free-text fields: they decide nothing modelled here.
- Routers, permissions, request schemas (their guarantees appear as preconditions), uploads, documents other than the two number formats, mail and SMS.
- The warehouse module: a receipt creates one fresh lot, a transfer one lot with the same purchase and cost. app/modules/warehouse is not part of this model.
- Interleavings inside a locked call: each call is one step. For vehicle orders two receptions on different orders could race for one VIN; the database's uniqueness is not modelled.
- Vehicles edited or deleted by other modules after their reception.
- Binary floating point: `float(...)` of stored decimals is taken to be exact, and so is division before rounding (Decimal keeps 28 digits).
- Stored timestamps are as precise as the clock that made them.
- NumberText.Parse: digits, signs and exponents are ASCII, and exponents are unbounded; Python also accepts other decimal digits and limits exponents.
- Case folding outside ASCII in VINs and provider names.
- Financing.FinancingService.Sync: reports are taken after validation; how numbers and times were written is one opaque field, compared like the stored document.
- Recovery.RecoveryService.Verify: which account is refused, and why, is an answer from elsewhere; session versions and refresh tokens are not kept.
- The profit report: the warranty cost of a claim and the average cost of a part are given; margins, vehicle counts, the manual-movement rate and the date windows of the queries are not modelled.
- Account runs: manual incomes and expenses enter runs as any new entry; their own checks (attachments, suppliers) are not modelled.
- The sequence-number and name-uniqueness loop of the catalogue import, and the reconciliation of a client's vehicles: further loops over sets, with easier properties.
- Request budgets, the middleware, and log files: thin wrappers.
