# Souq checkout, verified

A Dafny model of the checkout path of the Souq platform: the order saga and its persistence, the
inventory reservation engine, the two joined over shared stock, the state-space explorer the
repository checks its designs with, the pricing engine, and the machinery that makes delivery,
retries, payments and cart writes effectively once. `dafny verify dfyconfig.toml` checks all of it.

| modules | what they hold |
|---|---|
| `SagaMachine`, `Orchestrator`, `OrderTables` | the decision function, the rows it is persisted in, and the transactions on them as methods of a class |
| `ReservationRow`, `SagaProtocol` | one order, inventory, payment and a network that keeps, repeats and reorders every message; safety over every run, with handlers split into read, read and commit |
| `SagaReasons`, `SagaRows`, `SagaLegal` | which cancellation reason an order ends up with, what its step rows count, and which events it rejects |
| `SagaProgress`, `SagaTermination`, `SagaWitnesses` | when a saga can still finish, exactly, with handlers as whole transactions, and concrete runs in which it cannot |
| `SplitProgress`, `SplitTermination`, `MissedAcks` | the same question, answered exactly, when handlers interleave, and a run that strands an order |
| `Inventory`, `InventoryLaws`, `StockMeaning`, `StockEngineTables`, `LockOrder`, `LockCover` | the stock tables, their accounting and ledger laws, what each transaction means on the shelves, the engine's loops, and freedom from lock cycles |
| `ParticipantRefinement`, `Platform`, `PlatformLaws` | the engine is the participant the saga assumes; any number of orders over one set of stock tables; statuses tied to physical stock |
| `Explorer`, `ExplorerRun` | the breadth-first search and the backward liveness pass |
| `Pricing`, `PricingLaws`, `PricingBounds`, `PricingMeaning`, `PricingTotals`, `PricingWidth`, `PricingEngine` | promotion and tax arithmetic, its laws, what each kind of rule takes off, exactly which rules and carts they hold for, agreement with order-service, machine widths, and the loops |
| `ExactlyOnce`, `OutboxRelay`, `RelayProgress` | the consumer inbox, the outbox relay, and exactly when a row goes out |
| `Idempotency`, `ReplayAddress`, `ProviderKey`, `Cart` | HTTP idempotency keys, provider keys and the mock provider, cart compare-and-swap |

## What the code does that its comments do not say

The lemmas named here give a concrete input or run, or the exact condition under which the promise
holds.

- The sweeper reads only SENT rows with a deadline (services/order-service/internal/store/orders.go:329-331).
  A declined card sends RELEASE but no VOID, so once the release is acknowledged no deadline is left and the
  order stays in COMPENSATING (`DeclinedCardWedges`); a retriable authorisation failure closes AUTHORIZE and
  nothing resends it (`RetriableFailureWedges`). `FinishesUnlessStuck` gives the condition both ways.
- The first COMMIT and CAPTURE carry no deadline, so the roll-forward retry, its interval and its limit never
  run (`NoRetryForward`). A COMMIT whose consumer claimed the inbox row and then failed, which are two
  transactions in inventory-service, is therefore never repeated (`ClaimedCommitWedges`).
- The reservation TTL sweep can release stock under a PAID order, which then never finishes
  (`ExpiredReservationWedges`, `FinishesUnlessOrphaned`). Safety is not affected. The report of that release is the
  only event the saga ever rejects as illegal (`OnlyExpiryIsRejected`).
- An acknowledgement that changes no status is not version-checked. Two handled at once can each miss the
  other; a later timeout finds nothing to resend, and the order stays in COMPENSATING for good
  (`ConcurrentAcksStrand`). `EndsUnlessStranded` says exactly which orders of interleaved runs can still finish.
- The TTL sweep walks several reservations in one transaction, in order of expiry, so it can lock SKUs downwards
  and deadlock with a Reserve (`UntidyDeadlocks`); `SweepSafeIff` says exactly when it cannot.
- The reason of a timeout decision is recorded only if the decision leads to CANCELLED, and it leads to
  COMPENSATING, so a timed-out payment is later reported as PAYMENT_DECLINED, unless an event
  gave another reason (`TimedOutIsDeclined`). `ReasonIsExplained` says which reason is recorded when, and
  `TimeoutReportedIff` when it is PAYMENT_TIMEOUT.
- The explorer's `Terminal` is described as stopping the search; the search expands terminal states as well
  (`TerminalsAreExpanded`, `ExploreBehindTerminal`).
- A discount cap hands its excess back to one line only, so line totals and `discount_total` can disagree
  (`CapCanDisagree`, `DiscountExplainedIff`). Free shipping is both counted in `discount_total` and taken off
  `shipping_total`, so order-service computes another total (`FreeShippingDisagrees`,
  `TotalsAgreeWhenCapsFit`).
- "The last line absorbs the rounding remainder" fails when the last line is too small (`RemainderCanBeLost`);
  `AmountOffPlacedIff` says exactly when the whole amount is placed and `AmountOffPlaced` bounds what is lost.
- The relay returns its first publish error, which rolls back the marks of the topics that did go out
  (`RelayStore.Tick`), and the next tick claims the same batch. So one refused topic does block the others: rows
  beyond its batch are not published while it lasts (`RefusedTopicBlocks`); `MarkedAfterIff` and `OutAfterIff` say
  exactly which rows go out.
- The rule loader checks the range of percentages and tax rates only. A negative get-quantity loads and can raise
  a line above its list price (`NegativeGetRaises`, `RuleIsSensibleIff`), and a group size of zero is divided by
  (`CrashesIff`). The server checks neither quantities nor prices (`ListPricesSoundIff`).
- README.md:365 shows a unique key on `orders.idempotency_key`;
  services/order-service/migrations/0001_init.sql:45 has none. `UniqueIndexSuffices` is about the documented
  schema, `ReapedKeyDuplicates` and `ReapingHarmlessIff` about the shipped one.
- Completing a key goes by key alone, so a request that outlives the reaping of its key stores its response under
  the next user's row (`ReapedReplaysFitIff`), whichever schema.
- The mock provider's Void looks for a charge under the void's own derived key
  (services/payment-service/internal/service/service.go:483), where there never is one (`VoidUndoesNothing`).

## Assumptions

- Messages stay deliverable for ever. An event rejected as illegal is dead-lettered by the consumer
  (services/order-service/internal/eventbus/consumer.go:151-154), while here it may be delivered again, so
  `EndsUnlessStranded` and the other progress results count on it as if the dead letter were replayed.
- Each SQL transaction without a stated split, each SQL statement and each Lua script is one atomic step.
  Deadlines are present or absent, and expiry is a step that may happen at any time.
- The payment participant answers only commands that were sent and acknowledges a VOID of an unknown payment. It
  may answer a command repeatedly; the progress results assume that it answers once, and that it can.
- Identifiers come from a counter, so fresh ones are new. Per-order rows: an order's inbox, steps and commands
  are kept apart from other orders'. Reservation ids of different orders differ.
- A SKU stands for its rank in one string order shared by code and database.
- The keyed hash, cut to 128 bits, is collision free.
- The pricing laws are about sensible rules and carts, which `RuleIsSensibleIff` and `ListPricesSoundIff` show to be
  exactly those for which lines stay in bounds; amounts, tiers and caps may be anything. Tax rates and the shipping
  quote are not negative. `Promo.waived` and `Promo.shortfall` record what the code did and influence nothing.
- Explorer states with equal keys behave alike, as the interface demands.

## Model

| member | source | states |
|---|---|---|
| `SagaMachine.NextIsLawful` | services/order-service/internal/saga/machine.go:171-375 | Every accepted transition follows the saga shape; COMMIT is emitted only into PAID, CAPTURE only into STOCK_COMMITTED, RELEASE and VOID only into COMPENSATING; each state is entered only on its own evidence, CANCELLED from COMPENSATING only once inventory has settled |
| `SagaMachine.NextIsTimed` | services/order-service/internal/saga/machine.go:79-107 | Which deadline each accepted decision sets, and which step it blames |
| `Orchestrator.EmitAllShape` | services/order-service/internal/orchestrator/orchestrator.go:229-318 | The commands one decision writes: exactly the decided steps, fresh distinct ids, one reservation id and one payment id throughout, the step rows sent with the decision's deadline |
| `OrderTables.OrderRows.constructor` | services/order-service/internal/orchestrator/place.go:66-92 | Placing leaves a PENDING row, the first step and its RESERVE command |
| `OrderTables.OrderRows.ReadCtx` | services/order-service/internal/orchestrator/orchestrator.go:127-158 | One pass over the step rows, in any order, rebuilds exactly the facts the machine needs |
| `OrderTables.OrderRows.EmitLoop` | services/order-service/internal/orchestrator/orchestrator.go:219-224 | The emit loop writes what the specification of the whole decision says |
| `OrderTables.OrderRows.EmitOne` | services/order-service/internal/orchestrator/orchestrator.go:229-318 | One command: missing ids minted and kept, outbox row and step row written |
| `OrderTables.OrderRows.Persist` | services/order-service/internal/orchestrator/orchestrator.go:163-226 | Applying a decision statement by statement equals the specified transaction, version check and CHECK constraints included |
| `OrderTables.OrderRows.HandleEvent` | services/order-service/internal/orchestrator/orchestrator.go:74-121 | An event: duplicate, rejected, stale or applied; everything but an applied one leaves no trace |
| `OrderTables.OrderRows.FireTimeout` | services/order-service/internal/orchestrator/sweeper.go:88-159 | A sweep of one overdue row: retry, compensation, refusal past the pivot, or a pushed-out deadline |
| `OrderTables.OrderRows.Cancel` | services/order-service/internal/orchestrator/place.go:137-174 | Customer cancellation: refused unless cancellable, stale if the version moved, otherwise COMPENSATING with its compensations |
| `SagaProtocol.ActIsSafe` | services/order-service/internal/orchestrator/orchestrator.go:74-226 | Every step of order, inventory, payment and network keeps the invariant, also when a handler commits on rows it read long ago |
| `SagaProtocol.ExecIsSafe` | services/order-service/internal/saga/machine.go:171-375 | The invariant holds after every run |
| `SagaProtocol.CommitExcludesCompensation` | services/inventory-service/internal/stock/stock.go:301-306 | In every run COMMIT and RELEASE/VOID are never both sent; a COMMITTED reservation belongs to a PAID, STOCK_COMMITTED or CONFIRMED order; neither release-after-commit nor a commit event in COMPENSATING is reachable |
| `SagaProtocol.OneReservationOnePayment` | services/order-service/internal/orchestrator/orchestrator.go:235-242 | All commands, events and the reservation row of an order name one reservation and one payment |
| `SagaProtocol.CancelledHoldsNothing` | services/order-service/internal/saga/machine.go:364-375 | Once CANCELLED, and after any further events: the reservation is RELEASED or FAILED, COMMIT and CAPTURE were never sent, the status stays, one public event was announced |
| `SagaProtocol.CaptureOnlyAfterCommit` | services/order-service/internal/saga/machine.go:256-259 | CAPTURE is sent only against a COMMITTED reservation, and never beside a VOID |
| `SagaProtocol.StockDeductedExactlyOnce` | services/inventory-service/internal/stock/stock.go:334-385 | Whatever is resent or redelivered, a STOCK_COMMITTED or CONFIRMED order deducted its lines once, a cancelled or compensating one never |
| `SagaProtocol.StatusAdvances` | services/order-service/internal/store/orders.go:199-228 | One step moves the status only along the saga shape, stale reads included |
| `SagaProtocol.ChecksNeverFire` | services/order-service/migrations/0001_init.sql:53-64 | No transaction of any run is stopped by the CHECK constraints on orders |
| `SagaReasons.FirstReasonStays` | services/order-service/internal/orchestrator/orchestrator.go:391-399 | Over every run, stale handlers included, the first recorded cancellation reason is never replaced |
| `SagaReasons.ReasonIsExplained` | services/order-service/internal/orchestrator/orchestrator.go:163-200 | Over every run the recorded reason is that of the first transaction with one to record: CUSTOMER_CANCELLED for the customer, what the event said, else INSUFFICIENT_STOCK out of PENDING or PAYMENT_DECLINED out of COMPENSATING; every cancelled order has one and no timeout ever records any |
| `SagaReasons.TimeoutReportedIff` | services/order-service/internal/orchestrator/orchestrator.go:179-187 | PAYMENT_TIMEOUT is recorded if and only if the event handled by the first recording transaction carried it; the reason of a timeout decision is dropped on the way into COMPENSATING |
| `SagaReasons.TimedOutIsDeclined` | services/order-service/internal/saga/machine.go:235-245 | A reachable order whose authorisation times out is cancelled with PAYMENT_DECLINED once both compensations have acknowledged |
| `SagaReasons.CancelReason` | services/order-service/internal/orchestrator/place.go:137-174 | A customer cancellation that commits records CUSTOMER_CANCELLED, and keeps the rules for reasons |
| `SagaRows.AttemptsAreCommands` | services/order-service/internal/store/orders.go:255-283 | In every run, stale handlers included, the attempts recorded for a step other than RELEASE are the commands sent for it, and no step but RELEASE is acknowledged unasked |
| `SagaRows.FireForward` | services/order-service/internal/orchestrator/sweeper.go:88-107 | Past the pivot a sweep sends the awaited command once more under the order ids and re-arms its row, until five have been sent; then it sends nothing and only pushes the deadline out |
| `SagaRows.CtxMeans` | services/order-service/internal/orchestrator/orchestrator.go:127-158 | Which rows make each fact of a read true |
| `SagaRows.PlacedRows` | services/order-service/internal/orchestrator/place.go:66-92 | The rows a placed order starts from |
| `SagaLegal.OnlyExpiryIsRejected` | services/order-service/internal/saga/machine.go:171-360 | Over every run of whole transactions an event that is not a repetition is applied, and rejected as illegal exactly if it reports a release to an order in STOCK_RESERVED or PAID |
| `SagaLegal.NothingRejectedWithoutExpiry` | services/order-service/internal/orchestrator/orchestrator.go:99-117 | Without TTL expiry no event is ever rejected |
| `SagaLegal.AcceptedTriggers` | services/order-service/internal/saga/machine.go:171-360 | The triggers each state accepts |
| `SagaProgress.ActIsLive` | services/order-service/internal/orchestrator/orchestrator.go:127-226 | With whole transactions every step keeps the progress invariant, including that COMPENSATING never holds with every needed acknowledgement recorded |
| `SagaProgress.NothingOverdueForward` | services/order-service/internal/store/orders.go:329-331 | Past the point of no return no step row is SENT with a deadline |
| `SagaTermination.FinishesUnlessStuck` | services/order-service/internal/store/orders.go:324-333 | With the sweeper as written, a reachable order can still finish without the customer if and only if it is not stuck: PAID with no COMMIT that can be answered, or STOCK_RESERVED/COMPENSATING with no deadline |
| `SagaTermination.FinishesUnlessOrphaned` | services/order-service/internal/saga/machine.go:306-387 | If timeouts could fire in every open state, a reachable order can finish if and only if it is not PAID with its stock already returned by the TTL sweep |
| `SagaTermination.AlwaysFinishesWithoutExpiry` | services/inventory-service/internal/stock/stock.go:397-429 | Without TTL expiry and with free timeouts, a finite continuation to CONFIRMED or CANCELLED exists from every reachable state |
| `SagaTermination.NoRetryForward` | services/order-service/internal/orchestrator/sweeper.go:88-107 | A sweep never changes an order past the point of no return, so the roll-forward retry and its limit never run |
| `SagaWitnesses.RetriableFailureWedges` | services/order-service/internal/orchestrator/orchestrator.go:170-174 | A reachable order stuck in STOCK_RESERVED after a retriable authorisation failure |
| `SagaWitnesses.DeclinedCardWedges` | services/order-service/internal/saga/machine.go:227-233 | A reachable order stuck in COMPENSATING after a declined card and a prompt release |
| `SagaWitnesses.ExpiredReservationWedges` | services/inventory-service/internal/stock/stock.go:397-429 | A reachable PAID order whose reservation expired: no continuation finishes it, free timeouts included |
| `SagaWitnesses.ClaimedCommitWedges` | services/inventory-service/internal/eventbus/eventbus.go:296-316 | A reachable PAID order whose COMMIT was claimed in the inbox and then failed: stuck, its stock still held |
| `SplitProgress.SplitStep` | services/order-service/internal/orchestrator/orchestrator.go:74-226 | Every step, whole or split, keeps the invariant of interleaved runs |
| `SplitTermination.StrandedStays` | services/order-service/internal/saga/machine.go:340-348 | Nothing that can happen moves a stranded order: COMPENSATING with every needed acknowledgement recorded and nothing under way that would settle it |
| `SplitTermination.EndsUnlessStranded` | services/order-service/internal/orchestrator/orchestrator.go:176-178 | For every run of interleaved handlers that read early and commit late, with free timeouts: an order can still reach CONFIRMED or CANCELLED if and only if it is neither orphaned nor stranded |
| `MissedAcks.ConcurrentAcksStrand` | services/order-service/internal/orchestrator/orchestrator.go:176-178 | Two handlers that read before either writes strand an order: a run that reaches such a state |
| `Inventory.Ascending` | services/inventory-service/internal/stock/stock.go:128-132 | The SKUs in ascending order, each once |
| `InventoryLaws.EveryRunBalances` | services/inventory-service/internal/store/store.go:135-220 | After any sequence of transactions: 0 <= reserved <= on_hand, reserved is exactly what RESERVED reservations hold, on_hand is opening stock plus adjustments minus committed units, the ledger replays to the present levels and each entry was right when written |
| `InventoryLaws.HeldAlwaysSettles` | services/inventory-service/internal/store/store.go:163-199 | A held reservation can always be released or committed: the clamp at zero and the CHECK constraints never engage |
| `InventoryLaws.LinesKeepAudit` | services/inventory-service/internal/store/store.go:393-405 | Appending the ledger rows of a reservation's lines keeps the replay exact, entry by entry |
| `InventoryLaws.ReserveIsSound` | services/inventory-service/internal/stock/stock.go:138-229 | Reserve, successful, repeated or failed, keeps holds, ledger and conservation exact |
| `InventoryLaws.FailureIsSound` | services/inventory-service/internal/stock/stock.go:242-251 | The separate failure transaction keeps them too |
| `InventoryLaws.ReleaseIsSound` | services/inventory-service/internal/stock/stock.go:278-332 | Release, tombstone and repetition included, keeps them |
| `InventoryLaws.CommitIsSound` | services/inventory-service/internal/stock/stock.go:334-385 | Commit, repetition included, keeps them |
| `InventoryLaws.SweepIsSound` | services/inventory-service/internal/stock/stock.go:397-429 | A TTL sweep over any batch of expired reservations succeeds as a whole and keeps them |
| `InventoryLaws.AdjustIsSound` | services/inventory-service/internal/stock/stock.go:493-522 | An adjustment, accepted or rejected, keeps them |
| `StockMeaning.ReserveMeans` | services/inventory-service/internal/store/store.go:135-157 | A new reservation of a new order with valid items is held if and only if every SKU named is on sale with at least as many free units as its items ask for together; then exactly those units are reserved, one row and one ledger entry per SKU written, and otherwise nothing changes |
| `StockMeaning.CommitMeans` | services/inventory-service/internal/stock/stock.go:334-385 | Commit sells exactly the units held, announces each new level and then the commit; a committed reservation only repeats the event; anything else is refused |
| `StockMeaning.ReleaseMeans` | services/inventory-service/internal/stock/stock.go:278-332 | Release returns exactly the units held, writes a tombstone for an unknown reservation of an unknown order, repeats itself, and refuses a committed one |
| `StockMeaning.FailureMeans` | services/inventory-service/internal/stock/stock.go:242-251 | When the failure transaction writes a row and when it reports |
| `StockMeaning.AdjustMeans` | services/inventory-service/internal/store/store.go:201-220 | An adjustment is refused exactly when it would leave less than is reserved, and otherwise changes that one level |
| `StockMeaning.SweepMeans` | services/inventory-service/internal/stock/stock.go:397-429 | A sweep releases exactly the claimed reservations, returns what they held in sum, and reports each to its own order |
| `StockEngineTables.StockEngine.SumItems` | services/inventory-service/internal/stock/stock.go:115-126 | Refuses an empty list or a quantity below one; otherwise sums duplicate SKUs |
| `StockEngineTables.StockEngine.TakeLines` | services/inventory-service/internal/stock/stock.go:163-194 | The take loop: the unavailable list is empty exactly when every line can be taken, and then all lines are taken and logged |
| `StockEngineTables.StockEngine.ReserveStock` | services/inventory-service/internal/stock/stock.go:108-238 | The whole transaction with its rollback: which of its four answers it gives and what it leaves behind, in terms of the items and the levels |
| `StockEngineTables.StockEngine.ReportFailure` | services/inventory-service/internal/stock/stock.go:242-251 | Writes the FAILED row only if there is none, and the failure event |
| `StockEngineTables.StockEngine.SettleLines` | services/inventory-service/internal/stock/stock.go:432-458 | The line loop of commit and return: succeeds exactly when the database accepts every line, and then moves and logs all of them |
| `StockEngineTables.StockEngine.ReleaseStock` | services/inventory-service/internal/stock/stock.go:278-332 | Tombstone, refusal after commit, return of the lines, or a repeated acknowledgement |
| `StockEngineTables.StockEngine.CommitStock` | services/inventory-service/internal/stock/stock.go:334-385 | Deducts a RESERVED reservation once, repeats the event for a COMMITTED one, refuses the rest |
| `StockEngineTables.StockEngine.SweepExpired` | services/inventory-service/internal/stock/stock.go:397-429 | The loop over expired reservations, undone as a whole if one fails |
| `StockEngineTables.StockEngine.AdjustStock` | services/inventory-service/internal/stock/stock.go:493-522 | A signed change of on_hand, rejected when it would cut into reserved units |
| `ParticipantRefinement.ReserveRefines` | services/inventory-service/internal/stock/stock.go:138-238 | On the order's own row and reply, Reserve is the participant step the saga protocol assumes, and touches no other order |
| `ParticipantRefinement.FailureRefines` | services/inventory-service/internal/stock/stock.go:242-251 | The same for the failure transaction |
| `ParticipantRefinement.ReleaseRefines` | services/inventory-service/internal/stock/stock.go:278-332 | The same for Release |
| `ParticipantRefinement.CommitRefines` | services/inventory-service/internal/stock/stock.go:334-385 | The same for Commit |
| `ParticipantRefinement.ExpiryRefines` | services/inventory-service/internal/stock/stock.go:397-429 | The same for the TTL sweep of one reservation |
| `LockOrder.PlansAscend` | services/inventory-service/internal/stock/stock.go:128-132 | The lock sequence of every transaction is the reservation row, then SKUs in ascending order |
| `LockOrder.NoWaitCycle` | services/inventory-service/internal/stock/stock.go:119-194 | However many Reserve, Release, Commit, Adjust and tidy sweep transactions interleave, no set of them waits in a circle |
| `LockOrder.SweepSafeIff` | services/inventory-service/internal/stock/stock.go:397-429 | Runs whose TTL sweeps claim a given batch of reservations are free of wait cycles if and only if the lines of the batch, each reservation ascending and repetitions aside, ascend over the whole batch |
| `LockOrder.UntidyDeadlocks` | services/inventory-service/internal/store/store.go:353-361 | For any other batch, a run of begins and takes in which the sweep and a Reserve wait for each other |
| `LockOrder.OneReservationIsTidy` | services/inventory-service/internal/store/store.go:331-334 | A sweep of one reservation is always safe |
| `LockOrder.TwoReservationsTidyIff` | services/inventory-service/internal/store/store.go:353-361 | A sweep of two is safe if and only if no further SKU of the second lies below one of the first |
| `LockOrder.SomeoneCanGo` | services/inventory-service/internal/store/store.go:256-262 | While any transaction runs, some transaction is not blocked |
| `LockOrder.UnsortedDeadlocks` | services/inventory-service/internal/stock/stock.go:103-107 | Without the sort, for any two SKUs, two begins and two takes reach a wait cycle |
| `LockCover.WritesAreLocked` | services/inventory-service/internal/stock/stock.go:119-194 | Every level and row that Reserve, the failure transaction, Release, Commit or Adjust changes is among the locks of its plan, and so is the order key of every new row |
| `LockCover.SweepIsLocked` | services/inventory-service/internal/stock/stock.go:397-429 | The same for a sweep of any batch |
| `Platform.ViewSteps` | services/inventory-service/internal/eventbus/eventbus.go:252-374 | One action of one order, carried out by the stock engine, is one step of the saga protocol for that order and writes no other order's row |
| `Platform.TradeIsFaithful` | services/inventory-service/internal/eventbus/eventbus.go:252-374 | In every run of any number of orders over shared stock, each order lives a run of the saga protocol and the stock tables stay sound |
| `PlatformLaws.StockMatchesOrders` | services/inventory-service/internal/stock/stock.go:108-385 | For each SKU, the units gone from opening stock plus adjustments lie between those of STOCK_COMMITTED/CONFIRMED orders and those of orders past the pivot; confirmed orders never outsell; reserved units belong to undecided orders |
| `PlatformLaws.SettledBooksBalance` | services/inventory-service/internal/stock/stock.go:334-385 | When every order is CONFIRMED or CANCELLED, nothing is reserved and on_hand is opening stock plus adjustments minus exactly the confirmed orders' lines |
| `Explorer.CheckInvariants` | libs/go-modelcheck/explorer.go:265-272 | Names the first broken invariant, or none exactly when all hold |
| `Explorer.Covered` | libs/go-modelcheck/explorer.go:180-242 | Breadth first: whatever can be reached in n steps has been seen, at depth n or less, once depth n is reached |
| `Explorer.NothingNearerBroken` | libs/go-modelcheck/explorer.go:178-228 | While the search runs, no state at or below the current depth breaks an invariant |
| `Explorer.Expand` | libs/go-modelcheck/explorer.go:197-242 | Expanding a state records exactly its successors other than itself, queues the new ones, and stops only at a genuine violation or the state bound, with the offending state counted among those seen |
| `ExplorerRun.CanFinishKeys` | libs/go-modelcheck/explorer.go:278-309 | The backward worklist computes exactly the states from which a terminal state is reachable over the recorded graph |
| `ExplorerRun.InsertByDepth` | libs/go-modelcheck/explorer.go:320-326 | Insertion keeps the list shortest first, equal lengths by key, and its contents |
| `ExplorerRun.FindWedged` | libs/go-modelcheck/explorer.go:278-329 | Exactly the traces of the states that cannot finish, shortest first and then by key |
| `ExplorerRun.ReachedStates` | libs/go-modelcheck/explorer.go:251-254 | One state per visited key |
| `ExplorerRun.EndsIffFinishes` | libs/go-modelcheck/explorer.go:256-260 | On a complete search the recorded graph and the model agree on who can finish |
| `ExplorerRun.Explore` | libs/go-modelcheck/explorer.go:152-263 | Terminates on every model; a violation is a real trace to a state breaking the named invariant with no shorter one anywhere; a clean result visited exactly the reachable states, all invariants hold on them, and without a depth bound deadlocks and wedged states are exactly the real ones |
| `ExplorerRun.DeadlocksAreWedged` | libs/go-modelcheck/explorer.go:244-246 | Every deadlock is also reported as wedged |
| `ExplorerRun.OkIsProof` | libs/go-modelcheck/explorer.go:359-361 | OK implies every reachable state satisfies all invariants and can reach a terminal state |
| `ExplorerRun.TerminalsAreExpanded` | libs/go-modelcheck/explorer.go:190-204 | What lies behind a terminal state is visited and satisfies the invariants too |
| `ExplorerRun.ExploreBehindTerminal` | libs/go-modelcheck/explorer.go:190-204 | A model whose only violation lies behind a terminal state: the search reports it |
| `PricingLaws.ApplyBpFits` | services/pricing-engine/src/rules.hpp:49-66 | For rates 0 to 10000 and every 64-bit amount no intermediate value overflows; rounding is half-up and symmetric about zero |
| `PricingLaws.BestTierIsMaximum` | services/pricing-engine/src/rules.cpp:259-268 | The applied tier is the largest one the quantity qualifies for, or none |
| `PricingLaws.FreeUnitsAreWholeGroups` | services/pricing-engine/src/rules.cpp:280-292 | Buy X get Y discounts Y units in each of the largest number of complete groups |
| `PricingLaws.ApplyRuleBalances` | services/pricing-engine/src/rules.cpp:187-343 | Each rule keeps every line at subtotal plus discount within 0 and subtotal, and accounts for each unit of announced discount |
| `PricingLaws.RulesBalance` | services/pricing-engine/src/rules.cpp:187-343 | So does every stack of rules |
| `PricingLaws.QuoteIsBounded` | services/pricing-engine/src/rules.cpp:345-381 | 0 <= grand_total <= subtotal + shipping quote + added tax, and the grand total is the sum of its parts |
| `PricingMeaning.PercentMeans` | services/pricing-engine/src/rules.cpp:214-225 | A percentage rule takes the rate of the list price rounded half-up off a line, whatever was discounted before, or all the line had left |
| `PricingMeaning.TierMeans` | services/pricing-engine/src/rules.cpp:259-276 | A tier rule does so with the largest rate the quantity qualifies for |
| `PricingMeaning.BuyGetMeans` | services/pricing-engine/src/rules.cpp:280-299 | Buy X get Y does so with the price of Y units for each complete group |
| `PricingMeaning.AmountRuleMeans` | services/pricing-engine/src/rules.cpp:229-257 | Amount-off and cart-threshold rules: each line loses its room, in order, until the amount is used up, and the announced discount is the sum |
| `PricingMeaning.FreeShippingMeans` | services/pricing-engine/src/rules.cpp:303-307 | Free shipping waives and announces the whole quote and touches no line |
| `PricingMeaning.LineRuleMeans` | services/pricing-engine/src/rules.cpp:337-342 | An uncapped line-by-line rule announces exactly what its lines lost |
| `PricingMeaning.CapMeans` | services/pricing-engine/src/rules.cpp:323-325 | A cap limits what is announced to the smaller of the cap and what the rule would announce without it |
| `PricingMeaning.PercentagesAdd` | services/pricing-engine/src/rules.cpp:178-185 | Uncapped percentage rules add up on the list price and do not compound |
| `PricingMeaning.PercentagesCommute` | services/pricing-engine/src/rules.cpp:178-185 | So their order does not matter |
| `PricingMeaning.ExclusiveIff` | services/pricing-engine/src/rules.cpp:342-342 | A quote becomes exclusive exactly when an exclusive rule that is reached announces a discount |
| `PricingMeaning.ExclusiveEnds` | services/pricing-engine/src/rules.cpp:187-191 | From then on further rules change nothing |
| `PricingMeaning.QuoteAddsUp` | services/pricing-engine/src/rules.cpp:345-381 | Each added tax is its rate of the sum of the discounted lines and the shipping still charged, and the grand total is that sum plus the taxes |
| `PricingBounds.RuleIsSensibleIff` | services/pricing-engine/src/rules_json.cpp:341-364 | A rule whose division is defined keeps the lines of every sensible cart within 0 and their subtotal if and only if its percentage is not negative or, for buy X get Y, it gets nothing, or discounts by a non-negative rate with a positive get-quantity or a negative group size |
| `PricingBounds.NegativeGetRaises` | services/pricing-engine/src/rules.cpp:280-299 | Buy 3 get -1 free, which the loader accepts, raises four items from 400 to 600 |
| `PricingBounds.ListPricesSoundIff` | services/pricing-engine/src/rules.cpp:165-176 | Whatever sensible rules follow, the lines of a quote are in bounds if and only if no price times quantity is negative; the server checks neither |
| `PricingBounds.CrashesIff` | services/pricing-engine/src/rules.cpp:286-287 | The calculation divides by zero if and only if it reaches a buy-X-get-Y rule of group size zero and some line has a quantity that is not negative |
| `PricingEngine.ListPrices` | services/pricing-engine/src/rules.cpp:165-176 | The list-price loop |
| `PricingEngine.TierLoop` | services/pricing-engine/src/rules.cpp:262-267 | The tier loop computes the best tier |
| `PricingEngine.CutOneLine` | services/pricing-engine/src/rules.cpp:214-299 | One line under a percentage, tier or buy-X-get-Y rule: a percentage is of the list price, and there is no result exactly where a group size of zero is divided by |
| `PricingEngine.CutLineByLine` | services/pricing-engine/src/rules.cpp:214-301 | The per-line loops, which trap exactly when some line divides by zero |
| `PricingEngine.CutAmountOff` | services/pricing-engine/src/rules.cpp:229-257 | The proportional loop of amount-off and threshold rules |
| `PricingEngine.HandBack` | services/pricing-engine/src/rules.cpp:328-335 | The backward search hands a cap's excess to the last discounted line only |
| `PricingEngine.ApplyOne` | services/pricing-engine/src/rules.cpp:211-343 | One rule, cap and exclusivity included |
| `PricingEngine.Promote` | services/pricing-engine/src/rules.cpp:187-343 | The rule loop over the matching rules, ended by an exclusive rule that applied |
| `PricingEngine.CalculateQuote` | services/pricing-engine/src/rules.cpp:160-384 | The whole calculation traps exactly when a reached rule divides by zero, and otherwise gives the specified quote, whose taxes and grand total are those of its own lines and shipping |
| `PricingTotals.RecomputeTotal` | services/order-service/internal/domain/domain.go:167-196 | The total is t if and only if all amounts share one currency, every line multiplies, the lines add up to the subtotal, and t is subtotal plus discount plus shipping plus tax and not negative |
| `PricingTotals.DiscountExplainedIff` | services/pricing-engine/src/rules.cpp:319-343 | The announced discount equals line discounts plus shipping waived if and only if every cap's excess fits in the line that takes it back |
| `PricingTotals.TotalsAgreeIff` | services/order-service/internal/domain/domain.go:167-196 | Order-service and pricing agree on the total if and only if the shipping waived equals the excess that found no line |
| `PricingTotals.TotalsAgreeWhenCapsFit` | services/pricing-engine/src/rules.cpp:303-306 | Where the excesses fit, they agree if and only if no free-shipping rule gave away a positive shipping quote |
| `PricingTotals.FreeShippingDisagrees` | services/pricing-engine/src/rules.cpp:303-306 | A cart on which the quote says 100 and order-service computes 50 |
| `PricingTotals.CapCanDisagree` | services/pricing-engine/src/rules.cpp:323-336 | A capped rule after which the lines give up 50 and the quote announces 10 |
| `PricingTotals.AmountOffPlaced` | services/pricing-engine/src/rules.cpp:229-257 | On undiscounted lines an amount-off rule takes off exactly the sum of its shares, at most min(amount, subtotal), short of that by less than the number of lines, and exactly the subtotal when the amount covers it |
| `PricingTotals.AmountOffPlacedIff` | services/pricing-engine/src/rules.cpp:234-255 | On any lines, discounted or not, an amount-off rule takes off the smallest of amount, subtotal and the room of the lines, so the whole is placed if and only if it is not more than that room |
| `PricingTotals.RemainderCanBeLost` | services/pricing-engine/src/rules.cpp:240-245 | An input whose remainder the last line does not absorb |
| `PricingWidth.NothingOverflows` | services/pricing-engine/src/rules.cpp:160-384 | For carts, shipping quotes and amounts off up to three thousand million minor units, rates up to 10000, and quantities and group sizes within 32 bits: every product and running sum at every rule, the taxes and the grand total fit in 64 bits, and group size, groups and free units in 32 |
| `ExactlyOnce.InboxAfter` | services/order-service/internal/orchestrator/orchestrator.go:74-85 | A delivery that commits records its own id; a known id is a duplicate; anything else changes nothing |
| `ExactlyOnce.DeliveryIsEffectivelyOnce` | services/order-service/internal/store/outbox.go:159-168 | After any sequence of deliveries the rows are those of the committed deliveries alone, whose ids are distinct and make up the inbox |
| `OutboxRelay.PublishedMeansOnTopic` | services/order-service/internal/store/outbox.go:62-108 | In every run of any number of relays, each claiming the oldest free rows, with crashes at any point, a row is marked published only if its message is on the topic, and no row is held by two relays |
| `OutboxRelay.RowsAreKept` | services/order-service/internal/store/outbox.go:33-53 | Rows, marks and published messages are never taken back |
| `OutboxRelay.EnqueueMeans` | services/order-service/internal/store/outbox.go:33-53 | A row is enqueued once, unpublished and on its topic, and enqueueing it again changes nothing |
| `RelayProgress.MarkedAfterIff` | services/order-service/internal/eventbus/relay.go:95-154 | Against a broker that accepts a given set of topics, after n ticks of a lone relay a row is marked if and only if its round, its age divided by the batch size, has come and no row up to and including that round is of a refused topic |
| `RelayProgress.OutAfterIff` | services/order-service/internal/eventbus/relay.go:124-142 | Its message is on the topic by then if and only if it was before, or its round has come, its own topic is accepted and no row of an earlier round is refused |
| `RelayProgress.GoesOutInTurn` | services/order-service/internal/store/outbox.go:62-70 | With every topic accepted the k-th oldest row is marked after exactly ceil(k / batch size) ticks |
| `RelayProgress.RefusedTopicBlocks` | services/order-service/internal/eventbus/relay.go:129-137 | One row of a refused topic holds up every row of a later round, whatever its topic, for as long as the refusal lasts |
| `RelayProgress.EveryRowGetsOut` | services/order-service/internal/eventbus/relay.go:95-161 | From every reachable state some continuation publishes and marks any given row |
| `OutboxRelay.GroupByTopic` | services/order-service/internal/eventbus/relay.go:105-122 | The grouping loop: each topic of the batch with exactly its rows |
| `OutboxRelay.TickIsRun` | services/order-service/internal/eventbus/relay.go:95-154 | A tick is a run of claim, publish and commit steps of the protocol |
| `OutboxRelay.RelayStore.Tick` | services/order-service/internal/eventbus/relay.go:95-154 | The tick marks the whole batch if every topic was accepted and nothing otherwise, while the accepted topics are out |
| `Idempotency.UniqueIndexSuffices` | services/order-service/internal/httpapi/api.go:119-219 | With a unique index on the key: in every interleaving of retries, crashes and reaping, at most one order per key, and every response names it |
| `Idempotency.ClaimAnswers` | services/order-service/internal/store/idempotency.go:73-122 | Fresh claim exactly without a row, key reused exactly on a row of another user or body, try again exactly on a matching row in progress, replay exactly on a matching completed row |
| `Idempotency.PlacingMeans` | services/order-service/internal/httpapi/api.go:160-200 | Placing adds one order under a new id, or fails when refused or when the index finds the key taken |
| `Idempotency.CompletedIsReplayed` | services/order-service/internal/store/idempotency.go:127-136 | The retry of a completed request is answered with the order it placed |
| `Idempotency.ReleasedIsFree` | services/order-service/internal/store/idempotency.go:145-149 | A released key can be claimed at once; a completed one is not released |
| `Idempotency.RowSufficesUnreaped` | services/order-service/internal/store/idempotency.go:73-150 | Without the index the key row alone gives the same as long as it is not reaped |
| `Idempotency.ReapedKeyDuplicates` | services/order-service/internal/store/idempotency.go:152-159 | Crash, reap, retry: two orders for one key |
| `Idempotency.ReapingHarmlessIff` | services/order-service/internal/store/idempotency.go:145-159 | Reaping keeps the guarantee if and only if the key was idle: no order carries it and no request holds it |
| `ReplayAddress.UnreapedReplaysFit` | services/order-service/internal/store/idempotency.go:104-120 | While the key is not reaped, a replay goes only to the user and request that placed the order, with or without the unique index |
| `ReplayAddress.ReapedReplaysFitIff` | services/order-service/internal/store/idempotency.go:127-159 | After a reap that stays so if and only if no request was between its claim and its last transaction when the key was reaped; the unique index makes no difference |
| `ProviderKey.DecimalRoundTrip` | services/payment-service/internal/payment/psp_key.go:78-105 | The length prefix reads back as the length |
| `ProviderKey.FramesInjective` | services/payment-service/internal/payment/psp_key.go:78-105 | The length-prefixed framing is uniquely decodable for all strings |
| `ProviderKey.KeysDistinguish` | services/payment-service/internal/payment/psp_key.go:78-117 | With a collision-free hash two operations share a key if and only if they are the same operation, order and client key |
| `ProviderKey.RefundKeysDistinguish` | services/payment-service/internal/payment/psp_key.go:112-117 | Refunds are told apart by order and refund id and share no key with any other operation |
| `ProviderKey.MockProvider.AuthorizeCall` | services/payment-service/internal/psp/mock.go:66-118 | A known key answers its first outcome and changes nothing; a new key answers its own outcome and moves money once unless declined; no other key changes |
| `ProviderKey.MockProvider.VoidCall` | services/payment-service/internal/psp/mock.go:127-138 | Void takes back one charge under its own key, if there is one |
| `ProviderKey.AtMostOneCharge` | services/payment-service/internal/psp/mock.go:66-118 | Any run of crashed, reaped and retried authorisations of a payment moves money at most once |
| `ProviderKey.ChargedExactly` | services/payment-service/internal/psp/mock.go:66-118 | Over any run of calls money moves under the key of an authorisation exactly once if it was served and not declined, and otherwise never |
| `ProviderKey.VoidUndoesNothing` | services/payment-service/internal/psp/mock.go:127-138 | Under derived keys a void never finds the charge it is meant to undo |
| `Cart.CartStore.constructor` | services/cart-service/src/cart.ts:47-56 | An absent key |
| `Cart.CartStore.Cas` | services/cart-service/src/cart.ts:47-56 | On an absent key any version stores the payload at version 1 and returns 1; on a live key a matching version stores it at the next version and returns that, and any other returns -1 and changes nothing |
| `Cart.MutateKeeps` | services/cart-service/src/cart.ts:153-236 | Every accepted mutation keeps distinct SKUs, at most 100 lines and quantities 1 to 99 |
| `Cart.MutateMeans` | services/cart-service/src/cart.ts:153-236 | An addition adds to that SKU's quantity up to 99, an update replaces it, nothing else changes, coupons are a set; refused exactly when the cart is full or the line is missing |
| `Cart.VersionsAreSerial` | services/cart-service/src/cart.ts:124-236 | From the first write on an absent key, for every interleaving of loads and swaps, the cart at version n is n-1 winning mutations applied in order, and well formed |

## Left out

- Explore: the counters TerminalStates and MaxDepthSeen and the report text are not modelled.
- CalculateQuote: which rules match is a parameter, so conditions, coupons, validity windows and rejection reasons are not modelled; nor are tax countries, unit_effective_price, inclusive tax lines and the lists of promotion ids; integers are unbounded, and beyond the limits of `NothingOverflows` the machine's results may differ.
- RecomputeTotal: money is an amount and a currency; the text of the errors is not modelled.
- MutateMeans: catalog lookup, timestamps, trimming and upper-casing of coupon codes are not modelled; the mutators change a private loaded copy, so they are functions on values.
- VersionsAreSerial: holds while the key lives and merge is not called; an expired key accepts any version (`CartStore.Cas`), and merge ignores a failed swap before it deletes the anonymous cart.
- MarkedAfterIff: one relay, no rows enqueued meanwhile and a broker that keeps accepting the same topics; the attempts and last_error columns are not modelled (the rollback undoes them anyway).
- DeliveryIsEffectivelyOnce: inbox rows are never purged; a redelivery after the 30-day purge is outside the guarantee.
- NoWaitCycle: the lock sequences are written down from the statements, not computed by the engine's methods.
- StockEngine: each engine transaction runs alone on its tables; statement interleaving between them is covered only as far as locks go.
- SweepExpired: inside `Platform` the sweep takes one reservation at a time; a batch is the same sweeps in sequence.
- AtMostOneCharge: service and store layers of payment-service and the Paymob adapter are not part of this model; the payment side of the saga is an abstract participant.
- ReapingHarmlessIff: one key at a time; the request hash is an opaque value.
- Public order and payment events, their payloads and the correlation headers.
- Kafka, Postgres, Redis, gRPC and HTTP transport, back-off, dead-letter queues, metrics, health, configuration.
- The inventory HTTP endpoints, which bypass the command inbox.
- Authentication, sessions and webhook signatures; search, recommendations, reviews, templates and the web applications: not part of checkout.
