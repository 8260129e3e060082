# FreshFlow: a verified model of the order protocol

FreshFlow is a set of services that share nothing but PostgreSQL transactions, HTTP calls and at-least-once Kafka
logs. This project models the protocol they run and proves what every run of it keeps: stock, carts, checkout and
cancellation, couriers and deliveries, the outbox and its relay, dead letters, the inbox, and the analytics tables.

## How the model is built

* One committed PostgreSQL transaction is one function from tables to tables (`ReserveTx`, `AssignTx`, `PersistTx`,
  ...). Unique keys and check constraints are part of it: a violated one rolls the transaction back. A `commits` flag
  or an `Answer` says whether the transaction commits, aborts, or commits while the caller sees an error.
* The stores that the services update in place are classes (`CatalogDb`, `DeliveryDb`, `OrderDb`, `Store`,
  `NotificationDb`, `Relay`, `Service`). Their methods go statement by statement, with the source's loops, and are
  proved equal to those functions, error answers included.
* Every HTTP call, Kafka produce, cache operation and offset commit is a step of its own in the state machines
  (`LockOrder`, `Saga`, `CartRuns`, `Fulfilment`, `OutboxRuns`, `Pipeline`). Any two steps may be separated by steps
  of other processes, by a crash, or by a lost database session.
* An `Id` is a UUID. Times are integers, coordinates are reals that are only stored. Product ids of a reservation
  request carry both their spelling and their row, because the UUID check accepts either letter case.
* The functions are also characterised without themselves: the `...Rules` modules and the lemmas named `...Decides` write
  out statuses, fields, texts and numbers, so a wrong branch or a swapped field makes one of them false.
* Assumptions, stated where they are used: ids that a service draws are fresh; the request hash is injective; the
  clock of one aggregate is strictly monotone; an envelope read back from an outbox row carries the row's own event id.

## Files

| file | content |
|---|---|
| `Prelude.dfy` | ids, options, sums over tables |
| `Catalog.dfy`, `Ledgers.dfy`, `LockOrder.dfy` | reservation and release; stock over all runs; row locks |
| `Carts.dfy`, `CartRuns.dfy` | versioned cart rows and the lossy cache; interleaved reads and writes |
| `Orders.dfy`, `OrderStore.dfy`, `OrderRules.dfy`, `OrderRuns.dfy` | transactions of the order service; what they do status by status; histories and outbox |
| `Saga.dfy`, `SagaRuns.dfy`, `SagaLedgers.dfy`, `SagaLocks.dfy`, `CheckoutService.dfy`, `CheckoutRules.dfy` | checkout and cancellation across three services |
| `Delivery.dfy`, `DeliveryStore.dfy`, `DeliveryRules.dfy`, `DeliveryRuns.dfy`, `Positions.dfy`, `EtaWorker.dfy` | couriers, deliveries, operator actions, ETA rows |
| `LiveOrders.dfy`, `LostStock.dfy` | when an order holds its stock, and three runs after which it does not |
| `Fulfilment.dfy` | order and delivery services coupled by a duplicated log with dead-lettering |
| `Outbox.dfy`, `OutboxRuns.dfy` | outbox rows, relay batches, the log |
| `Base64.dfy`, `DeadLetters.dfy` | base64 (section 4 of RFC 4648), bounded retries, dead letters, replay |
| `Notifications.dfy`, `Pipeline.dfy` | the inbox consumer; outbox row to effect, end to end |
| `Analytics.dfy`, `AnalyticsRuns.dfy`, `Cancellations.dfy` | projection, half-finished inserts, the FINAL view |

## Model

| member | source | states |
|---|---|---|
| Catalog.ValidateReserve | services/catalog-service/internal/catalog/handler.go:80-101 | accepts exactly a UUID attempt, 1-100 lines, TTL 60-1800 s, UUID product ids, quantities 1-99 and pairwise distinct id texts; otherwise reports the first failing check, line by line |
| Catalog.PickLines | services/catalog-service/internal/catalog/store.go:86-115 | the line loop splits the sorted lines into served items and shortages, keeps the wrapping 64-bit total, and stops exactly at mixed currencies |
| Catalog.CatalogDb.Reserve | services/catalog-service/internal/catalog/store.go:62-179 | tables and answer of one reservation transaction: stored answer for a known attempt, else decision, stock, item rows and event together, or nothing; the next six rows say what that decision is |
| Catalog.CatalogDb.Release | services/catalog-service/internal/catalog/store.go:181-208 | tables and error of one release: only an active reservation gives its item rows back |
| Ledgers.ReserveDecides | services/catalog-service/internal/catalog/store.go:86-170 | for every validated first call: mixed currencies and doubled rows abort unchanged; otherwise active iff the row of every line exists, is for sale and holds the quantity, failed iff not |
| Ledgers.ActiveTakesTheLines | services/catalog-service/internal/catalog/store.go:122-147 | an active answer lowers each requested row by its requested quantity, records that item row, and touches no other row |
| Ledgers.FailedReportsTheFailingLines | services/catalog-service/internal/catalog/store.go:97-121 | a failed answer moves no stock and reports exactly the lines without a row for sale that holds enough, each with its product, the quantity asked, and what a row for sale holds, else 0; in ascending row order when the ids are canonical |
| Ledgers.ActiveAnswersTheLines | services/catalog-service/internal/catalog/store.go:86-121 | an active answer lists each line in lock order with its row's name, price and currency, one currency, the expiry, no shortage, and a total that is the sum of price times quantity up to wraps of 2^64, whatever the prices |
| Ledgers.AnswerIsStoredAndAnnounced | services/catalog-service/internal/catalog/store.go:133-170 | any first answer is stored under the new id with attempt and status, and announced with the requested lines or the shortages; no other reservation changes |
| Ledgers.ReleaseGivesBack | services/catalog-service/internal/catalog/store.go:181-208 | a release of an active reservation puts each item row back on its product and changes the status only; every other release changes nothing |
| Ledgers.TotalNeverOverflows | services/catalog-service/internal/catalog/store.go:108-115 | with prices up to (2^63-1)/9900 the int64 total is the exact sum of price times quantity |
| Ledgers.ReserveIsIdempotent | services/catalog-service/internal/catalog/store.go:70-84 | after one answered call, any later call for the attempt, after any other calls, changes nothing and repeats the answer |
| Ledgers.SortSorts | services/catalog-service/internal/catalog/store.go:63-64 | the lock order is a sorted permutation of the lines |
| Ledgers.StockConserved | services/catalog-service/internal/catalog/store.go:62-208 | every run of reserve and release calls keeps, per product, available plus held by active reservations, and available never negative |
| Ledgers.StockConservedFromOpening | db/postgres/migrations/000002_catalog.up.sql:1-35 | from an empty reservation table, shelf plus held is the opening stock, for every run and product |
| Ledgers.RunEvolves | services/catalog-service/internal/catalog/store.go:187-202 | reservations are never lost, answers never change, status moves only from active to released |
| Ledgers.GivenBackAtMostOnce | services/catalog-service/internal/catalog/store.go:187-202 | over a whole run a reservation's stock is given back at most once, and exactly once iff the run released it |
| Ledgers.RunAnnounces | services/catalog-service/internal/catalog/store.go:148-170 | the catalog outbox announces every reservation exactly once, with its attempt and outcome, and nothing else |
| LockOrder.LocksExclude | services/catalog-service/internal/catalog/store.go:66-96 | in every reachable state of concurrent reservations no lock has two holders |
| LockOrder.RowsForSaleAreLocked | services/catalog-service/internal/catalog/store.go:86-96 | the rows locked are exactly those of lines whose product exists and is for sale, in the order of the lines |
| LockOrder.WaitForGraphIsAcyclic | services/catalog-service/internal/catalog/store.go:66-96 | no transaction waits for itself through any chain of waiters |
| LockOrder.ConcurrentReservesNeverDeadlock | services/catalog-service/internal/catalog/store.go:63-96 | any number of validated requests with canonical ids: while one is unfinished, some unfinished one can step |
| LockOrder.TwoReservesBlockIffTheyCross | services/catalog-service/internal/catalog/store.go:63-96 | two requests of different attempts, whatever their ids, can block each other iff they take two active rows in opposite orders, with no common row among those each has locked up to the first of its two |
| LockOrder.OneAttemptNeverBlocks | services/catalog-service/internal/catalog/store.go:66-68 | two calls for one attempt never block each other |
| LockOrder.AGuardRowPreventsBlocking | services/catalog-service/internal/catalog/store.go:86-96 | taking two rows in opposite orders is not enough to block: a row that both requests lock first guards them |
| LockOrder.OddSpellingsCanDeadlock | services/catalog-service/internal/catalog/handler.go:90-99 | canonical ids are needed: two validated requests, each id text naming one row, whose ids differ in letter case can block each other for ever |
| Carts.ListingLists | services/cart-service/internal/cart/store.go:109-121 | the item listing ascends strictly by product and holds exactly the item rows |
| Carts.WritesRaiseTheVersion | services/cart-service/internal/cart/store.go:47-56 | a write changes rows only together with the next version; SetItem always takes one, DeleteItem iff a row was there |
| Carts.SetItemUpsertsOneRow | services/cart-service/internal/cart/store.go:47-56 | after a committed SetItem the product has exactly the given quantity and every other product is there with its quantity iff it was; refused or aborted, nothing changes |
| Carts.DeleteItemRemovesOneRow | services/cart-service/internal/cart/store.go:75-84 | after a committed DeleteItem the product is gone and every other row is as it was |
| Carts.SetItemShowsTheUpsert | services/cart-service/internal/cart/store.go:57-67 | the cart returned holds the new quantity once and every other item as before, in ascending order |
| Carts.Store.Scan | services/cart-service/internal/cart/store.go:114-121 | the row loop returns the listing |
| Carts.Store.Get | services/cart-service/internal/cart/store.go:24-40 | a usable cache entry is returned as it is; otherwise the rows, or an error when the database does not answer, and the cache is set iff its write worked |
| Carts.Store.SetItem | services/cart-service/internal/cart/store.go:42-67 | new rows of the user, other users untouched, the committed cart returned, cache dropped unless the delete was lost |
| Carts.Store.DeleteItem | services/cart-service/internal/cart/store.go:69-93 | likewise for removing an item; version moves only if a row was deleted |
| CartRuns.ContentChangesTakeNewVersions | services/cart-service/internal/cart/store.go:42-93 | over every interleaving a content change takes the next version, versions never go back, earlier contents are never rewritten |
| CartRuns.PairIsTrueIffNotTorn | services/cart-service/internal/cart/store.go:100-122 | the pair a second SELECT completes is what the cart held at its version iff the cart then lists what it listed at that version |
| CartRuns.QuietReadsAreNotTorn | services/cart-service/internal/cart/store.go:100-122 | a read during which the contents do not change is not torn |
| CartRuns.CartsAreTrueIffNoReadIsTorn | services/cart-service/internal/cart/store.go:24-122 | on every run, with the two SELECTs of the code: all cached, in-flight and returned pairs, that of an idle DeleteItem included, are what the cart held at their version iff no read of the run was torn |
| CartRuns.VersionIdentifiesContents | services/order-service/internal/order/service.go:63-65 | on runs without a torn read two carts with one version are equal, which is what the checkout's version check relies on |
| CartRuns.CartsAreNeverOlderThanTheirVersion | services/cart-service/internal/cart/store.go:100-122 | on every run, torn reads included, a pair shows the contents of its version or of a later one |
| CartRuns.TornReadIsCached | services/cart-service/internal/cart/store.go:102-109 | a torn read is real: a write between the two SELECTs puts a pair into the cache that the cart never held |
| CartRuns.GetIsARun | services/cart-service/internal/cart/store.go:24-40 | a Get that nothing interrupts, as steps of the machine: a usable cache entry, else the rows, cached iff that write works |
| CartRuns.SetItemIsARun | services/cart-service/internal/cart/store.go:42-67 | likewise a SetItem: rows, answer and cache drop |
| CartRuns.DeleteItemIsARun | services/cart-service/internal/cart/store.go:69-93 | likewise a DeleteItem, with or without a row to delete |
| OrderStore.InsertItems | services/order-service/internal/order/service.go:244-250 | the item loop ends well iff products are distinct, quantities positive and prices not negative |
| OrderStore.OrderDb.PrepareIdempotency | services/order-service/internal/order/service.go:189-218 | tables and answer: reused key, stored order, stored attempt, or a new key row |
| OrderStore.OrderDb.PersistOrder | services/order-service/internal/order/service.go:220-283 | order, items, outbox event and completed key row together, or nothing |
| OrderStore.OrderDb.Cancel | services/order-service/internal/order/service.go:120-187 | status, history row and both events together after an answered release, or nothing |
| OrderRules.CancelDecides | services/order-service/internal/order/service.go:120-187 | status by status: created and confirmed orders are cancelled after an answered release, with history row and both events written out; cancelled ones are left alone; assembling, delivering and delivered ones are refused and nothing is written |
| OrderRules.PrepareDecides | services/order-service/internal/order/service.go:189-218 | what a key answers: another payload, completed, in progress, unknown; only the last writes a row |
| OrderRules.PersistDecides | services/order-service/internal/order/service.go:220-283 | a persist writes iff ids, reservation, products, quantities, prices and total pass the constraints; then order, event and key row hold exactly the listed fields |
| OrderStore.OrderDb.Handle | services/order-service/internal/order/consumer.go:53-136 | inbox mark, status, history and events of one delivery event, or the error that rolls all back |
| OrderRules.HandleReadsTheKind | services/order-service/internal/order/consumer.go:60-84 | which kinds of event are ignored, unsupported or duplicates |
| OrderRules.HandleDecides | services/order-service/internal/order/consumer.go:85-146 | event by event and status by status: the six allowed moves with their row and events, what is only marked, and what is an invalid transition |
| OrderRuns.HistoryIsAFaithfulPath | services/order-service/internal/order/consumer.go:95-135 | in every reachable state an order's history chains from created to its status along the eight listed edges (so only created and confirmed orders are cancelled), at most four rows, and the outbox is order.created followed by exactly the events of those rows |
| OrderRuns.OrdersStay | services/order-service/internal/order/consumer.go:138-146 | orders are never dropped, only their status changes, delivered and cancelled are never left |
| SagaRuns.OneOrderPerKey | services/order-service/internal/order/service.go:32-85 | under any interleaving, crash and lost session every order is the stored response of the key it was created under, so a key has at most one order |
| SagaRuns.ReturnedOrdersAreStored | services/order-service/internal/order/service.go:48-54 | an order a call returned is the stored response of its key with the same payload, after any further steps |
| SagaRuns.RetriesAgree | services/order-service/internal/order/service.go:48-54 | two calls for one key that return an order return the same order |
| SagaRuns.CompletedKeysAnswer | services/order-service/internal/order/service.go:193-203 | a completed key answers the same payload with its order and another payload with a refusal, changing no table |
| SagaRuns.OtherPayloadsChangeNothing | services/order-service/internal/order/service.go:193-196 | no step of a call whose payload differs from the stored one changes an order, key, reservation or stock row |
| SagaRuns.OrdersTakeAReadCart | services/order-service/internal/order/service.go:59-78 | products and quantities of an order are, one for one, those of a cart read for its user at the order's cart version; names, prices, total and currency are those of its reservation |
| SagaRuns.OrdersTakeTheCartOrALaterOne | services/order-service/internal/order/service.go:59-78 | on every run, torn cart reads included, they are what the cart held at the order's version or at a later one |
| SagaRuns.OrdersTakeTheCart | services/order-service/internal/order/service.go:59-78 | if no cart read for the user was torn, they are exactly what the cart held at the order's version |
| SagaRuns.CancelledOrdersHoldNothing | services/order-service/internal/order/service.go:149-181 | in every reachable state the reservation of a cancelled order exists and is not active |
| SagaRuns.ReleasedOrdersGetCancelled | services/order-service/internal/order/service.go:149-154 | while Cancel keeps its row lock no delivery event overtakes it: after an answered release the order is still cancellable and the commit cancels it |
| SagaLocks.KeysAreLockedExactlyByCallsOnTheirWay | services/order-service/internal/order/service.go:34-42 | in every reachable state a key is locked iff a connected call for it is on its way, and by that call; a call that returned, crashed or lost its session leaves no lock behind |
| SagaLocks.RowsAreLockedExactlyByCancellations | services/order-service/internal/order/service.go:120-154 | likewise the row lock of an order and the cancellations of it |
| SagaRuns.LostCommitAnswerReleasesALiveOrder | services/order-service/internal/order/service.go:79-83 | in any state the protocol can be in, a persist whose commit answer is lost, followed by its compensation, leaves a live order whose reservation is released |
| LiveOrders.OrdersLoseTheirStockExactlyWhenReleased | services/order-service/internal/order/service.go:79-83 | exactly when an order has no stock: in every reachable state its reservation is inactive iff the run holds an applied compensation of it or an applied release of it by Cancel |
| LiveOrders.DebtsComeFromFailedPersists | services/order-service/internal/order/service.go:79-83 | a call owes a compensation only if a persist of its key ended other than committed, answered and with its session kept |
| LiveOrders.CompensationsAreTheKeysOwn | services/order-service/internal/order/service.go:32-85 | the reservation of an order is compensated only after such a failed persist of the order's own key |
| LiveOrders.UndisturbedOrdersHoldTheirStock | services/order-service/internal/order/service.go:79-83 | an order that is not cancelled holds an active reservation if no persist of its key failed in that sense and no release by Cancel was left without its commit |
| LostStock.LostCommitAnswerLosesStock | services/order-service/internal/order/service.go:79-83 | a run from the opening stock: the answer of a commit is lost, and the compensation releases the stock of a live order |
| LostStock.RetryOfAnAbortedPersistLosesStock | services/catalog-service/internal/catalog/store.go:70-84 | another: the persist aborts, the compensation releases, and the retry of the key is handed the stored active answer and returns a live order on released stock; no answer is lost |
| LostStock.AbortedCancelLosesStock | services/order-service/internal/order/service.go:149-181 | another: the release of a cancellation is applied and its commit aborts |
| SagaLedgers.SagasConserveStock | services/order-service/internal/order/service.go:70-83 | stock conservation, no return to active and at most one give-back hold for every run of the sagas |
| SagaLedgers.LedgerFollows | services/order-service/internal/order/client.go:71-115 | the sagas drive the ledger only through reserve and release calls |
| SagaLedgers.SagasKeepHistories | services/order-service/internal/order/service.go:155-181 | order histories and outbox stay faithful under the sagas' interleavings |
| CheckoutService.Service.Create | services/order-service/internal/order/service.go:32-85 | order tables, ledger and result of one uninterrupted call, for every combination of failures and lost answers |
| CheckoutService.Service.Cancel | services/order-service/internal/order/service.go:120-187 | likewise for cancellation: release first, cancelled only after its answer |
| CheckoutService.CreateIsASagaRun | services/order-service/internal/order/service.go:32-85 | after any steps of other calls, that call is a run of the saga machine: same tables, same ledger, same result |
| CheckoutService.CancelIsASagaRun | services/order-service/internal/order/service.go:120-187 | likewise for cancellation |
| CheckoutRules.CancellationDecides | services/order-service/internal/order/service.go:120-187 | status by status, for every combination of answers: when a call cancels the order and gives its stock back; past confirmed it is refused with tables and ledger unchanged |
| CheckoutRules.UsedKeysAnswer | services/order-service/internal/order/service.go:44-50 | a used key answers the stored order, or refuses another payload, before cart or stock are looked at |
| CheckoutRules.CartReadDecides | services/order-service/internal/order/service.go:52-62 | which cart a checkout reads, if any: cache before rows, none for an unknown user or a service or database that does not answer |
| CheckoutRules.CartDecides | services/order-service/internal/order/service.go:59-69 | the checkout is refused, with nothing reserved, iff the cart cannot be read, is empty or is at another version |
| CheckoutRules.CheckoutDecides | services/order-service/internal/order/service.go:70-85 | with all calls answered, it ends in insufficient stock, with no stock moved and no order, iff a product of the cart is missing, not for sale or short; otherwise the stock of each line is taken and the grant persisted |
| CheckoutRules.UnservableCartsFail | services/order-service/internal/order/service.go:70-77 | a cart the catalog refuses, or one of several currencies, fails with nothing moved |
| CheckoutRules.LostAnswersFail | services/order-service/internal/order/service.go:43-47 | a checkout whose key transaction is not answered fails with no order and no reservation |
| CheckoutRules.LostReservationFails | services/order-service/internal/order/service.go:70-77 | a checkout whose reservation is not answered fails |
| CheckoutRules.SettlingDecides | services/order-service/internal/order/service.go:79-84 | the caller gets the stored order of the grant iff the persist fits the constraints and is committed and answered; otherwise the call fails and releases the grant |
| DeliveryStore.PickCourier | services/delivery-service/internal/delivery/consumer.go:157-174 | the candidate loop finds what the next row says |
| DeliveryRules.NearestFreeCandidateIsFound | services/delivery-service/internal/delivery/consumer.go:157-174 | the courier found is the first candidate with an available row, the nearest of the sorted list; none iff there is none |
| DeliveryStore.DeliveryDb.Assign | services/delivery-service/internal/delivery/consumer.go:132-202 | tables and outcome of one assignment |
| DeliveryRules.AssignDecides | services/delivery-service/internal/delivery/consumer.go:132-202 | a trip for the first available candidate, with every field of trip, courier, inbox and event written out, or the error and no change |
| DeliveryStore.DeliveryDb.Cancel | services/delivery-service/internal/delivery/consumer.go:89-130 | tables and outcome of one cancellation event |
| DeliveryRules.CancelDecides | services/delivery-service/internal/delivery/consumer.go:89-130 | an assigned, assembling or delivering trip is cancelled and its courier freed; a terminal or missing one only marks the event |
| DeliveryStore.DeliveryDb.UpdateLocation | services/delivery-service/internal/delivery/consumer.go:204-237 | tables and outcome of one location event with its phase |
| DeliveryRules.LocationDecides | services/delivery-service/internal/delivery/consumer.go:204-237 | a stale event only marks its id; a newer one moves the courier and applies its phase, all or nothing |
| DeliveryStore.DeliveryDb.ApplyPhase | services/delivery-service/internal/delivery/consumer.go:239-309 | rows and event of an accepted phase, or the error |
| DeliveryRules.PhaseDecides | services/delivery-service/internal/delivery/consumer.go:239-309 | status by status: the accepted phases, the fields they write, the freed courier, the closed predictions, and the announced duration (cut towards zero) and first-stage prediction |
| DeliveryStore.DeliveryDb.Delay | services/delivery-service/internal/delivery/handler.go:114-139 | ten more seconds, capped at 600, or a refusal for a terminal delivery |
| DeliveryRules.DelayDecides | services/delivery-service/internal/delivery/handler.go:114-139 | ten more seconds of delay up to 600, ten more on a predicted arrival, one event, nothing else |
| DeliveryStore.DeliveryDb.Complete | services/delivery-service/internal/delivery/handler.go:141-175 | completion by the operator: delivery, courier, predictions and event together |
| DeliveryRules.CompleteDecides | services/delivery-service/internal/delivery/handler.go:141-175 | from any status that is not terminal: fields, freed courier, closed predictions and announced duration written out |
| DeliveryStore.DeliveryDb.Save | services/delivery-service/internal/delivery/eta.go:212-254 | at most one row per delivery and stage, closed at once if the delivery is complete |
| DeliveryRules.SaveDecides | services/delivery-service/internal/delivery/eta.go:212-254 | the new prediction row field by field, with the rounded, never negative duration if the delivery is completed |
| DeliveryRuns.CouriersAreExclusive | services/delivery-service/internal/delivery/consumer.go:89-202 | in every reachable state a courier is assigned iff a live delivery names it, and then exactly one does |
| DeliveryRuns.OneStoryPerOrder | services/delivery-service/internal/delivery/consumer.go:256-308 | per order the outbox tells one way up the ladder, closed by at most one completed or cancelled event, matching the delivery's status |
| DeliveryRuns.CancellationReachesLogistics | services/delivery-service/internal/delivery/consumer.go:89-130 | once order.cancelled is processed, the order has a live delivery again iff some later assignment for it under an unmarked event id takes effect; otherwise its delivery is absent or terminal for ever and no further milestone is announced |
| DeliveryRuns.RedeliveriesDoNotRevive | services/delivery-service/internal/delivery/consumer.go:132-143 | an order.created whose id is marked never is such an assignment |
| DeliveryRuns.FailedCreationRevivesACancelledOrder | services/delivery-service/internal/delivery/consumer.go:89-143 | one whose first handling found no courier is: its id is unmarked, so after order.cancelled it assigns a courier, and the repeated order.cancelled is a duplicate |
| DeliveryRuns.EtaEvaluationCloses | services/delivery-service/internal/delivery/eta.go:212-254 | one prediction per delivery and stage; each prediction of a completed delivery, saved before or after completion, has actual = max(0, completed - predicted), and no other is closed |
| DeliveryRuns.DelayStaysInRange | services/delivery-service/internal/delivery/handler.go:114-139 | the injected delay stays between 0 and 600 s on every run |
| DeliveryRuns.FailedActsChangeNothing | services/delivery-service/internal/delivery/consumer.go:311-314 | a failed or duplicate transaction leaves every table as it was |
| EtaWorker.PredictMissing | services/delivery-service/internal/delivery/eta.go:140-210 | the job loop passes over failed predictions, ends at the first failed save, and leaves exactly the saves before it |
| EtaWorker.BatchIsARun | services/delivery-service/internal/delivery/eta.go:181-209 | a batch is a run of separate saves, so what all runs keep holds when others interfere |
| EtaWorker.NothingIsLeftWanting | services/delivery-service/internal/delivery/eta.go:141-154 | a short batch without failure or interference leaves every live delivery with a prediction for the stage of its status |
| Positions.SequenceRisesWithEveryMove | services/delivery-service/internal/delivery/consumer.go:213-226 | a courier row changes place only by a location event, and then its sequence strictly rises |
| Positions.RefusedPhaseChangesNothing | services/delivery-service/internal/delivery/consumer.go:227-237 | a phase refused as an invalid transition or for another courier leaves courier, delivery, inbox and outbox untouched |
| Positions.LastWriterWins | services/delivery-service/internal/delivery/consumer.go:204-237 | two deliveries of the same phase-neutral events, in any orders with any repetitions, end in the same courier row, that of the greatest sequence |
| Fulfilment.RefusedExactlyWithoutItsRung | services/order-service/internal/order/consumer.go:95-109 | for every run of both services, redelivery, retries and dead-lettering included: an unhandled event of an order that is not cancelled is an invalid transition iff the rung below its target is not handled, or completion already is |
| Fulfilment.NextIsRefusedIffItsRungIsBuried | services/order-service/internal/order/consumer.go:39-109 | with first occurrences in order, the next event of such an order is refused iff the event of the rung below (assigned for assembling and completed, assembling for delivering) was dead-lettered |
| Fulfilment.ConsumerRefusesNothingUnburied | services/order-service/internal/order/consumer.go:61-109 | if no event of the order was dead-lettered, the consumer never meets an invalid transition, an unsupported status or an unknown order for it |
| Fulfilment.BuriedAssignmentBlocksTheOrder | pkg/platform/kafkax/retry.go:54-91 | a run that dead-letters delivery.assigned: the next phase is refused, and the drained order stays created while its delivery is under way |
| Fulfilment.DrainedOrderMirrorsTrip | services/order-service/internal/order/consumer.go:62-78 | once an order's events are drained, a non-cancelled order shows the image of its delivery's status iff the event announcing that status was not dead-lettered |
| Fulfilment.CancellationIsAnnounced | services/order-service/internal/order/service.go:161-178 | order.cancelled is in the outbox iff the order is cancelled |
| Fulfilment.OnlyBlankPhasesAreRefused | services/delivery-service/internal/delivery/consumer.go:316-318 | an accepted phase emits an event the order service refuses iff the phase is blank |
| Fulfilment.BlankPhaseSlipsThrough | services/delivery-service/internal/delivery/consumer.go:316-318 | a blank phase on a completed delivery is accepted, and its event can never be handled |
| Outbox.ProduceAndMark | pkg/platform/outbox/outbox.go:111-140 | the produce loop sends exactly the accepted prefix and the failing record if Kafka has it, and marks exactly the prefix |
| Outbox.Relay.PublishBatch | pkg/platform/outbox/outbox.go:84-142 | log and rows after a batch, for every pattern of produce, update and commit failures |
| Outbox.Relay.Insert | pkg/platform/outbox/outbox.go:24-41 | a new unpublished row, refused for a known event id |
| OutboxRuns.BatchMarksAPrefix | pkg/platform/outbox/outbox.go:111-141 | a batch marks a prefix of its selection, of accepted records only |
| OutboxRuns.BatchTakesTheOldestFifty | pkg/platform/outbox/outbox.go:84-110 | a batch takes at most fifty unpublished rows, oldest first, and all of them if fewer |
| OutboxRuns.BatchSendsWhatKafkaTakes | pkg/platform/outbox/outbox.go:111-126 | a record of the selection is sent iff all calls before it were accepted and Kafka has it, acknowledged or not |
| OutboxRuns.BatchMarksWhatIsAccepted | pkg/platform/outbox/outbox.go:127-141 | row by row: a tried row counts one attempt more and is published iff its call was accepted; a failed mark or commit leaves the table as it was |
| OutboxRuns.LogIsFaithful | pkg/platform/outbox/outbox.go:90-141 | on every run a marked row is in the log, the log holds only committed rows, and each record follows records of all earlier events of its aggregate |
| OutboxRuns.FirstOccurrencesAreInOrder | pkg/platform/outbox/outbox.go:90-93 | reading the log, a record repeats a seen event of its aggregate or is the very next one in time |
| OutboxRuns.ProducedOnceMoreThanWasted | pkg/platform/outbox/outbox.go:127-141 | an event is in the log at most once more than the failed or rolled-back attempts that covered it |
| Base64.RoundTrip | pkg/platform/kafkax/retry.go:72-76 | decoding the base64 encoding restores every byte string |
| Base64.QuadsAreTheBits | pkg/platform/kafkax/retry.go:72-76 | the encoding is the 24-bit grouping, zero fill and padding of section 4 of RFC 4648 |
| Base64.DigitsAreTheAlphabet | pkg/platform/kafkax/retry.go:72-76 | its digits are the standard alphabet |
| DeadLetters.DeadLettersAreLossless | pkg/platform/kafkax/retry.go:98-114 | a dead letter restores topic and value of its record iff the topic is neither blank nor a DLQ topic, whatever the bytes |
| DeadLetters.ReplayNeverTargetsADlq | pkg/platform/kafkax/retry.go:103-108 | whatever letter is read, the restored topic is not a DLQ topic |
| DeadLetters.LetterTellsItsRecord | pkg/platform/kafkax/retry.go:64-91 | a dead letter keeps the key and names topic, partition, offset, consumer, three attempts, reason and time, and its value decodes to the record's |
| DeadLetters.TopicNames | pkg/platform/kafkax/retry.go:98-114 | which topics are DLQ topics and which are blank |
| DeadLetters.Process | pkg/platform/kafkax/retry.go:52-91 | processed iff a call among the first three succeeds before the context ends; dead-lettered iff all three fail and a publish call is acknowledged before it ends; the number of handler calls and of posted letters is fixed by the answers, and every letter is that of the record |
| DeadLetters.Validate | cmd/dlq-replay/main.go:67-84 | accepts exactly the safe configurations: a DLQ topic, positive bounds, and writing iff confirmed |
| DeadLetters.Consume | cmd/dlq-replay/main.go:86-144 | records counted, records written and the ending are determined by the polled records and Kafka's answers: everything counted decodes and, in a real run, was produced and committed; each ending occurs only with its own cause at the next record, at the limit, or at the end of the records; the written records are, in order, the restored first letters |
| Notifications.MessageFor | services/notification-worker/internal/notification/consumer.go:96-107 | exactly three event types are supported |
| Notifications.NoteSaysWhatHappened | services/notification-worker/internal/notification/consumer.go:58-107 | a new complete event of a supported type gets one note with its own ids and correlation and the text of its type; every other event changes nothing |
| Notifications.HandleReports | services/notification-worker/internal/notification/consumer.go:58-94 | when the call reports success |
| Notifications.NotificationDb.Handle | services/notification-worker/internal/notification/consumer.go:58-94 | inbox and log rows together or not at all, and when an error is returned |
| Pipeline.AtMostOnce | services/notification-worker/internal/notification/consumer.go:79-93 | on every run no event has two notifications, and each notification says what a committed outbox row says |
| Pipeline.ExactlyOnceWhenProcessed | services/notification-worker/internal/notification/consumer.go:58-94 | a record whose handling ended as processed, within three calls, has exactly one notification if its type is supported |
| Pipeline.NothingIsDropped | services/notification-worker/internal/notification/consumer.go:37-54 | every record below the committed offset of its partition was processed within three calls or has a dead letter that restores its topic, key and value |
| Pipeline.EffectivelyOnce | pkg/platform/outbox/outbox.go:84-142 | once every partition is drained, each published event of a supported type has exactly one notification, or a restoring dead letter of its record waits in the DLQ |
| Pipeline.ReplayRepeatsTheRecord | cmd/dlq-replay/main.go:104-136 | in every reachable state any dead letter can be replayed, and the replay appends the very record it was written for |
| Pipeline.PartitionsCanAlwaysBeDrained | services/notification-worker/internal/notification/consumer.go:37-54 | from every reachable state some continuation brings the committed offset of a partition past all its records: no record blocks it |
| Analytics.Project | services/analytics-worker/internal/analytics/projector.go:32-92 | the complete meaning of a projection: which facts exist, their ids, status, amounts and time, and arrays that are row by row the items |
| Analytics.CollectItems | services/analytics-worker/internal/analytics/projector.go:76-84 | the item loop ends well iff every product id parses, and then its three arrays are the items |
| Analytics.MeaningIsUnique | services/analytics-worker/internal/analytics/projector.go:32-92 | the meaning fixes the projection; with a set time it does not depend on when it is computed |
| Analytics.RowsByType | services/analytics-worker/internal/analytics/projector.go:50-75 | type by type, which events reach the delivery table and which the order table |
| Analytics.OrderRowByField | services/analytics-worker/internal/analytics/projector.go:63-91 | an order row field by field: order, status, amounts, time, items |
| Analytics.DeliveryRowByField | services/analytics-worker/internal/analytics/projector.go:50-62 | a delivery row field by field |
| Analytics.Store.Insert | services/analytics-worker/internal/analytics/store.go:25-55 | both tables after an insert that may stop half way or lose an acknowledgement |
| Analytics.InsertDecides | services/analytics-worker/internal/analytics/store.go:25-55 | which of the two rows are there after any pattern of acknowledged, lost and rejected statements |
| AnalyticsRuns.FinalShowsTheLastRow | services/analytics-worker/internal/analytics/store.go:57-146 | FINAL shows an event's row iff there is one, and then the one inserted last |
| AnalyticsRuns.ViewDependsOnlyOnTheEvents | services/analytics-worker/internal/analytics/store.go:57-146 | two streams over the same events with a success for each give the same FINAL view of both tables, whatever duplicates, half inserts and orders they contain |
| AnalyticsRuns.TheTimeMustBeSet | services/analytics-worker/internal/analytics/projector.go:36-38 | retried at another time, an event shows the same order row iff its envelope says when it occurred |
| Cancellations.CancellationsAreTheCancelledOrders | services/analytics-worker/internal/analytics/store.go:116-121 | for every run of the order and delivery services and every complete stream over their events merged with location and inventory events, the orders counted as cancelled are the cancelled orders |
| Cancellations.TripsNeverSayCancelled | services/delivery-service/internal/delivery/consumer.go:256-308 | no status event of the delivery service says cancelled, on any run |

## Where the code and its documents differ

The model follows the code. The documents describe a reservation reaper, cancellation from `assembling`, and
`pending` and `picked_up` states; the code has none of them. The schema allows an offline
courier; no code sets one. With an empty phase the transition table's missing entry accepts a "transition" out of a
terminal state (`Fulfilment.OnlyBlankPhasesAreRefused` says exactly when this matters). "A live order has an active
reservation" is not true of the code: it fails after a lost commit answer, after the retry of a persist that failed
and was compensated, and after a cancellation that released but did not commit (the three runs of `LostStock`).
`LiveOrders` says for every run exactly when it holds. "A cancelled order has no live delivery" and "a drained order
shows its delivery's status" likewise hold exactly under the conditions of
`DeliveryRuns.CancellationReachesLogistics` and `Fulfilment.DrainedOrderMirrorsTrip`.

## Left out

- LockOrder.ConcurrentReservesNeverDeadlock: supposes canonical id texts, which `TwoReservesBlockIffTheyCross` makes exact for two requests; the row locks that `Release` takes are not part of that machine.
- DeliveryRuns.CancellationReachesLogistics: "announced" covers milestones (assigned, assembling, delivering, completed, cancelled); a blank phase may still emit a status event of a terminal delivery (`Fulfilment.BlankPhaseSlipsThrough`).
- DeliveryRuns.EtaEvaluationCloses: transactions are serialised; `saveETA` takes no row lock, so at READ COMMITTED a concurrent completion can miss the row it is inserting.
- OutboxRuns.LogIsFaithful: one relay per outbox; several relays with SKIP LOCKED may reorder.
- OutboxRuns.FirstOccurrencesAreInOrder: one relay per outbox, as above.
- Pipeline.EffectivelyOnce: one topic with any number of partitions and worker instances; an offset is named by the record's place in the topic's arrival order, which keeps each partition's order.
- Pipeline.NothingIsDropped: the DLQ topic is taken to keep its records.
- DeadLetters.Process: the length of the pauses (`retryDelay`) and the shortened error text (`sanitizeError`) are not modelled.
- DeadLetters.Consume: poll errors other than the timeout end the tool as `TimedOut` does.
- Cancellations.CancellationsAreTheCancelledOrders: event ids drawn by different services are taken to differ.
- Fulfilment.NextIsRefusedIffItsRungIsBuried: about first occurrences in order; replayed and repeated records are covered by `RefusedExactlyWithoutItsRung`.
- JSON, SHA-256, UUID generation and parsing, and the database, Kafka, Redis and ClickHouse clients are total or failing steps.
- HTTP routing, streams, telemetry, trace headers and logging carry no protocol state.
- Redis GEO search: candidates are an arbitrary finite list, since exclusivity must not depend on the ranking.
- Haversine distance, the ETA baseline and the courier simulator: predictions and phases are arbitrary inputs.
- Liveness in real time: a busy fleet may dead-letter an order and a skipped phase may stall a delivery.
- The averages and durations of the analytics queries (ETA, on-time ratio, popular products, status durations) are functions of the FINAL view, which is what is proved unchanged.
- The reservation expiry time is stored and never acted upon, as in the code.
