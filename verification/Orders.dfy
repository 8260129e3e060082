/**
 The order service: idempotency keys, orders, their status history, and the outbox.

 `PrepareTx`, `PersistTx`, `CancelTx` and `HandleTx` are the committed transactions of service.go and consumer.go.
 The request hash is injective, so a key row keeps the request itself.
 */
module Orders {
  import opened Prelude
  import Catalog
  import Delivery

  datatype Status = Created | Confirmed | Assembling | Delivering | Delivered | Cancelled

  datatype Checkout = Checkout(user: Id, cartVersion: int)

  datatype Order = Order(
    id: Id, user: Id, reservation: Id, cartVersion: int, status: Status,
    items: seq<Catalog.ReservedItem>, total: int, currency: Option<Catalog.Currency>, createdAt: int)

  /** `response` is present once the key row is completed. */
  datatype KeyRow = KeyRow(request: Checkout, attempt: Id, response: Option<Order>)

  datatype HistoryRow = HistoryRow(order: Id, previous: Status, next: Status, at: int)

  datatype Kind =
    | OrderCreated(order: Order)
    | OrderConfirmed
    | OrderCancelled(previous: Status)
    | StatusChanged(previous: Status, next: Status)

  datatype Event = Event(id: Id, order: Id, kind: Kind)

  datatype Tables = Tables(
    keys: map<Id, KeyRow>,
    orders: map<Id, Order>,
    history: seq<HistoryRow>,
    inbox: set<Id>,
    outbox: seq<Event>)

  datatype Fault =
    | NotFound | NotCancellable | ReleaseFailed | InvalidTransition | UnsupportedTarget
    | ConstraintViolated | CommitFailed

  datatype Outcome = Done | Ignored | Duplicate | Faulted(fault: Fault)

  // ------------------------------------------------------------------ Small pure parts

  /** `validTransition`. */
  predicate ValidTransition(current: Status, target: Status) {
    match current
    case Created => target == Confirmed
    case Confirmed => target == Assembling || target == Delivered
    case Assembling => target == Delivering || target == Delivered
    case Delivering => target == Delivered
    case _ => false
  }

  predicate CanCancel(status: Status) {
    status == Created || status == Confirmed
  }

  /** What a delivery event asks of its order. */
  datatype Target = NoTarget | BadTarget | To(status: Status)

  function TargetOf(kind: Delivery.Kind): Target {
    match kind
    case TripAssigned => To(Confirmed)
    case StatusChanged(status) =>
      if status == Some(Delivery.Assembling) then To(Assembling)
      else if status == Some(Delivery.Delivering) then To(Delivering)
      else BadTarget
    case TripCompleted(_, _, _) => To(Delivered)
    case TripCancelled => NoTarget
    case DelayInjected => NoTarget
  }

  ghost predicate Used(outbox: seq<Event>, id: Id) {
    exists i :: 0 <= i < |outbox| && outbox[i].id == id
  }

  ghost predicate ReservationTaken(orders: map<Id, Order>, reservation: Id) {
    exists o :: o in orders && orders[o].reservation == reservation
  }

  // ------------------------------------------------------------------ prepareIdempotency

  datatype Prepared = KeyReused | Replay(order: Order) | Proceed(attempt: Id)

  function PrepareTx(t: Tables, key: Id, request: Checkout, newAttempt: Id): (Tables, Prepared) {
    if key in t.keys then
      if t.keys[key].request != request then (t, KeyReused)
      else if t.keys[key].response.Some? then (t, Replay(t.keys[key].response.value))
      else (t, Proceed(t.keys[key].attempt))
    else (t.(keys := t.keys[key := KeyRow(request, newAttempt, None)]), Proceed(newAttempt))
  }

  // ------------------------------------------------------------------ persistOrder

  function NewOrder(newId: Id, request: Checkout, reservation: Catalog.Response, now: int): Order {
    Order(newId, request.user, reservation.reservation, request.cartVersion, Created,
          reservation.items, reservation.total, reservation.currency, now)
  }

  /** The item table's constraints: one row per product, positive quantity, no negative price. */
  ghost predicate ItemsFit(items: seq<Catalog.ReservedItem>) {
    && Catalog.Insertable(items)
    && forall i :: 0 <= i < |items| ==> items[i].price >= 0
  }

  function AfterPersist(t: Tables, key: Id, order: Order, outId: Id): Tables {
    t.(orders := t.orders[order.id := order],
       outbox := t.outbox + [Event(outId, order.id, OrderCreated(order))],
       keys := if key in t.keys then t.keys[key := t.keys[key].(response := Some(order))] else t.keys)
  }

  ghost function PersistTx(t: Tables, key: Id, request: Checkout, reservation: Catalog.Response, newId: Id, now: int, outId: Id, commits: bool): (Tables, Outcome) {
    var order := NewOrder(newId, request, reservation, now);
    if newId in t.orders || ReservationTaken(t.orders, order.reservation) || order.total < 0
       || !ItemsFit(order.items) || Used(t.outbox, outId) then (t, Faulted(ConstraintViolated))
    else if !commits then (t, Faulted(CommitFailed))
    else (AfterPersist(t, key, order, outId), Done)
  }

  // ------------------------------------------------------------------ Cancel

  function AfterCancel(t: Tables, order: Id, at: int, outId: Id, outId2: Id): Tables
    requires order in t.orders
  {
    var previous := t.orders[order].status;
    t.(orders := t.orders[order := t.orders[order].(status := Cancelled)],
       history := t.history + [HistoryRow(order, previous, Cancelled, at)],
       outbox := t.outbox + [Event(outId, order, OrderCancelled(previous)), Event(outId2, order, StatusChanged(previous, Cancelled))])
  }

  /** The order tables' part of `Cancel`; `released` is the answer of the catalog to the release request. */
  ghost function CancelTx(t: Tables, order: Id, released: bool, at: int, outId: Id, outId2: Id, commits: bool): (Tables, Outcome) {
    if order !in t.orders then (t, Faulted(NotFound))
    else if t.orders[order].status == Cancelled then (t, if commits then Done else Faulted(CommitFailed))
    else if !CanCancel(t.orders[order].status) then (t, Faulted(NotCancellable))
    else if !released then (t, Faulted(ReleaseFailed))
    else if Used(t.outbox, outId) || Used(t.outbox, outId2) || outId == outId2 then (t, Faulted(ConstraintViolated))
    else if !commits then (t, Faulted(CommitFailed))
    else (AfterCancel(t, order, at, outId, outId2), Done)
  }

  // ------------------------------------------------------------------ handle (delivery events)

  function AfterHandle(t: Tables, e: Delivery.Event, target: Status, at: int, outId: Id, outId2: Id): Tables
    requires e.order in t.orders
  {
    var previous := t.orders[e.order].status;
    var changed := Event(outId2, e.order, StatusChanged(previous, target));
    t.(orders := t.orders[e.order := t.orders[e.order].(status := target)],
       history := t.history + [HistoryRow(e.order, previous, target, at)],
       inbox := t.inbox + {e.id},
       outbox := t.outbox + if e.kind.TripAssigned? then [Event(outId, e.order, OrderConfirmed), changed] else [changed])
  }

  ghost function HandleTx(t: Tables, e: Delivery.Event, at: int, outId: Id, outId2: Id, commits: bool): (Tables, Outcome) {
    var target := TargetOf(e.kind);
    if target.NoTarget? then (t, Ignored)
    else if target.BadTarget? then (t, Faulted(UnsupportedTarget))
    else if e.id in t.inbox then (t, Duplicate)
    else if e.order !in t.orders then (t, Faulted(NotFound))
    else
      var current := t.orders[e.order].status;
      if current == target.status || current == Cancelled then
        if commits then (t.(inbox := t.inbox + {e.id}), Done) else (t, Faulted(CommitFailed))
      else if !ValidTransition(current, target.status) then (t, Faulted(InvalidTransition))
      else if Used(t.outbox, outId) || Used(t.outbox, outId2) || outId == outId2 then (t, Faulted(ConstraintViolated))
      else if !commits then (t, Faulted(CommitFailed))
      else (AfterHandle(t, e, target.status, at, outId, outId2), Done)
  }
}
