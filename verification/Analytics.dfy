/** The analytics worker: one event becomes at most one row in each of two append-only tables, read through FINAL. */
module Analytics {
  import opened Prelude

  /** An item of an order.created payload; None is a product id that does not parse. */
  datatype Item = Item(product: Option<Id>, name: string, quantity: nat)

  datatype Payload = Payload(
    order: Option<Id>, delivery: Option<Id>, courier: Option<Id>,
    status: string, previousStatus: string, newStatus: string,
    currency: string, total: nat, latitude: Option<real>, longitude: Option<real>,
    predicted: Option<nat>, actual: Option<nat>, items: seq<Item>)

  /** Ids that do not parse, a zero time and a payload that is not JSON are None. */
  datatype Envelope = Envelope(
    eventId: Option<Id>, eventType: string, occurredAt: Option<int>, aggregate: Option<Id>,
    correlation: string, trace: string, payload: Option<Payload>)

  datatype DeliveryFact = DeliveryFact(
    eventId: Id, eventType: string, order: Option<Id>, delivery: Option<Id>, courier: Option<Id>, status: string,
    latitude: Option<real>, longitude: Option<real>, predicted: Option<nat>, actual: Option<nat>,
    occurredAt: int, correlation: string, trace: string, payload: Payload)

  datatype OrderFact = OrderFact(
    eventId: Id, order: Id, eventType: string, status: string, previousStatus: string, total: nat, currency: string,
    productIds: seq<Id>, productNames: seq<string>, quantities: seq<nat>, predicted: Option<nat>, actual: Option<nat>,
    occurredAt: int, correlation: string, trace: string)

  datatype Fault = BadEventId | BadPayload | BadProduct

  datatype Projected = Projection(delivery: Option<DeliveryFact>, order: Option<OrderFact>) | Failed(fault: Fault)

  predicate IsOrderEvent(eventType: string) {
    eventType == "order.created" || eventType == "order.confirmed" || eventType == "order.status_changed"
  }

  predicate IsDeliveryEvent(eventType: string) {
    || eventType == "delivery.assigned" || eventType == "delivery.status_changed" || eventType == "delivery.completed"
    || eventType == "courier.location_updated"
  }

  // ------------------------------------------------------------------ What a projection is

  function OrderOf(e: Envelope, p: Payload): Option<Id> {
    if p.order.None? && IsOrderEvent(e.eventType) then e.aggregate else p.order
  }

  function StatusOf(e: Envelope, p: Payload): string {
    if e.eventType == "order.created" then "created"
    else if e.eventType == "order.confirmed" then "confirmed"
    else if p.newStatus != "" then p.newStatus
    else p.status
  }

  /** The order table takes every projected event whose order is known. */
  predicate HasOrderFact(e: Envelope, p: Payload) {
    OrderOf(e, p).Some? && (IsOrderEvent(e.eventType) || IsDeliveryEvent(e.eventType))
  }

  ghost predicate ProductsParse(items: seq<Item>) {
    forall i :: 0 <= i < |items| ==> items[i].product.Some?
  }

  /** Row by row, the three arrays are the items. */
  ghost predicate Aligned(f: OrderFact, items: seq<Item>) {
    && |f.productIds| == |f.productNames| == |f.quantities| == |items|
    && forall i :: 0 <= i < |items| ==>
         items[i] == Item(Some(f.productIds[i]), f.productNames[i], f.quantities[i])
  }

  function ItemsOf(e: Envelope, p: Payload): seq<Item> {
    if e.eventType == "order.created" then p.items else []
  }

  ghost predicate IsOrderFact(e: Envelope, p: Payload, at: int, f: OrderFact) {
    && e.eventId == Some(f.eventId) && OrderOf(e, p) == Some(f.order) && f.eventType == e.eventType
    && f.status == StatusOf(e, p) && f.previousStatus == p.previousStatus
    && f.total == p.total && f.currency == p.currency && f.predicted == p.predicted && f.actual == p.actual
    && f.occurredAt == at && f.correlation == e.correlation && f.trace == e.trace
    && Aligned(f, ItemsOf(e, p))
  }

  ghost predicate IsDeliveryFact(e: Envelope, p: Payload, at: int, f: DeliveryFact) {
    && e.eventId.Some?
    && f == DeliveryFact(e.eventId.value, e.eventType, OrderOf(e, p), p.delivery, p.courier,
                         if p.newStatus != "" then p.newStatus else p.status,
                         p.latitude, p.longitude, p.predicted, p.actual, at, e.correlation, e.trace, p)
  }

  /** The complete meaning of `Project`; `now` stands in for a missing time. */
  ghost predicate Means(e: Envelope, now: int, r: Projected) {
    var at := if e.occurredAt.Some? then e.occurredAt.value else now;
    if e.eventId.None? then r == Failed(BadEventId)
    else if e.payload.None? then r == Failed(BadPayload)
    else
      var p := e.payload.value;
      if HasOrderFact(e, p) && !ProductsParse(ItemsOf(e, p)) then r == Failed(BadProduct)
      else
        && r.Projection?
        && (r.delivery.Some? <==> IsDeliveryEvent(e.eventType))
        && (r.delivery.Some? ==> IsDeliveryFact(e, p, at, r.delivery.value))
        && (r.order.Some? <==> HasOrderFact(e, p))
        && (r.order.Some? ==> IsOrderFact(e, p, at, r.order.value))
  }

  /** The meaning determines the projection. */
  lemma MeaningIsUnique(e: Envelope, now: int, later: int, r: Projected, q: Projected)
    requires Means(e, now, r) && Means(e, later, q) && (e.occurredAt.Some? || now == later)
    ensures r == q
  {
    if r.Projection? && r.order.Some? {
      var f, g := r.order.value, q.order.value;
      var items := ItemsOf(e, e.payload.value);
      forall i | 0 <= i < |items| ensures f.productIds[i] == g.productIds[i] && f.productNames[i] == g.productNames[i] && f.quantities[i] == g.quantities[i] {
        assert items[i] == Item(Some(f.productIds[i]), f.productNames[i], f.quantities[i]);
      }
      assert f.productIds == g.productIds && f.productNames == g.productNames && f.quantities == g.quantities;
    }
  }

  /** Which tables an event reaches, type by type. */
  lemma RowsByType(e: Envelope, now: int, r: Projected)
    requires Means(e, now, r) && r.Projection?
    ensures r.delivery.Some? <==>
              || e.eventType == "delivery.assigned" || e.eventType == "delivery.status_changed"
              || e.eventType == "delivery.completed" || e.eventType == "courier.location_updated"
    ensures r.order.Some? <==>
              || ((e.eventType == "order.created" || e.eventType == "order.confirmed" || e.eventType == "order.status_changed")
                  && (e.payload.value.order.Some? || e.aggregate.Some?))
              || ((e.eventType == "delivery.assigned" || e.eventType == "delivery.status_changed"
                   || e.eventType == "delivery.completed" || e.eventType == "courier.location_updated")
                  && e.payload.value.order.Some?)
  {
  }

  /** What an order row holds, field by field: the payload's order, or the aggregate of an order event without one; the
      fixed status of a created or confirmed order, else the new status, else the plain one; the time, or the clock. */
  lemma OrderRowByField(e: Envelope, now: int, r: Projected)
    requires Means(e, now, r) && r.Projection? && r.order.Some?
    ensures var f, p := r.order.value, e.payload.value;
            && Some(f.eventId) == e.eventId && f.eventType == e.eventType
            && Some(f.order) == (if p.order.Some? then p.order else e.aggregate)
            && (e.eventType == "order.created" ==> f.status == "created")
            && (e.eventType == "order.confirmed" ==> f.status == "confirmed")
            && (e.eventType != "order.created" && e.eventType != "order.confirmed" && p.newStatus != "" ==> f.status == p.newStatus)
            && (e.eventType != "order.created" && e.eventType != "order.confirmed" && p.newStatus == "" ==> f.status == p.status)
            && f.previousStatus == p.previousStatus && f.total == p.total && f.currency == p.currency
            && f.predicted == p.predicted && f.actual == p.actual && f.correlation == e.correlation && f.trace == e.trace
            && f.occurredAt == (if e.occurredAt.Some? then e.occurredAt.value else now)
            && (e.eventType == "order.created" ==>
                  && |f.productIds| == |f.productNames| == |f.quantities| == |p.items|
                  && forall i :: 0 <= i < |p.items| ==>
                       && Some(f.productIds[i]) == p.items[i].product && f.productNames[i] == p.items[i].name && f.quantities[i] == p.items[i].quantity)
            && (e.eventType != "order.created" ==> f.productIds == [] && f.productNames == [] && f.quantities == [])
  {
  }

  /** What a delivery row holds, field by field. */
  lemma DeliveryRowByField(e: Envelope, now: int, r: Projected)
    requires Means(e, now, r) && r.Projection? && r.delivery.Some?
    ensures var f, p := r.delivery.value, e.payload.value;
            && Some(f.eventId) == e.eventId && f.eventType == e.eventType && f.order == p.order
            && f.delivery == p.delivery && f.courier == p.courier
            && f.status == (if p.newStatus != "" then p.newStatus else p.status)
            && f.latitude == p.latitude && f.longitude == p.longitude && f.predicted == p.predicted && f.actual == p.actual
            && f.occurredAt == (if e.occurredAt.Some? then e.occurredAt.value else now)
            && f.correlation == e.correlation && f.trace == e.trace && f.payload == p
  {
  }

  // ------------------------------------------------------------------ Project

  /** The item loop: three arrays grow together, the first id that does not parse ends it. */
  method CollectItems(items: seq<Item>) returns (ids: seq<Id>, names: seq<string>, quantities: seq<nat>, parsed: bool)
    ensures parsed <==> ProductsParse(items)
    ensures parsed ==> |ids| == |names| == |quantities| == |items|
    ensures parsed ==> forall i :: 0 <= i < |items| ==> items[i] == Item(Some(ids[i]), names[i], quantities[i])
  {
    ids, names, quantities, parsed := [], [], [], true;
    for i := 0 to |items|
      invariant parsed && |ids| == |names| == |quantities| == i
      invariant forall k :: 0 <= k < i ==> items[k] == Item(Some(ids[k]), names[k], quantities[k])
    {
      if items[i].product.None? {
        parsed := false;
        return;
      }
      ids := ids + [items[i].product.value];
      names := names + [items[i].name];
      quantities := quantities + [items[i].quantity];
    }
  }

  method OrderFactFor(e: Envelope, p: Payload, eventId: Id, order: Id, at: int, status: string) returns (fact: Option<OrderFact>)
    requires e.eventId == Some(eventId) && OrderOf(e, p) == Some(order)
    requires status == if p.newStatus != "" then p.newStatus else p.status
    ensures fact.Some? <==> ProductsParse(ItemsOf(e, p))
    ensures fact.Some? ==> IsOrderFact(e, p, at, fact.value)
  {
    var f := OrderFact(eventId, order, e.eventType, status, p.previousStatus, p.total, p.currency, [], [], [],
                       p.predicted, p.actual, at, e.correlation, e.trace);
    if e.eventType == "order.created" {
      var ids, names, quantities, parsed := CollectItems(p.items);
      if !parsed {
        return None;
      }
      f := f.(status := "created", productIds := ids, productNames := names, quantities := quantities);
    }
    if e.eventType == "order.confirmed" {
      f := f.(status := "confirmed");
    }
    return Some(f);
  }

  method Project(e: Envelope, now: int) returns (r: Projected)
    ensures Means(e, now, r)
  {
    if e.eventId.None? {
      return Failed(BadEventId);
    }
    var at := if e.occurredAt.Some? then e.occurredAt.value else now;
    if e.payload.None? {
      return Failed(BadPayload);
    }
    var p := e.payload.value;
    var order := p.order;
    if order.None? && IsOrderEvent(e.eventType) {
      order := e.aggregate;
    }
    var status := p.status;
    if p.newStatus != "" {
      status := p.newStatus;
    }
    var delivery: Option<DeliveryFact> := None;
    if IsDeliveryEvent(e.eventType) {
      delivery := Some(DeliveryFact(e.eventId.value, e.eventType, order, p.delivery, p.courier, status, p.latitude, p.longitude,
                                    p.predicted, p.actual, at, e.correlation, e.trace, p));
    }
    if order.Some? && (IsOrderEvent(e.eventType) || IsDeliveryEvent(e.eventType)) {
      var fact := OrderFactFor(e, p, e.eventId.value, order.value, at, status);
      return if fact.None? then Failed(BadProduct) else Projection(delivery, fact);
    }
    return Projection(delivery, None);
  }

  // ------------------------------------------------------------------ Insert

  /** The two append-only tables. */
  datatype Tables = Tables(deliveries: seq<DeliveryFact>, orders: seq<OrderFact>)

  /** How one INSERT ends: after Lost the row is there, but the worker sees an error. */
  datatype Ack = Acked | Lost | Rejected

  function AppendTo<T>(rows: seq<T>, row: Option<T>, ack: Ack): seq<T> {
    if row.Some? && ack != Rejected then rows + [row.value] else rows
  }

  /** The delivery row goes first; the order row is only tried after its acknowledgement. */
  function InsertRows(t: Tables, r: Projected, first: Ack, second: Ack): Tables {
    if r.Failed? then t
    else
      Tables(AppendTo(t.deliveries, r.delivery, first),
             if r.delivery.Some? && first != Acked then t.orders else AppendTo(t.orders, r.order, second))
  }

  predicate InsertOk(r: Projected, first: Ack, second: Ack) {
    r.Projection? && (r.delivery.Some? ==> first == Acked) && (r.order.Some? ==> second == Acked)
  }

  /** What an insert leaves: the delivery row, unless its statement is rejected; the order row, if the delivery row was
      acknowledged or there is none, unless its own statement is rejected. A failed projection writes nothing. */
  lemma InsertDecides(t: Tables, r: Projected, first: Ack, second: Ack)
    ensures var u := InsertRows(t, r, first, second);
            && (r.Failed? ==> u == t)
            && (r.Projection? ==>
                  && (if r.delivery.Some? && first in {Acked, Lost} then u.deliveries == t.deliveries + [r.delivery.value]
                      else u.deliveries == t.deliveries)
                  && (if r.order.Some? && second in {Acked, Lost} && (r.delivery.None? || first == Acked) then u.orders == t.orders + [r.order.value]
                      else u.orders == t.orders))
    ensures InsertOk(r, first, second) <==>
              r.Projection? && (r.delivery.Some? ==> first == Acked) && (r.order.Some? ==> second == Acked)
  {
  }

  class Store {
    var deliveries: seq<DeliveryFact>
    var orders: seq<OrderFact>

    ghost function View(): Tables
      reads this
    {
      Tables(deliveries, orders)
    }

    method Insert(r: Projected, first: Ack, second: Ack) returns (ok: bool)
      requires r.Projection?
      modifies this
      ensures View() == InsertRows(old(View()), r, first, second)
      ensures ok == InsertOk(r, first, second)
    {
      if r.delivery.Some? {
        if first != Rejected {
          deliveries := deliveries + [r.delivery.value];
        }
        if first != Acked {
          return false;
        }
      }
      if r.order.Some? {
        if second != Rejected {
          orders := orders + [r.order.value];
        }
        if second != Acked {
          return false;
        }
      }
      return true;
    }
  }

  // ------------------------------------------------------------------ FINAL

  /** `FINAL`: of the rows with one event id, the last one inserted. */
  function FinalOrders(rows: seq<OrderFact>): map<Id, OrderFact> {
    if rows == [] then map[]
    else FinalOrders(rows[..|rows| - 1])[rows[|rows| - 1].eventId := rows[|rows| - 1]]
  }

  function FinalDeliveries(rows: seq<DeliveryFact>): map<Id, DeliveryFact> {
    if rows == [] then map[]
    else FinalDeliveries(rows[..|rows| - 1])[rows[|rows| - 1].eventId := rows[|rows| - 1]]
  }

  /** `Cancellations`: the distinct orders of rows whose status is cancelled. */
  function CancelledOrders(view: map<Id, OrderFact>): set<Id> {
    set e | e in view && view[e].status == "cancelled" :: view[e].order
  }
}
