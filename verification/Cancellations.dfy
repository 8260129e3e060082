/** Over everything the services publish, the analytics count of cancellations is the number of cancelled orders. */
module Cancellations {
  import opened Prelude
  import opened Analytics
  import opened AnalyticsRuns
  import C = Catalog
  import D = Delivery
  import O = Orders
  import R = OrderRuns
  import T = DeliveryRuns

  // ------------------------------------------------------------------ Order events on the wire

  function StatusName(status: O.Status): string {
    match status
    case Created => "created"
    case Confirmed => "confirmed"
    case Assembling => "assembling"
    case Delivering => "delivering"
    case Delivered => "delivered"
    case Cancelled => "cancelled"
  }

  function TypeName(kind: O.Kind): string {
    match kind
    case OrderCreated(_) => "order.created"
    case OrderConfirmed => "order.confirmed"
    case OrderCancelled(_) => "order.cancelled"
    case StatusChanged(_, _) => "order.status_changed"
  }

  /** When an event occurred, and how a currency is written. */
  datatype Wire = Wire(clock: Id -> int, currency: Option<C.Currency> -> string)

  function Blank(order: Id): Payload {
    Payload(Some(order), None, None, "", "", "", "", 0, None, None, None, None, [])
  }

  /** The payload's amounts are unsigned; a negative one would not decode. */
  predicate Unsigned(order: O.Order) {
    order.total >= 0 && forall i :: 0 <= i < |order.items| ==> order.items[i].quantity >= 0
  }

  function CreatedPayload(order: O.Order, wire: Wire): Option<Payload> {
    if !Unsigned(order) then None
    else
      Some(Blank(order.id).(
             total := order.total, currency := wire.currency(order.currency),
             items := seq(|order.items|, i requires 0 <= i < |order.items| && order.items[i].quantity >= 0 =>
                            Item(Some(order.items[i].product), order.items[i].name, order.items[i].quantity))))
  }

  function PayloadOf(e: O.Event, wire: Wire): Option<Payload> {
    match e.kind
    case OrderCreated(order) => CreatedPayload(order, wire)
    case OrderConfirmed => Some(Blank(e.order))
    case OrderCancelled(previous) => Some(Blank(e.order).(previousStatus := StatusName(previous)))
    case StatusChanged(previous, next) =>
      Some(Blank(e.order).(previousStatus := StatusName(previous), newStatus := StatusName(next)))
  }

  function EnvelopeOf(e: O.Event, wire: Wire): Envelope {
    Envelope(Some(e.id), TypeName(e.kind), Some(wire.clock(e.id)), Some(e.order), "", "", PayloadOf(e, wire))
  }

  ghost function OnTheWire(outbox: seq<O.Event>, wire: Wire): set<Envelope> {
    set k | 0 <= k < |outbox| :: EnvelopeOf(outbox[k], wire)
  }

  // ------------------------------------------------------------------ The other events on the wire

  function TripStatusName(status: D.Status): string {
    match status
    case Assigned => "assigned"
    case Assembling => "assembling"
    case Delivering => "delivering"
    case Completed => "completed"
    case Cancelled => "cancelled"
  }

  function TripTypeName(kind: D.Kind): string {
    match kind
    case TripAssigned => "delivery.assigned"
    case StatusChanged(_) => "delivery.status_changed"
    case TripCompleted(_, _, _) => "delivery.completed"
    case TripCancelled => "delivery.cancelled"
    case DelayInjected => "delivery.delay_injected"
  }

  /** When a delivery event occurred, and the delivery and courier it names. */
  datatype TripWire = TripWire(clock: Id -> int, delivery: Id -> Option<Id>, courier: Id -> Option<Id>)

  function TripBlank(e: D.Event, wire: TripWire): Payload {
    Blank(e.order).(delivery := wire.delivery(e.id), courier := if e.kind.DelayInjected? then None else wire.courier(e.id))
  }

  /** The seconds are unsigned in the payload: negative ones do not decode. The operator's event carries no status. */
  function CompletedPayload(e: D.Event, wire: TripWire): Option<Payload>
    requires e.kind.TripCompleted?
  {
    var k := e.kind;
    if k.actualSeconds < 0 || (k.predictedSeconds.Some? && k.predictedSeconds.value < 0) then None
    else
      Some(TripBlank(e, wire).(
             status := if k.byOperator then "" else TripStatusName(D.Completed), actual := Some(k.actualSeconds),
             predicted := if k.predictedSeconds.Some? then Some(k.predictedSeconds.value) else None))
  }

  function TripPayloadOf(e: D.Event, wire: TripWire): Option<Payload> {
    match e.kind
    case StatusChanged(status) =>
      Some(TripBlank(e, wire).(status := if status.Some? then TripStatusName(status.value) else ""))
    case TripCompleted(_, _, _) => CompletedPayload(e, wire)
    case _ => Some(TripBlank(e, wire))
  }

  function TripEnvelopeOf(e: D.Event, wire: TripWire): Envelope {
    Envelope(Some(e.id), TripTypeName(e.kind), Some(wire.clock(e.id)), Some(e.order), "", "", TripPayloadOf(e, wire))
  }

  ghost function TripsOnTheWire(outbox: seq<D.Event>, wire: TripWire): set<Envelope> {
    set k | 0 <= k < |outbox| :: TripEnvelopeOf(outbox[k], wire)
  }

  /** The events of the simulator and of the catalog: an id, a time, and no status that the order table would show. */
  predicate IsForeign(e: Envelope) {
    && e.eventId.Some? && e.occurredAt.Some?
    && match e.eventType
       case "courier.location_updated" => e.payload.Some? ==> e.payload.value.status == "" && e.payload.value.newStatus == ""
       case "inventory.reserved" => true
       case "inventory.reservation_failed" => true
       case _ => false
  }

  // ------------------------------------------------------------------ Distinct event ids

  ghost predicate DistinctIds(outbox: seq<O.Event>) {
    forall i, j :: 0 <= i < j < |outbox| ==> outbox[i].id != outbox[j].id
  }

  lemma ActKeepsIds(t: O.Tables, a: R.Act)
    requires DistinctIds(t.outbox)
    ensures DistinctIds(R.Apply(t, a).outbox)
  {
  }

  lemma {:induction false} RunKeepsIds(acts: seq<R.Act>)
    ensures DistinctIds(R.Run(R.EMPTY, acts).outbox)
  {
    if acts != [] {
      RunKeepsIds(acts[..|acts| - 1]);
      ActKeepsIds(R.Run(R.EMPTY, acts[..|acts| - 1]), acts[|acts| - 1]);
    }
  }

  lemma WireIsConsistent(outbox: seq<O.Event>, wire: Wire)
    requires DistinctIds(outbox)
    ensures Consistent(OnTheWire(outbox, wire))
  {
    var events := OnTheWire(outbox, wire);
    forall e, f | e in events && f in events && e.eventId == f.eventId ensures e == f {
      var i :| 0 <= i < |outbox| && EnvelopeOf(outbox[i], wire) == e;
      var j :| 0 <= j < |outbox| && EnvelopeOf(outbox[j], wire) == f;
      assert i == j;
    }
  }

  lemma TripWireIsConsistent(outbox: seq<D.Event>, wire: TripWire)
    requires T.DistinctIds(outbox)
    ensures Consistent(TripsOnTheWire(outbox, wire))
  {
    var events := TripsOnTheWire(outbox, wire);
    forall e, f | e in events && f in events && e.eventId == f.eventId ensures e == f {
      var i :| 0 <= i < |outbox| && TripEnvelopeOf(outbox[i], wire) == e;
      var j :| 0 <= j < |outbox| && TripEnvelopeOf(outbox[j], wire) == f;
      assert i == j;
    }
  }

  /** No event id is drawn twice, across two sets of events or within one. */
  ghost predicate IdsApart(a: set<Envelope>, b: set<Envelope>) {
    forall e, f :: e in a && f in b && e.eventId == f.eventId ==> e == f
  }

  // ------------------------------------------------------------------ Events that never say cancelled

  /** No order row of the event has the status cancelled. */
  ghost predicate Silent(e: Envelope) {
    forall f :: OrderRowFor(e, f) ==> f.status != "cancelled"
  }

  lemma QuietPayloadIsSilent(e: Envelope)
    requires e.payload.Some? ==> e.payload.value.newStatus == "" && e.payload.value.status != "cancelled"
    ensures Silent(e)
  {
    assert "created"[0] == 'c' && |"created"| == 7 && |"cancelled"| == 9;
    assert "confirmed"[1] == 'o' && "cancelled"[1] == 'a';
  }

  lemma TripNamesDiffer(status: D.Status)
    requires status != D.Cancelled
    ensures TripStatusName(status) != "cancelled"
  {
    assert "completed"[1] == 'o' && "cancelled"[1] == 'a';
  }

  ghost predicate NeverCancels(outbox: seq<D.Event>) {
    forall k :: 0 <= k < |outbox| ==> outbox[k].kind != D.StatusChanged(Some(D.Cancelled))
  }

  lemma ActNeverCancels(t: D.Tables, a: T.Act)
    requires NeverCancels(t.outbox)
    ensures NeverCancels(T.Apply(t, a).0.outbox)
  {
  }

  /** The delivery service cancels trips, but its status events never say so. */
  lemma {:induction false} TripsNeverSayCancelled(t: D.Tables, moves: seq<T.Act>)
    requires T.Opening(t)
    ensures NeverCancels(T.Run(t, moves).outbox)
  {
    if moves != [] {
      TripsNeverSayCancelled(t, moves[..|moves| - 1]);
      ActNeverCancels(T.Run(t, moves[..|moves| - 1]), moves[|moves| - 1]);
    }
  }

  lemma TripEventIsSilent(e: D.Event, wire: TripWire)
    requires e.kind != D.StatusChanged(Some(D.Cancelled))
    ensures Silent(TripEnvelopeOf(e, wire))
  {
    if e.kind.StatusChanged? && e.kind.status.Some? {
      TripNamesDiffer(e.kind.status.value);
    }
    TripNamesDiffer(D.Completed);
    QuietPayloadIsSilent(TripEnvelopeOf(e, wire));
  }

  lemma ForeignIsSilent(e: Envelope)
    requires IsForeign(e)
    ensures Silent(e)
  {
    if e.eventType == "courier.location_updated" {
      QuietPayloadIsSilent(e);
    } else {
      assert e.eventType[0] == 'i' && "order.created"[0] == 'o' && "order.confirmed"[0] == 'o' && "order.status_changed"[0] == 'o';
      assert "delivery.assigned"[0] == 'd' && "delivery.status_changed"[0] == 'd' && "delivery.completed"[0] == 'd';
      assert "courier.location_updated"[0] == 'c';
    }
  }

  lemma OthersAreSilent(t: D.Tables, moves: seq<T.Act>, wire: TripWire, foreign: set<Envelope>)
    requires T.Opening(t) && forall e :: e in foreign ==> IsForeign(e)
    ensures forall e :: e in TripsOnTheWire(T.Run(t, moves).outbox, wire) + foreign ==> Silent(e)
  {
    var outbox := T.Run(t, moves).outbox;
    TripsNeverSayCancelled(t, moves);
    forall e | e in TripsOnTheWire(outbox, wire) + foreign ensures Silent(e) {
      if e in foreign {
        ForeignIsSilent(e);
      } else {
        var k :| 0 <= k < |outbox| && TripEnvelopeOf(outbox[k], wire) == e;
        TripEventIsSilent(outbox[k], wire);
      }
    }
  }

  // ------------------------------------------------------------------ The event that says cancelled

  ghost predicate SaysCancelled(e: O.Event, o: Id) {
    e.order == o && e.kind.StatusChanged? && e.kind.next == O.Cancelled
  }

  ghost predicate Said(outbox: seq<O.Event>, o: Id) {
    exists k :: 0 <= k < |outbox| && SaysCancelled(outbox[k], o)
  }

  lemma {:induction false} KindsMembers(outbox: seq<O.Event>, o: Id)
    ensures forall k :: k in R.KindsOf(outbox, o) <==> exists i :: 0 <= i < |outbox| && outbox[i].order == o && outbox[i].kind == k
  {
    if outbox != [] {
      var front, last := outbox[..|outbox| - 1], outbox[|outbox| - 1];
      KindsMembers(front, o);
      forall k ensures k in R.KindsOf(outbox, o) <==> exists i :: 0 <= i < |outbox| && outbox[i].order == o && outbox[i].kind == k {
        if i :| 0 <= i < |outbox| && outbox[i].order == o && outbox[i].kind == k {
          if i < |front| {
            assert front[i].order == o && front[i].kind == k;
          }
        }
        if k in R.KindsOf(front, o) {
          var i :| 0 <= i < |front| && front[i].order == o && front[i].kind == k;
          assert outbox[i].order == o && outbox[i].kind == k;
        }
        if last.order == o && last.kind == k {
          assert outbox[|front|].kind == k;
        }
      }
    }
  }

  lemma {:induction false} OnlyTheLastRowCancels(rows: seq<O.HistoryRow>, status: O.Status, previous: O.Status)
    requires R.Path(rows, status)
    ensures O.StatusChanged(previous, O.Cancelled) in R.Echo(rows) ==> status == O.Cancelled
  {
    if rows != [] {
      var front, last := rows[..|rows| - 1], rows[|rows| - 1];
      OnlyTheLastRowCancels(front, last.previous, previous);
    }
  }

  lemma SaidIsAKind(outbox: seq<O.Event>, o: Id)
    ensures Said(outbox, o) <==> exists k :: k in R.KindsOf(outbox, o) && k.StatusChanged? && k.next == O.Cancelled
  {
    KindsMembers(outbox, o);
    if i :| 0 <= i < |outbox| && SaysCancelled(outbox[i], o) {
      assert outbox[i].kind in R.KindsOf(outbox, o);
    }
    if k :| k in R.KindsOf(outbox, o) && k.StatusChanged? && k.next == O.Cancelled {
      var i :| 0 <= i < |outbox| && outbox[i].order == o && outbox[i].kind == k;
      assert SaysCancelled(outbox[i], o);
    }
  }

  lemma CancelledIsSaid(t: O.Tables, o: Id)
    requires R.FaithfulOrder(t, o)
    ensures Said(t.outbox, o) <==> o in t.orders && t.orders[o].status == O.Cancelled
  {
    SaidIsAKind(t.outbox, o);
    if o in t.orders {
      var rows, kinds := R.HistoryOf(t.history, o), R.KindsOf(t.outbox, o);
      if k :| k in kinds && k.StatusChanged? && k.next == O.Cancelled {
        assert k in R.Echo(rows);
        OnlyTheLastRowCancels(rows, t.orders[o].status, k.previous);
      }
      if t.orders[o].status == O.Cancelled {
        var kind := O.StatusChanged(rows[|rows| - 1].previous, O.Cancelled);
        assert R.EchoRow(rows[|rows| - 1])[1] == kind;
        assert kind in kinds;
      }
    }
  }

  // ------------------------------------------------------------------ The row that says cancelled

  lemma RowSaysCancelled(e: O.Event, wire: Wire, f: OrderFact)
    requires OrderRowFor(EnvelopeOf(e, wire), f)
    ensures f.status == "cancelled" <==> e.kind.StatusChanged? && e.kind.next == O.Cancelled
    ensures f.status == "cancelled" ==> f.order == e.order
  {
    match e.kind
    case OrderCreated(order) =>
    case OrderConfirmed =>
    case OrderCancelled(previous) =>
    case StatusChanged(previous, next) => NamesDiffer(next);
  }

  lemma NamesDiffer(status: O.Status)
    ensures StatusName(status) == "cancelled" <==> status == O.Cancelled
    ensures StatusName(status) != ""
  {
    assert StatusName(status)[2] == 'n' <==> status == O.Confirmed || status == O.Cancelled;
    assert StatusName(O.Confirmed)[1] == 'o' && "cancelled"[1] == 'a';
  }

  lemma ChangeHasARow(e: O.Event, wire: Wire) returns (f: OrderFact)
    requires e.kind.StatusChanged?
    ensures OrderRowFor(EnvelopeOf(e, wire), f)
  {
    var p := PayloadOf(e, wire).value;
    NamesDiffer(e.kind.next);
    f := OrderFact(e.id, e.order, "order.status_changed", p.newStatus, p.previousStatus, 0, "", [], [], [], None, None,
                   wire.clock(e.id), "", "");
    assert IsOrderFact(EnvelopeOf(e, wire), p, wire.clock(e.id), f);
    assert Means(EnvelopeOf(e, wire), 0, Projection(None, Some(f)));
  }

  ghost function CancelledIn(t: O.Tables): set<Id> {
    set o | o in t.orders && t.orders[o].status == O.Cancelled
  }

  /** The stream is over the orders outbox and other events, none of which says cancelled. */
  ghost predicate Merges(stream: seq<Attempt>, t: O.Tables, wire: Wire, others: set<Envelope>) {
    && R.Faithful(t) && AnalyticsRuns.Sound(stream) && Consistent(Events(stream))
    && Events(stream) == OnTheWire(t.outbox, wire) + others
    && forall e :: e in others ==> Silent(e)
  }

  lemma CountedIsCancelled(t: O.Tables, stream: seq<Attempt>, wire: Wire, others: set<Envelope>, o: Id)
    requires Merges(stream, t, wire, others)
    requires o in CancelledOrders(FinalOrders(Run(stream).orders))
    ensures o in CancelledIn(t)
  {
    var view := FinalOrders(Run(stream).orders);
    var id :| id in view && view[id].status == "cancelled" && view[id].order == o;
    var e := OrderViewRow(stream, id);
    assert e !in others;
    var k :| 0 <= k < |t.outbox| && EnvelopeOf(t.outbox[k], wire) == e;
    RowSaysCancelled(t.outbox[k], wire, view[id]);
    assert SaysCancelled(t.outbox[k], o);
    CancelledIsSaid(t, o);
  }

  lemma CancelledIsCounted(t: O.Tables, stream: seq<Attempt>, wire: Wire, others: set<Envelope>, o: Id)
    requires Merges(stream, t, wire, others) && Complete(stream) && o in CancelledIn(t)
    ensures o in CancelledOrders(FinalOrders(Run(stream).orders))
  {
    assert R.FaithfulOrder(t, o);
    CancelledIsSaid(t, o);
    var k :| 0 <= k < |t.outbox| && SaysCancelled(t.outbox[k], o);
    var e := EnvelopeOf(t.outbox[k], wire);
    var f := ChangeHasARow(t.outbox[k], wire);
    assert e in Events(stream);
    RowSaysCancelled(t.outbox[k], wire, f);
    OrderViewHas(stream, e, f);
    var view := FinalOrders(Run(stream).orders);
    assert view[f.eventId].status == "cancelled" && view[f.eventId].order == o;
  }

  lemma CountedIffCancelled(t: O.Tables, stream: seq<Attempt>, wire: Wire, others: set<Envelope>)
    requires Merges(stream, t, wire, others) && Complete(stream)
    ensures CancelledOrders(FinalOrders(Run(stream).orders)) == CancelledIn(t)
  {
    var counted := CancelledOrders(FinalOrders(Run(stream).orders));
    forall o ensures o in counted <==> o in CancelledIn(t) {
      if o in counted {
        CountedIsCancelled(t, stream, wire, others, o);
      }
      if o in CancelledIn(t) {
        CancelledIsCounted(t, stream, wire, others, o);
      }
    }
  }

  /** For every run of both services and every complete stream over the orders events, the delivery events and any
      location and inventory events: the orders the analytics count as cancelled are the cancelled orders. */
  lemma {:induction false} CancellationsAreTheCancelledOrders(acts: seq<R.Act>, trips: D.Tables, moves: seq<T.Act>, foreign: set<Envelope>,
                                                              stream: seq<Attempt>, wire: Wire, tripWire: TripWire)
    requires AnalyticsRuns.Sound(stream) && Complete(stream) && T.Opening(trips)
    requires forall e :: e in foreign ==> IsForeign(e)
    requires var orders, deliveries := OnTheWire(R.Run(R.EMPTY, acts).outbox, wire), TripsOnTheWire(T.Run(trips, moves).outbox, tripWire);
             && Events(stream) == orders + deliveries + foreign
             && IdsApart(orders, deliveries) && IdsApart(orders + deliveries, foreign) && IdsApart(foreign, foreign)
    ensures CancelledOrders(FinalOrders(Run(stream).orders)) == CancelledIn(R.Run(R.EMPTY, acts))
  {
    var t := R.Run(R.EMPTY, acts);
    forall o ensures R.FaithfulOrder(R.EMPTY, o) {
    }
    R.RunIsFaithful(R.EMPTY, acts);
    RunKeepsIds(acts);
    WireIsConsistent(t.outbox, wire);
    T.RunAppends(trips, moves);
    TripWireIsConsistent(T.Run(trips, moves).outbox, tripWire);
    OthersAreSilent(trips, moves, tripWire, foreign);
    CountedIffCancelled(t, stream, wire, TripsOnTheWire(T.Run(trips, moves).outbox, tripWire) + foreign);
  }
}
