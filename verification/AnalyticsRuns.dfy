/** Redelivery, half-finished inserts and reordering do not show in the analytics. */
module AnalyticsRuns {
  import opened Prelude
  import opened Analytics

  /** One handler call for one event; `result` is what `Project` returned at its time. */
  datatype Attempt = Attempt(envelope: Envelope, now: int, result: Projected, first: Ack, second: Ack)

  ghost predicate Sound(stream: seq<Attempt>) {
    forall i :: 0 <= i < |stream| ==> Means(stream[i].envelope, stream[i].now, stream[i].result)
  }

  ghost function Run(stream: seq<Attempt>): Tables {
    if stream == [] then Tables([], [])
    else
      var a := stream[|stream| - 1];
      InsertRows(Run(stream[..|stream| - 1]), a.result, a.first, a.second)
  }

  /** An event id stands for one envelope, and its time is set. */
  ghost predicate Consistent(events: set<Envelope>) {
    && (forall e :: e in events ==> e.occurredAt.Some?)
    && (forall e, f :: e in events && f in events && e.eventId == f.eventId ==> e == f)
  }

  ghost function Events(stream: seq<Attempt>): set<Envelope> {
    set i | 0 <= i < |stream| :: stream[i].envelope
  }

  ghost predicate Succeeds(stream: seq<Attempt>, e: Envelope) {
    exists i :: 0 <= i < |stream| && stream[i].envelope == e && InsertOk(stream[i].result, stream[i].first, stream[i].second)
  }

  ghost predicate Projects(e: Envelope) {
    exists r :: Means(e, 0, r) && r.Projection?
  }

  /** Every event that can be projected was, at least once, with success. */
  ghost predicate Complete(stream: seq<Attempt>) {
    forall e :: e in Events(stream) && Projects(e) ==> Succeeds(stream, e)
  }

  // ------------------------------------------------------------------ The view depends only on the events

  /** The row event `e` is to have in the order table. */
  ghost predicate OrderRowFor(e: Envelope, f: OrderFact) {
    exists r :: Means(e, 0, r) && r.Projection? && r.order == Some(f)
  }

  ghost predicate DeliveryRowFor(e: Envelope, f: DeliveryFact) {
    exists r :: Means(e, 0, r) && r.Projection? && r.delivery == Some(f)
  }

  lemma MeansAtAnyTime(e: Envelope, now: int, r: Projected)
    requires Means(e, now, r) && e.occurredAt.Some?
    ensures Means(e, 0, r)
  {
  }

  lemma {:induction false} OrderRowsComeFromEvents(stream: seq<Attempt>, events: set<Envelope>, k: nat)
    requires Sound(stream) && Events(stream) <= events && Consistent(events) && k < |Run(stream).orders|
    ensures exists e :: e in events && e.eventId == Some(Run(stream).orders[k].eventId) && OrderRowFor(e, Run(stream).orders[k])
  {
    if stream != [] {
      var front, a := stream[..|stream| - 1], stream[|stream| - 1];
      EventsOfFront(stream);
      if k < |Run(front).orders| {
        OrderRowsComeFromEvents(front, events, k);
        assert Run(stream).orders[k] == Run(front).orders[k];
      } else {
        assert a.envelope in Events(stream);
        MeansAtAnyTime(a.envelope, a.now, a.result);
        assert a.result.order == Some(Run(stream).orders[k]);
        assert OrderRowFor(a.envelope, Run(stream).orders[k]);
      }
    }
  }

  lemma {:induction false} DeliveryRowsComeFromEvents(stream: seq<Attempt>, events: set<Envelope>, k: nat)
    requires Sound(stream) && Events(stream) <= events && Consistent(events) && k < |Run(stream).deliveries|
    ensures exists e :: e in events && e.eventId == Some(Run(stream).deliveries[k].eventId) && DeliveryRowFor(e, Run(stream).deliveries[k])
  {
    if stream != [] {
      var front, a := stream[..|stream| - 1], stream[|stream| - 1];
      EventsOfFront(stream);
      if k < |Run(front).deliveries| {
        DeliveryRowsComeFromEvents(front, events, k);
        assert Run(stream).deliveries[k] == Run(front).deliveries[k];
      } else {
        assert a.envelope in Events(stream);
        MeansAtAnyTime(a.envelope, a.now, a.result);
        assert a.result.delivery == Some(Run(stream).deliveries[k]);
        assert DeliveryRowFor(a.envelope, Run(stream).deliveries[k]);
      }
    }
  }

  lemma EventsOfFront(stream: seq<Attempt>)
    requires stream != []
    ensures Events(stream[..|stream| - 1]) <= Events(stream)
  {
    var front := stream[..|stream| - 1];
    forall e | e in Events(front) ensures e in Events(stream) {
      var i :| 0 <= i < |front| && front[i].envelope == e;
      assert stream[i].envelope == e;
    }
  }

  lemma {:induction false} RowsStay(stream: seq<Attempt>, n: nat)
    requires n <= |stream|
    ensures Run(stream[..n]).orders <= Run(stream).orders && Run(stream[..n]).deliveries <= Run(stream).deliveries
    decreases |stream| - n
  {
    if n < |stream| {
      RowsStay(stream, n + 1);
      assert stream[..n + 1][..n] == stream[..n];
    } else {
      assert stream[..n] == stream;
    }
  }

  /** A success leaves the event's rows in the tables. */
  lemma SuccessLeavesRows(stream: seq<Attempt>, i: nat)
    requires i < |stream| && InsertOk(stream[i].result, stream[i].first, stream[i].second)
    ensures stream[i].result.order.Some? ==> stream[i].result.order.value in Run(stream).orders
    ensures stream[i].result.delivery.Some? ==> stream[i].result.delivery.value in Run(stream).deliveries
  {
    RowsStay(stream, i + 1);
    assert stream[..i + 1][..i] == stream[..i];
    var t := Run(stream[..i + 1]);
    if stream[i].result.order.Some? {
      assert t.orders[|t.orders| - 1] == stream[i].result.order.value;
    }
    if stream[i].result.delivery.Some? {
      assert t.deliveries[|t.deliveries| - 1] == stream[i].result.delivery.value;
    }
  }

  /** `FINAL` shows an event's row iff there is one, and then the one inserted last. */
  lemma {:induction false} FinalShowsTheLastRow(rows: seq<OrderFact>, id: Id)
    ensures id in FinalOrders(rows) <==> exists i :: 0 <= i < |rows| && rows[i].eventId == id
    ensures forall i :: 0 <= i < |rows| && rows[i].eventId == id && (forall j :: i < j < |rows| ==> rows[j].eventId != id) ==>
                          FinalOrders(rows)[id] == rows[i]
  {
    if rows != [] {
      var front, last := rows[..|rows| - 1], rows[|rows| - 1];
      FinalShowsTheLastRow(front, id);
      if last.eventId != id {
        forall i | 0 <= i < |rows| && rows[i].eventId == id ensures i < |front| && front[i] == rows[i] {
        }
        forall i | 0 <= i < |front| && front[i].eventId == id ensures rows[i].eventId == id {
        }
      } else {
        assert rows[|front|].eventId == id;
      }
    }
  }

  lemma {:induction false} FinalOrderIsARow(rows: seq<OrderFact>)
    ensures forall e :: e in FinalOrders(rows) ==> FinalOrders(rows)[e] in rows && FinalOrders(rows)[e].eventId == e
    ensures forall f :: f in rows ==> f.eventId in FinalOrders(rows)
  {
    if rows != [] {
      FinalOrderIsARow(rows[..|rows| - 1]);
      assert rows == rows[..|rows| - 1] + [rows[|rows| - 1]];
    }
  }

  lemma {:induction false} FinalDeliveryIsARow(rows: seq<DeliveryFact>)
    ensures forall e :: e in FinalDeliveries(rows) ==> FinalDeliveries(rows)[e] in rows && FinalDeliveries(rows)[e].eventId == e
    ensures forall f :: f in rows ==> f.eventId in FinalDeliveries(rows)
  {
    if rows != [] {
      FinalDeliveryIsARow(rows[..|rows| - 1]);
      assert rows == rows[..|rows| - 1] + [rows[|rows| - 1]];
    }
  }

  lemma OrderRowIsUnique(e: Envelope, f: OrderFact, g: OrderFact)
    requires OrderRowFor(e, f) && OrderRowFor(e, g)
    ensures f == g
  {
    var r :| Means(e, 0, r) && r.Projection? && r.order == Some(f);
    var q :| Means(e, 0, q) && q.Projection? && q.order == Some(g);
    MeaningIsUnique(e, 0, 0, r, q);
  }

  lemma DeliveryRowIsUnique(e: Envelope, f: DeliveryFact, g: DeliveryFact)
    requires DeliveryRowFor(e, f) && DeliveryRowFor(e, g)
    ensures f == g
  {
    var r :| Means(e, 0, r) && r.Projection? && r.delivery == Some(f);
    var q :| Means(e, 0, q) && q.Projection? && q.delivery == Some(g);
    MeaningIsUnique(e, 0, 0, r, q);
  }

  /** The event that the row of the order view under `id` projects. */
  lemma OrderViewRow(stream: seq<Attempt>, id: Id) returns (e: Envelope)
    requires Sound(stream) && Consistent(Events(stream)) && id in FinalOrders(Run(stream).orders)
    ensures e in Events(stream) && e.eventId == Some(id) && OrderRowFor(e, FinalOrders(Run(stream).orders)[id])
  {
    var rows := Run(stream).orders;
    FinalOrderIsARow(rows);
    var k :| 0 <= k < |rows| && rows[k] == FinalOrders(rows)[id];
    OrderRowsComeFromEvents(stream, Events(stream), k);
    e :| e in Events(stream) && e.eventId == Some(rows[k].eventId) && OrderRowFor(e, rows[k]);
  }

  lemma DeliveryViewRow(stream: seq<Attempt>, id: Id) returns (e: Envelope)
    requires Sound(stream) && Consistent(Events(stream)) && id in FinalDeliveries(Run(stream).deliveries)
    ensures e in Events(stream) && e.eventId == Some(id) && DeliveryRowFor(e, FinalDeliveries(Run(stream).deliveries)[id])
  {
    var rows := Run(stream).deliveries;
    FinalDeliveryIsARow(rows);
    var k :| 0 <= k < |rows| && rows[k] == FinalDeliveries(rows)[id];
    DeliveryRowsComeFromEvents(stream, Events(stream), k);
    e :| e in Events(stream) && e.eventId == Some(rows[k].eventId) && DeliveryRowFor(e, rows[k]);
  }

  /** Each event of a complete stream that has an order row has exactly this row in the view. */
  lemma OrderViewHas(stream: seq<Attempt>, e: Envelope, f: OrderFact)
    requires Sound(stream) && Consistent(Events(stream)) && Complete(stream) && e in Events(stream) && OrderRowFor(e, f)
    ensures f.eventId in FinalOrders(Run(stream).orders) && FinalOrders(Run(stream).orders)[f.eventId] == f
  {
    var r :| Means(e, 0, r) && r.Projection? && r.order == Some(f);
    assert Projects(e);
    var i :| 0 <= i < |stream| && stream[i].envelope == e && InsertOk(stream[i].result, stream[i].first, stream[i].second);
    MeaningIsUnique(e, 0, stream[i].now, r, stream[i].result);
    SuccessLeavesRows(stream, i);
    FinalOrderIsARow(Run(stream).orders);
    var d := OrderViewRow(stream, f.eventId);
    assert d == e;
    OrderRowIsUnique(e, f, FinalOrders(Run(stream).orders)[f.eventId]);
  }

  lemma DeliveryViewHas(stream: seq<Attempt>, e: Envelope, f: DeliveryFact)
    requires Sound(stream) && Consistent(Events(stream)) && Complete(stream) && e in Events(stream) && DeliveryRowFor(e, f)
    ensures f.eventId in FinalDeliveries(Run(stream).deliveries) && FinalDeliveries(Run(stream).deliveries)[f.eventId] == f
  {
    var r :| Means(e, 0, r) && r.Projection? && r.delivery == Some(f);
    assert Projects(e);
    var i :| 0 <= i < |stream| && stream[i].envelope == e && InsertOk(stream[i].result, stream[i].first, stream[i].second);
    MeaningIsUnique(e, 0, stream[i].now, r, stream[i].result);
    SuccessLeavesRows(stream, i);
    FinalDeliveryIsARow(Run(stream).deliveries);
    var d := DeliveryViewRow(stream, f.eventId);
    assert d == e;
    DeliveryRowIsUnique(e, f, FinalDeliveries(Run(stream).deliveries)[f.eventId]);
  }

  lemma OrderViewIncluded(stream: seq<Attempt>, other: seq<Attempt>)
    requires Sound(stream) && Sound(other) && Complete(other)
    requires Events(stream) == Events(other) && Consistent(Events(stream))
    ensures var v, w := FinalOrders(Run(stream).orders), FinalOrders(Run(other).orders);
            forall id :: id in v ==> id in w && w[id] == v[id]
  {
    var v := FinalOrders(Run(stream).orders);
    FinalOrderIsARow(Run(stream).orders);
    forall id | id in v ensures id in FinalOrders(Run(other).orders) && FinalOrders(Run(other).orders)[id] == v[id] {
      var e := OrderViewRow(stream, id);
      OrderViewHas(other, e, v[id]);
    }
  }

  lemma DeliveryViewIncluded(stream: seq<Attempt>, other: seq<Attempt>)
    requires Sound(stream) && Sound(other) && Complete(other)
    requires Events(stream) == Events(other) && Consistent(Events(stream))
    ensures var v, w := FinalDeliveries(Run(stream).deliveries), FinalDeliveries(Run(other).deliveries);
            forall id :: id in v ==> id in w && w[id] == v[id]
  {
    var v := FinalDeliveries(Run(stream).deliveries);
    FinalDeliveryIsARow(Run(stream).deliveries);
    forall id | id in v ensures id in FinalDeliveries(Run(other).deliveries) && FinalDeliveries(Run(other).deliveries)[id] == v[id] {
      var e := DeliveryViewRow(stream, id);
      DeliveryViewHas(other, e, v[id]);
    }
  }

  /** Any two streams over the same events, each with a success for every event that can be projected, give the same
      FINAL view of both tables, whatever duplicates, half-finished inserts and orders they contain. */
  lemma {:induction false} ViewDependsOnlyOnTheEvents(stream: seq<Attempt>, other: seq<Attempt>)
    requires Sound(stream) && Sound(other) && Complete(stream) && Complete(other)
    requires Events(stream) == Events(other) && Consistent(Events(stream))
    ensures FinalOrders(Run(stream).orders) == FinalOrders(Run(other).orders)
    ensures FinalDeliveries(Run(stream).deliveries) == FinalDeliveries(Run(other).deliveries)
  {
    OrderViewIncluded(stream, other);
    OrderViewIncluded(other, stream);
    DeliveryViewIncluded(stream, other);
    DeliveryViewIncluded(other, stream);
  }

  /** The set time is needed, exactly: retried at another time, an order event shows the same row if and only if its
      envelope says when it occurred. */
  lemma TheTimeMustBeSet(e: Envelope, now: int, later: int, r: Projected, q: Projected)
    requires Means(e, now, r) && Means(e, later, q) && now != later && r.Projection? && r.order.Some?
    ensures FinalOrders(Run([Attempt(e, now, r, Acked, Acked)]).orders) == FinalOrders(Run([Attempt(e, later, q, Acked, Acked)]).orders)
            <==> e.occurredAt.Some?
  {
    OneRow(e, now, r);
    OneRow(e, later, q);
    if e.occurredAt.Some? {
      MeaningIsUnique(e, now, later, r, q);
    }
  }

  lemma OneInsert(e: Envelope, now: int, r: Projected)
    requires r.Projection? && r.order.Some?
    ensures Run([Attempt(e, now, r, Acked, Acked)]).orders == [r.order.value]
  {
    assert [Attempt(e, now, r, Acked, Acked)][..0] == [];
    assert [] + [r.order.value] == [r.order.value];
  }

  lemma OneFinal(f: OrderFact)
    ensures FinalOrders([f]).Keys == {f.eventId} && FinalOrders([f])[f.eventId] == f
  {
    assert [f][..0] == [];
  }

  lemma OneRow(e: Envelope, now: int, r: Projected)
    requires r.Projection? && r.order.Some?
    ensures var view := FinalOrders(Run([Attempt(e, now, r, Acked, Acked)]).orders);
            view.Keys == {r.order.value.eventId} && view[r.order.value.eventId] == r.order.value
  {
    OneInsert(e, now, r);
    OneFinal(r.order.value);
  }
}
