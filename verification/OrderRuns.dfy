/**
 What every run of the order service keeps: the status history of an order is a path of allowed edges,
 and the outbox tells exactly that path.
 */
module OrderRuns {
  import opened Prelude
  import opened Orders
  import Catalog
  import Delivery

  datatype Act =
    | Prepare(key: Id, request: Checkout, newAttempt: Id)
    | Persist(key: Id, request: Checkout, reservation: Catalog.Response, newId: Id, now: int, outId: Id, commits: bool)
    | Cancel(order: Id, released: bool, at: int, outId: Id, outId2: Id, commits: bool)
    | Handle(event: Delivery.Event, at: int, outId: Id, outId2: Id, commits: bool)

  ghost function Apply(t: Tables, a: Act): Tables {
    match a
    case Prepare(key, request, newAttempt) => PrepareTx(t, key, request, newAttempt).0
    case Persist(key, request, reservation, newId, now, outId, commits) =>
      PersistTx(t, key, request, reservation, newId, now, outId, commits).0
    case Cancel(order, released, at, outId, outId2, commits) => CancelTx(t, order, released, at, outId, outId2, commits).0
    case Handle(event, at, outId, outId2, commits) => HandleTx(t, event, at, outId, outId2, commits).0
  }

  ghost function Run(t: Tables, acts: seq<Act>): Tables {
    if acts == [] then t else Apply(Run(t, acts[..|acts| - 1]), acts[|acts| - 1])
  }

  const EMPTY := Tables(map[], map[], [], {}, [])

  // ------------------------------------------------------------------ One order's rows and events

  ghost function HistoryOf(history: seq<HistoryRow>, order: Id): seq<HistoryRow> {
    if history == [] then []
    else
      var last := history[|history| - 1];
      HistoryOf(history[..|history| - 1], order) + if last.order == order then [last] else []
  }

  ghost function KindsOf(outbox: seq<Event>, order: Id): seq<Kind> {
    if outbox == [] then []
    else
      var last := outbox[|outbox| - 1];
      KindsOf(outbox[..|outbox| - 1], order) + if last.order == order then [last.kind] else []
  }

  /** The events one history row calls for. */
  function EchoRow(row: HistoryRow): seq<Kind> {
    (if row.next == Confirmed then [OrderConfirmed] else if row.next == Cancelled then [OrderCancelled(row.previous)] else [])
    + [StatusChanged(row.previous, row.next)]
  }

  function Echo(rows: seq<HistoryRow>): seq<Kind> {
    if rows == [] then [] else Echo(rows[..|rows| - 1]) + EchoRow(rows[|rows| - 1])
  }

  predicate Edge(previous: Status, next: Status) {
    ValidTransition(previous, next) || (CanCancel(previous) && next == Cancelled)
  }

  /** The rows chain from `Created` to `status` along allowed edges. */
  ghost predicate Path(rows: seq<HistoryRow>, status: Status) {
    if rows == [] then status == Created
    else
      var last := rows[|rows| - 1];
      last.next == status && Edge(last.previous, last.next) && Path(rows[..|rows| - 1], last.previous)
  }

  ghost predicate FaithfulOrder(t: Tables, o: Id) {
    if o in t.orders then
      && t.orders[o].id == o
      && Path(HistoryOf(t.history, o), t.orders[o].status)
      && KindsOf(t.outbox, o) == [OrderCreated(t.orders[o].(status := Created))] + Echo(HistoryOf(t.history, o))
    else HistoryOf(t.history, o) == [] && KindsOf(t.outbox, o) == []
  }

  ghost predicate Faithful(t: Tables) {
    forall o :: FaithfulOrder(t, o)
  }

  lemma HistoryAppend(history: seq<HistoryRow>, row: HistoryRow, o: Id)
    ensures HistoryOf(history + [row], o) == HistoryOf(history, o) + if row.order == o then [row] else []
  {
    assert (history + [row])[..|history|] == history;
  }

  lemma KindsAppend(outbox: seq<Event>, e: Event, o: Id)
    ensures KindsOf(outbox + [e], o) == KindsOf(outbox, o) + if e.order == o then [e.kind] else []
  {
    assert (outbox + [e])[..|outbox|] == outbox;
  }

  lemma KindsAppendTwo(outbox: seq<Event>, e: Event, f: Event, o: Id)
    requires e.order == f.order
    ensures KindsOf(outbox + [e, f], o) == KindsOf(outbox, o) + if e.order == o then [e.kind, f.kind] else []
  {
    assert outbox + [e, f] == outbox + [e] + [f];
    KindsAppend(outbox, e, o);
    KindsAppend(outbox + [e], f, o);
  }

  lemma EchoAppend(rows: seq<HistoryRow>, row: HistoryRow)
    ensures Echo(rows + [row]) == Echo(rows) + EchoRow(row)
  {
    assert (rows + [row])[..|rows|] == rows;
  }

  lemma PathAppend(rows: seq<HistoryRow>, row: HistoryRow)
    requires Path(rows, row.previous) && Edge(row.previous, row.next)
    ensures Path(rows + [row], row.next)
  {
    assert (rows + [row])[..|rows|] == rows;
  }

  /** A status change of `order` that writes one history row and the events this row calls for. */
  ghost predicate Changes(t: Tables, u: Tables, order: Id, next: Status, at: int) {
    && order in t.orders && Edge(t.orders[order].status, next)
    && u.orders == t.orders[order := t.orders[order].(status := next)]
    && u.history == t.history + [HistoryRow(order, t.orders[order].status, next, at)]
    && forall o :: KindsOf(u.outbox, o) == KindsOf(t.outbox, o)
                                           + if o == order then EchoRow(HistoryRow(order, t.orders[order].status, next, at)) else []
  }

  lemma ChangedOrderIsFaithful(t: Tables, u: Tables, order: Id, next: Status, at: int)
    requires FaithfulOrder(t, order) && Changes(t, u, order, next, at)
    ensures FaithfulOrder(u, order)
  {
    var row := HistoryRow(order, t.orders[order].status, next, at);
    var rows := HistoryOf(t.history, order);
    HistoryAppend(t.history, row, order);
    PathAppend(rows, row);
    EchoAppend(rows, row);
    var first := [OrderCreated(t.orders[order].(status := Created))];
    assert u.orders[order].(status := Created) == t.orders[order].(status := Created);
    calc {
      KindsOf(u.outbox, order);
      KindsOf(t.outbox, order) + EchoRow(row);
      (first + Echo(rows)) + EchoRow(row);
      first + (Echo(rows) + EchoRow(row));
      first + Echo(rows + [row]);
    }
  }

  lemma ChangeIsFaithful(t: Tables, u: Tables, order: Id, next: Status, at: int)
    requires Faithful(t) && Changes(t, u, order, next, at)
    ensures Faithful(u)
  {
    ChangedOrderIsFaithful(t, u, order, next, at);
    forall o | o != order ensures FaithfulOrder(u, o) {
      assert FaithfulOrder(t, o);
      HistoryAppend(t.history, HistoryRow(order, t.orders[order].status, next, at), o);
      assert HistoryOf(u.history, o) == HistoryOf(t.history, o);
      assert KindsOf(u.outbox, o) == KindsOf(t.outbox, o);
    }
  }

  lemma CancelIsFaithful(t: Tables, order: Id, at: int, outId: Id, outId2: Id)
    requires Faithful(t) && order in t.orders && CanCancel(t.orders[order].status)
    ensures Faithful(AfterCancel(t, order, at, outId, outId2))
  {
    var u := AfterCancel(t, order, at, outId, outId2);
    var previous := t.orders[order].status;
    forall o ensures KindsOf(u.outbox, o) == KindsOf(t.outbox, o)
                                             + if o == order then EchoRow(HistoryRow(order, previous, Cancelled, at)) else []
    {
      KindsAppendTwo(t.outbox, Event(outId, order, OrderCancelled(previous)), Event(outId2, order, StatusChanged(previous, Cancelled)), o);
    }
    ChangeIsFaithful(t, u, order, Cancelled, at);
  }

  lemma HandleEchoes(t: Tables, e: Delivery.Event, target: Status, at: int, outId: Id, outId2: Id, o: Id)
    requires e.order in t.orders && ValidTransition(t.orders[e.order].status, target) && TargetOf(e.kind) == To(target)
    ensures KindsOf(AfterHandle(t, e, target, at, outId, outId2).outbox, o)
            == KindsOf(t.outbox, o) + if o == e.order then EchoRow(HistoryRow(e.order, t.orders[e.order].status, target, at)) else []
  {
    var changed := Event(outId2, e.order, StatusChanged(t.orders[e.order].status, target));
    if e.kind.TripAssigned? {
      KindsAppendTwo(t.outbox, Event(outId, e.order, OrderConfirmed), changed, o);
    } else {
      KindsAppend(t.outbox, changed, o);
    }
  }

  lemma HandleIsFaithful(t: Tables, e: Delivery.Event, target: Status, at: int, outId: Id, outId2: Id)
    requires Faithful(t) && e.order in t.orders && ValidTransition(t.orders[e.order].status, target)
    requires TargetOf(e.kind) == To(target)
    ensures Faithful(AfterHandle(t, e, target, at, outId, outId2))
  {
    var u := AfterHandle(t, e, target, at, outId, outId2);
    forall o ensures KindsOf(u.outbox, o) == KindsOf(t.outbox, o)
                                             + if o == e.order then EchoRow(HistoryRow(e.order, t.orders[e.order].status, target, at)) else []
    {
      HandleEchoes(t, e, target, at, outId, outId2, o);
    }
    ChangeIsFaithful(t, u, e.order, target, at);
  }

  lemma PersistedOrderIsFaithful(t: Tables, key: Id, order: Order, outId: Id, o: Id)
    requires FaithfulOrder(t, o) && order.id !in t.orders && order.status == Created
    ensures FaithfulOrder(AfterPersist(t, key, order, outId), o)
  {
    KindsAppend(t.outbox, Event(outId, order.id, OrderCreated(order)), o);
    if o == order.id {
      assert AfterPersist(t, key, order, outId).orders[o] == order;
      assert Echo([]) == [];
    }
  }

  lemma PersistIsFaithful(t: Tables, key: Id, order: Order, outId: Id)
    requires Faithful(t) && order.id !in t.orders && order.status == Created
    ensures Faithful(AfterPersist(t, key, order, outId))
  {
    forall o ensures FaithfulOrder(AfterPersist(t, key, order, outId), o) {
      PersistedOrderIsFaithful(t, key, order, outId, o);
    }
  }

  lemma ActIsFaithful(t: Tables, a: Act)
    requires Faithful(t)
    ensures Faithful(Apply(t, a))
  {
    var u := Apply(t, a);
    if u.orders != t.orders || u.history != t.history || u.outbox != t.outbox {
      match a
      case Prepare(_, _, _) =>
      case Persist(key, request, reservation, newId, now, outId, _) =>
        PersistIsFaithful(t, key, NewOrder(newId, request, reservation, now), outId);
      case Cancel(order, _, at, outId, outId2, _) => CancelIsFaithful(t, order, at, outId, outId2);
      case Handle(e, at, outId, outId2, _) => HandleIsFaithful(t, e, TargetOf(e.kind).status, at, outId, outId2);
    } else {
      forall o ensures FaithfulOrder(u, o) {
        assert FaithfulOrder(t, o);
      }
    }
  }

  lemma {:induction false} RunIsFaithful(t: Tables, acts: seq<Act>)
    requires Faithful(t)
    ensures Faithful(Run(t, acts))
  {
    if acts != [] {
      RunIsFaithful(t, acts[..|acts| - 1]);
      ActIsFaithful(Run(t, acts[..|acts| - 1]), acts[|acts| - 1]);
    }
  }

  // ------------------------------------------------------------------ What a path looks like

  function Rank(status: Status): nat {
    match status
    case Created => 0
    case Confirmed => 1
    case Assembling => 2
    case Delivering => 3
    case Delivered => 4
    case Cancelled => 4
  }

  lemma {:induction false} PathRises(rows: seq<HistoryRow>, status: Status)
    requires Path(rows, status)
    ensures |rows| <= Rank(status)
    ensures forall i :: 0 <= i < |rows| ==> Rank(rows[i].previous) < Rank(rows[i].next) && Edge(rows[i].previous, rows[i].next)
    ensures forall i :: 0 < i < |rows| ==> rows[i].previous == rows[i - 1].next
    ensures rows != [] ==> rows[0].previous == Created && rows[|rows| - 1].next == status
  {
    if rows != [] {
      PathRises(rows[..|rows| - 1], rows[|rows| - 1].previous);
    }
  }

  /** In every reachable state: the history of an order chains from created to its status along the listed edges, in
      particular only created and confirmed orders are cancelled, there are at most four rows, and the outbox holds
      order.created followed by exactly the events those rows call for. */
  lemma {:induction false} HistoryIsAFaithfulPath(acts: seq<Act>, o: Id)
    requires o in Run(EMPTY, acts).orders
    ensures var t := Run(EMPTY, acts);
            var rows := HistoryOf(t.history, o);
            && |rows| <= 4
            && (forall i :: 0 <= i < |rows| ==>
                              (rows[i].previous, rows[i].next) in
                                {(Created, Confirmed), (Confirmed, Assembling), (Assembling, Delivering), (Confirmed, Delivered),
                                 (Assembling, Delivered), (Delivering, Delivered), (Created, Cancelled), (Confirmed, Cancelled)})
            && (forall i :: 0 < i < |rows| ==> rows[i].previous == rows[i - 1].next)
            && (if rows == [] then t.orders[o].status == Created else rows[0].previous == Created && rows[|rows| - 1].next == t.orders[o].status)
            && KindsOf(t.outbox, o) == [OrderCreated(t.orders[o].(status := Created))] + Echo(rows)
  {
    forall p ensures FaithfulOrder(EMPTY, p) {
    }
    RunIsFaithful(EMPTY, acts);
    var t := Run(EMPTY, acts);
    assert FaithfulOrder(t, o);
    PathRises(HistoryOf(t.history, o), t.orders[o].status);
  }

  /** An order is never dropped, only its status changes, and delivered and cancelled are never left. */
  ghost predicate OrderStays(t: Tables, u: Tables, o: Id)
    requires o in t.orders
  {
    && o in u.orders && u.orders[o].(status := t.orders[o].status) == t.orders[o]
    && (t.orders[o].status == Delivered || t.orders[o].status == Cancelled ==> u.orders[o].status == t.orders[o].status)
    && Rank(t.orders[o].status) <= Rank(u.orders[o].status)
  }

  lemma ActKeepsOrders(t: Tables, a: Act, o: Id)
    requires o in t.orders
    ensures OrderStays(t, Apply(t, a), o)
  {
  }

  lemma {:induction false} OrdersStay(t: Tables, acts: seq<Act>, o: Id)
    requires o in t.orders
    ensures OrderStays(t, Run(t, acts), o)
  {
    if acts != [] {
      OrdersStay(t, acts[..|acts| - 1], o);
      ActKeepsOrders(Run(t, acts[..|acts| - 1]), acts[|acts| - 1], o);
    }
  }
}
