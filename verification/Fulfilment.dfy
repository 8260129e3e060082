/**
 The order machine follows the delivery machine through a duplicated log.

 A `World` holds both services. Events of one order reach the order service in an order where every first
 occurrence comes after the first occurrences of the earlier ones; anything already passed may come again at any time,
 as a duplicate or as a replayed dead letter. An event whose three handler calls fail is buried: it goes to the DLQ
 and the cursor passes it without an effect.
 */
module Fulfilment {
  import opened Prelude
  import O = Orders
  import C = Catalog
  import D = Delivery
  import OrderRuns
  import DeliveryRuns

  /** `cursor[o]`: how many of the delivery events of order `o` the order service has passed. */
  datatype World = World(book: O.Tables, logistics: D.Tables, cursor: map<Id, nat>)

  datatype Step =
    | OrderSide(booking: OrderRuns.Act)
    | DeliverySide(move: DeliveryRuns.Act)
    | Consume(order: Id, index: nat, at: int, outId: Id, outId2: Id, commits: bool)
    | Bury(order: Id)

  ghost function Cursor(w: World, o: Id): nat {
    if o in w.cursor then w.cursor[o] else 0
  }

  ghost function EventsOf(outbox: seq<D.Event>, o: Id): (es: seq<D.Event>)
    ensures forall e :: e in es ==> e in outbox && e.order == o
    ensures forall e :: e in outbox && e.order == o ==> e in es
  {
    if outbox == [] then []
    else
      var last := outbox[|outbox| - 1];
      assert outbox == outbox[..|outbox| - 1] + [last];
      EventsOf(outbox[..|outbox| - 1], o) + if last.order == o then [last] else []
  }

  /** Logistics acts on order events that exist, and phases come from the schema's enum or are other texts, but not blank. */
  ghost predicate Caused(w: World, a: DeliveryRuns.Act) {
    match a
    case Assign(_, order, _, _, _, _, _) => OrderRuns.KindsOf(w.book.outbox, order) != []
    case Cancel(_, order, _, _) => exists k :: k in OrderRuns.KindsOf(w.book.outbox, order) && k.OrderCancelled?
    case Locate(_, location, _, _) => location.phase != D.Blank
    case _ => true
  }

  ghost function ConsumeResult(w: World, s: Step): (O.Tables, O.Outcome)
    requires s.Consume? && s.index < |EventsOf(w.logistics.outbox, s.order)|
  {
    O.HandleTx(w.book, EventsOf(w.logistics.outbox, s.order)[s.index], s.at, s.outId, s.outId2, s.commits)
  }

  ghost predicate Deliverable(w: World, s: Step) {
    s.Consume? && s.index < |EventsOf(w.logistics.outbox, s.order)| && s.index <= Cursor(w, s.order)
  }

  ghost function Next(w: World, s: Step): World {
    match s
    case OrderSide(act) => if act.Handle? then w else w.(book := OrderRuns.Apply(w.book, act))
    case DeliverySide(act) => if Caused(w, act) then w.(logistics := DeliveryRuns.Apply(w.logistics, act).0) else w
    case Consume(order, index, _, _, _, _) =>
      if !Deliverable(w, s) then w
      else
        var (book, outcome) := ConsumeResult(w, s);
        w.(book := book,
           cursor := if outcome.Faulted? || index < Cursor(w, order) then w.cursor else w.cursor[order := index + 1])
    case Bury(order) =>
      if Cursor(w, order) < |EventsOf(w.logistics.outbox, order)| then w.(cursor := w.cursor[order := Cursor(w, order) + 1]) else w
  }

  ghost function Run(w: World, steps: seq<Step>): World {
    if steps == [] then w else Next(Run(w, steps[..|steps| - 1]), steps[|steps| - 1])
  }

  ghost predicate Start(w: World) {
    w.book == OrderRuns.EMPTY && DeliveryRuns.Opening(w.logistics) && w.cursor == map[]
  }

  // ------------------------------------------------------------------ Events and milestones of one order

  lemma EventsAppend(outbox: seq<D.Event>, e: D.Event, o: Id)
    ensures EventsOf(outbox + [e], o) == EventsOf(outbox, o) + if e.order == o then [e] else []
  {
    assert (outbox + [e])[..|outbox|] == outbox;
  }

  lemma {:induction false} SameMilestones(outbox: seq<D.Event>, o: Id)
    ensures DeliveryRuns.Milestones(EventsOf(outbox, o), o) == DeliveryRuns.Milestones(outbox, o)
  {
    if outbox != [] {
      var rest, last := outbox[..|outbox| - 1], outbox[|outbox| - 1];
      assert outbox == rest + [last];
      SameMilestones(rest, o);
      EventsAppend(rest, last, o);
      DeliveryRuns.MilestonesAppend(EventsOf(rest, o), last, o);
      DeliveryRuns.MilestonesAppend(rest, last, o);
      if last.order != o {
        assert EventsOf(outbox, o) == EventsOf(rest, o);
      }
    }
  }

  lemma {:induction false} MilestonePrefix(es: seq<D.Event>, c: nat, o: Id)
    requires c <= |es|
    ensures DeliveryRuns.Milestones(es[..c], o) <= DeliveryRuns.Milestones(es, o)
    decreases |es| - c
  {
    if c < |es| {
      MilestonePrefix(es, c + 1, o);
      assert es[..c + 1] == es[..c] + [es[c]];
      DeliveryRuns.MilestonesAppend(es[..c], es[c], o);
    } else {
      assert es[..c] == es;
    }
  }

  function Image(status: D.Status): O.Status
    requires status != D.Cancelled
  {
    match status
    case Assigned => O.Confirmed
    case Assembling => O.Assembling
    case Delivering => O.Delivering
    case Completed => O.Delivered
  }

  // ------------------------------------------------------------------ Rungs

  /** Event `i` asks for the order status `target`. */
  ghost predicate Asks(es: seq<D.Event>, i: int, target: O.Status) {
    0 <= i < |es| && O.TargetOf(es[i].kind) == O.To(target)
  }

  ghost predicate AskedBefore(es: seq<D.Event>, j: int, target: O.Status) {
    exists i :: i < j && Asks(es, i, target)
  }

  /** The status an event must find, or a later one: the rung below its target. */
  function Below(target: O.Status): Option<O.Status> {
    match target
    case Confirmed => None
    case Assembling => Some(O.Confirmed)
    case Delivering => Some(O.Assembling)
    case Delivered => Some(O.Confirmed)
    case _ => None
  }

  /** Each status is asked for at most once, the rung below comes before, and completion comes last. */
  ghost predicate Laddered(es: seq<D.Event>) {
    && (forall i, j, t :: Asks(es, i, t) && Asks(es, j, t) ==> i == j)
    && (forall j, t :: Asks(es, j, t) && Below(t).Some? ==> AskedBefore(es, j, Below(t).value))
    && (forall i, j, t :: Asks(es, j, O.Delivered) && Asks(es, i, t) ==> i <= j)
  }

  /** Where event `j` stands among the milestones. */
  lemma PlaceOf(es: seq<D.Event>, j: nat, o: Id)
    requires j < |es| && es[j].order == o && DeliveryRuns.Milestone(es[j].kind).Some?
    ensures var before, told := DeliveryRuns.Milestones(es[..j], o), DeliveryRuns.Milestones(es, o);
            |before| < |told| && told[..|before|] == before && told[|before|] == DeliveryRuns.Milestone(es[j].kind).value
  {
    assert es[..j + 1] == es[..j] + [es[j]];
    DeliveryRuns.MilestonesAppend(es[..j], es[j], o);
    MilestonePrefix(es, j + 1, o);
    MilestonePrefix(es, j, o);
  }

  lemma {:induction false} MilestonesGrow(es: seq<D.Event>, i: nat, j: nat, o: Id)
    requires i < j <= |es| && es[i].order == o && DeliveryRuns.Milestone(es[i].kind).Some?
    ensures |DeliveryRuns.Milestones(es[..i], o)| < |DeliveryRuns.Milestones(es[..j], o)|
  {
    assert es[..i + 1] == es[..i] + [es[i]];
    DeliveryRuns.MilestonesAppend(es[..i], es[i], o);
    MilestonePrefix(es[..j], i + 1, o);
    assert es[..j][..i + 1] == es[..i + 1];
  }

  /** Every milestone told before place `j` has its event there. */
  lemma {:induction false} EventOf(es: seq<D.Event>, j: nat, k: nat, o: Id) returns (i: nat)
    requires j <= |es| && k < |DeliveryRuns.Milestones(es[..j], o)|
    ensures i < j && es[i].order == o && DeliveryRuns.Milestone(es[i].kind) == Some(DeliveryRuns.Milestones(es[..j], o)[k])
    decreases j
  {
    assert j > 0;
    assert es[..j] == es[..j - 1] + [es[j - 1]];
    DeliveryRuns.MilestonesAppend(es[..j - 1], es[j - 1], o);
    if k < |DeliveryRuns.Milestones(es[..j - 1], o)| {
      i := EventOf(es, j - 1, k, o);
    } else {
      i := j - 1;
    }
  }

  lemma TargetIsMilestone(e: D.Event, target: O.Status)
    ensures O.TargetOf(e.kind) == O.To(target) ==>
              DeliveryRuns.Milestone(e.kind).Some? && DeliveryRuns.Milestone(e.kind).value != D.Cancelled
              && Image(DeliveryRuns.Milestone(e.kind).value) == target
    ensures DeliveryRuns.Milestone(e.kind).Some? && DeliveryRuns.Milestone(e.kind).value != D.Cancelled ==>
              O.TargetOf(e.kind) == O.To(Image(DeliveryRuns.Milestone(e.kind).value)) || O.TargetOf(e.kind).BadTarget?
  {
  }

  /** What a fitting story looks like at each place. */
  lemma StoryAt(status: D.Status, told: seq<D.Status>, m: nat)
    requires DeliveryRuns.Fits(status, told) && m < |told|
    ensures told[m] == D.Assigned ==> m == 0
    ensures told[m] == D.Assembling ==> m == 1
    ensures told[m] == D.Delivering ==> m == 2
    ensures told[m] == D.Completed ==> 1 <= m == |told| - 1
    ensures told[0] == D.Assigned && (m == 2 && told[2] == D.Delivering ==> told[1] == D.Assembling)
  {
    var ladder := DeliveryRuns.LADDER;
    if D.Terminal(status) {
      var k :| 1 <= k <= 3 && told == ladder[..k] + [status];
      assert m < k ==> told[m] == ladder[m];
      assert told[0] == ladder[0];
    } else {
      assert told[m] == ladder[m] && told[0] == ladder[0];
    }
  }

  ghost predicate StoryOrders(es: seq<D.Event>, o: Id) {
    forall i :: 0 <= i < |es| ==> es[i].order == o && !O.TargetOf(es[i].kind).BadTarget?
  }

  lemma AskedOnce(status: D.Status, es: seq<D.Event>, o: Id, i: int, j: int, target: O.Status)
    requires StoryOrders(es, o) && DeliveryRuns.Fits(status, DeliveryRuns.Milestones(es, o))
    requires Asks(es, i, target) && Asks(es, j, target) && i <= j
    ensures i == j
  {
    TargetIsMilestone(es[i], target);
    TargetIsMilestone(es[j], target);
    PlaceOf(es, i, o);
    PlaceOf(es, j, o);
    StoryAt(status, DeliveryRuns.Milestones(es, o), |DeliveryRuns.Milestones(es[..i], o)|);
    StoryAt(status, DeliveryRuns.Milestones(es, o), |DeliveryRuns.Milestones(es[..j], o)|);
    if i < j {
      MilestonesGrow(es, i, j, o);
    }
  }

  lemma RungBelow(status: D.Status, es: seq<D.Event>, o: Id, j: int, target: O.Status) returns (i: nat)
    requires StoryOrders(es, o) && DeliveryRuns.Fits(status, DeliveryRuns.Milestones(es, o))
    requires Asks(es, j, target) && Below(target).Some?
    ensures i < j && Asks(es, i, Below(target).value)
  {
    var told, m := DeliveryRuns.Milestones(es, o), |DeliveryRuns.Milestones(es[..j], o)|;
    TargetIsMilestone(es[j], target);
    PlaceOf(es, j, o);
    StoryAt(status, told, m);
    var k := if target == O.Delivering then 1 else 0;
    i := EventOf(es, j, k, o);
    assert DeliveryRuns.Milestones(es[..j], o)[k] == told[k];
    TargetIsMilestone(es[i], Below(target).value);
  }

  lemma CompletionIsLast(status: D.Status, es: seq<D.Event>, o: Id, i: int, j: int, target: O.Status)
    requires StoryOrders(es, o) && DeliveryRuns.Fits(status, DeliveryRuns.Milestones(es, o))
    requires Asks(es, j, O.Delivered) && Asks(es, i, target)
    ensures i <= j
  {
    if j < i {
      TargetIsMilestone(es[i], target);
      TargetIsMilestone(es[j], O.Delivered);
      PlaceOf(es, i, o);
      PlaceOf(es, j, o);
      StoryAt(status, DeliveryRuns.Milestones(es, o), |DeliveryRuns.Milestones(es[..j], o)|);
      MilestonesGrow(es, j, i, o);
    }
  }

  lemma StoriesAreLaddered(status: D.Status, es: seq<D.Event>, o: Id)
    requires StoryOrders(es, o) && DeliveryRuns.Fits(status, DeliveryRuns.Milestones(es, o))
    ensures Laddered(es)
  {
    forall i, j, t | Asks(es, i, t) && Asks(es, j, t) ensures i == j {
      if i <= j {
        AskedOnce(status, es, o, i, j, t);
      } else {
        AskedOnce(status, es, o, j, i, t);
      }
    }
    forall j, t | Asks(es, j, t) && Below(t).Some? ensures AskedBefore(es, j, Below(t).value) {
      var i := RungBelow(status, es, o, j, t);
    }
    forall i, j, t | Asks(es, j, O.Delivered) && Asks(es, i, t) ensures i <= j {
      CompletionIsLast(status, es, o, i, j, t);
    }
  }

  lemma MuteStoriesAreLaddered(es: seq<D.Event>, o: Id)
    requires StoryOrders(es, o) && DeliveryRuns.Milestones(es, o) == []
    ensures forall i, t :: !Asks(es, i, t)
  {
    forall i, t ensures !Asks(es, i, t) {
      if Asks(es, i, t) {
        TargetIsMilestone(es[i], t);
        PlaceOf(es, i, o);
      }
    }
  }

  // ------------------------------------------------------------------ The invariant

  ghost predicate WellFormed(e: D.Event) {
    !O.TargetOf(e.kind).BadTarget?
  }

  ghost predicate Ids(w: World) {
    && DeliveryRuns.DistinctIds(w.logistics.outbox)
    && (forall x :: x in w.book.inbox ==> D.Used(w.logistics.outbox, x))
  }

  ghost predicate Known(w: World) {
    && (forall e :: e in w.logistics.outbox ==> e.order in w.book.orders && WellFormed(e))
    && (forall t :: t in w.logistics.trips ==>
                      && w.logistics.trips[t].order in w.book.orders
                      && (w.logistics.trips[t].status == D.Cancelled ==> w.book.orders[w.logistics.trips[t].order].status == O.Cancelled))
  }

  ghost function StatusOf(t: O.Tables, o: Id): Option<O.Status> {
    if o in t.orders then Some(t.orders[o].status) else None
  }

  /** The event asking for `target` has been handled. */
  ghost predicate Handled(es: seq<D.Event>, inbox: set<Id>, target: O.Status) {
    exists i :: Asks(es, i, target) && es[i].id in inbox
  }

  /** The status is the highest one handled, and no event was handled before the rung below it. */
  ghost predicate Level(es: seq<D.Event>, inbox: set<Id>, status: O.Status) {
    && (status == O.Delivered <==> Handled(es, inbox, O.Delivered))
    && (status == O.Delivering <==> Handled(es, inbox, O.Delivering) && status != O.Delivered)
    && (status == O.Assembling <==> Handled(es, inbox, O.Assembling) && status != O.Delivering && status != O.Delivered)
    && (status == O.Created <==> !Handled(es, inbox, O.Confirmed))
    && status != O.Cancelled
    && (Handled(es, inbox, O.Assembling) || Handled(es, inbox, O.Delivered) ==> Handled(es, inbox, O.Confirmed))
    && (Handled(es, inbox, O.Delivering) ==> Handled(es, inbox, O.Assembling))
  }

  /** The first `c` of an order's events are passed, the others are not even seen, and the status of an order that is not
      cancelled is the level of the handled ones. */
  ghost predicate Tracks(es: seq<D.Event>, c: nat, inbox: set<Id>, status: Option<O.Status>) {
    && c <= |es|
    && (forall i :: c <= i < |es| ==> es[i].id !in inbox)
    && (status.Some? ==> status.value == O.Cancelled || Level(es, inbox, status.value))
  }

  /** What the order service knows about order `o` against what logistics has told. */
  ghost predicate InStep(w: World, o: Id) {
    Tracks(EventsOf(w.logistics.outbox, o), Cursor(w, o), w.book.inbox, StatusOf(w.book, o))
  }

  ghost predicate Following(w: World) {
    && OrderRuns.Faithful(w.book)
    && DeliveryRuns.Told(w.logistics.trips, w.logistics.outbox)
    && Ids(w) && Known(w)
    && forall o :: InStep(w, o)
  }

  lemma StartFollows(w: World)
    requires Start(w)
    ensures Following(w)
  {
    forall o ensures OrderRuns.FaithfulOrder(w.book, o) && InStep(w, o) {
    }
    DeliveryRuns.OpeningIsTold(w.logistics);
  }

  // ------------------------------------------------------------------ Order side

  lemma {:induction false} CancelRowIsLast(rows: seq<O.HistoryRow>, status: O.Status, k: O.Kind)
    requires OrderRuns.Path(rows, status) && k in OrderRuns.Echo(rows) && k.OrderCancelled?
    ensures status == O.Cancelled
  {
    var rest, last := rows[..|rows| - 1], rows[|rows| - 1];
    if k in OrderRuns.Echo(rest) {
      CancelRowIsLast(rest, last.previous, k);
    } else {
      assert k in OrderRuns.EchoRow(last);
    }
  }

  /** order.cancelled is in the outbox exactly when the order is cancelled. */
  lemma CancellationIsAnnounced(t: O.Tables, o: Id)
    requires OrderRuns.FaithfulOrder(t, o)
    ensures (exists k :: k in OrderRuns.KindsOf(t.outbox, o) && k.OrderCancelled?) <==> o in t.orders && t.orders[o].status == O.Cancelled
  {
    if o in t.orders {
      var rows := OrderRuns.HistoryOf(t.history, o);
      var kinds := OrderRuns.KindsOf(t.outbox, o);
      assert kinds == [O.OrderCreated(t.orders[o].(status := O.Created))] + OrderRuns.Echo(rows);
      if k :| k in kinds && k.OrderCancelled? {
        assert k in OrderRuns.Echo(rows);
        CancelRowIsLast(rows, t.orders[o].status, k);
      }
      if t.orders[o].status == O.Cancelled {
        var last := rows[|rows| - 1];
        var echo := OrderRuns.Echo(rows);
        assert echo == OrderRuns.Echo(rows[..|rows| - 1]) + [O.OrderCancelled(last.previous), O.StatusChanged(last.previous, O.Cancelled)];
        assert echo[|echo| - 2] == O.OrderCancelled(last.previous);
        assert kinds[|kinds| - 2] == O.OrderCancelled(last.previous);
      }
    }
  }

  lemma OrderActKeeps(t: O.Tables, a: OrderRuns.Act)
    requires !a.Handle?
    ensures var u := OrderRuns.Apply(t, a);
            && u.inbox == t.inbox && t.orders.Keys <= u.orders.Keys
            && (forall o :: o in t.orders ==> u.orders[o].status == t.orders[o].status || u.orders[o].status == O.Cancelled)
            && (forall o :: o in u.orders && o !in t.orders ==> u.orders[o].status == O.Created)
  {
  }

  lemma OrderSideFollows(w: World, a: OrderRuns.Act)
    requires Following(w) && !a.Handle?
    ensures Following(Next(w, OrderSide(a)))
  {
    var v := Next(w, OrderSide(a));
    OrderRuns.ActIsFaithful(w.book, a);
    OrderActKeeps(w.book, a);
    forall o ensures InStep(v, o) {
      assert InStep(w, o);
      if o in v.book.orders && o !in w.book.orders {
        NoEventsOf(w.logistics.outbox, o);
      }
    }
  }

  lemma {:induction false} NoEventsOf(outbox: seq<D.Event>, o: Id)
    requires forall e :: e in outbox ==> e.order != o
    ensures EventsOf(outbox, o) == []
  {
    if outbox != [] {
      assert outbox[|outbox| - 1] in outbox;
      NoEventsOf(outbox[..|outbox| - 1], o);
    }
  }

  // ------------------------------------------------------------------ Delivery side

  lemma NewEventIsWellFormed(s: D.Tables, a: DeliveryRuns.Act, e: D.Event)
    requires a.Locate? ==> a.location.phase != D.Blank
    requires DeliveryRuns.Apply(s, a).0.outbox == s.outbox + [e]
    ensures WellFormed(e)
  {
    assert (s.outbox + [e])[|s.outbox|] == e;
  }

  lemma NewEventHasTrip(s: D.Tables, a: DeliveryRuns.Act, e: D.Event)
    requires DeliveryRuns.Apply(s, a).0.outbox == s.outbox + [e]
    ensures (a.Assign? && e.order == a.order) || exists t :: t in s.trips && s.trips[t].order == e.order
  {
    assert (s.outbox + [e])[|s.outbox|] == e;
  }

  lemma NewEventIsKnown(w: World, a: DeliveryRuns.Act, e: D.Event)
    requires Following(w) && Caused(w, a) && DeliveryRuns.Apply(w.logistics, a).0.outbox == w.logistics.outbox + [e]
    ensures e.order in w.book.orders && WellFormed(e)
  {
    NewEventIsWellFormed(w.logistics, a, e);
    NewEventHasTrip(w.logistics, a, e);
    if a.Assign? {
      assert OrderRuns.FaithfulOrder(w.book, a.order);
    }
  }

  lemma TripsStayKnown(w: World, a: DeliveryRuns.Act, u: Id)
    requires Following(w) && Caused(w, a) && u in DeliveryRuns.Apply(w.logistics, a).0.trips
    ensures var row := DeliveryRuns.Apply(w.logistics, a).0.trips[u];
            row.order in w.book.orders && (row.status == D.Cancelled ==> w.book.orders[row.order].status == O.Cancelled)
  {
    var row := DeliveryRuns.Apply(w.logistics, a).0.trips[u];
    if a.Assign? {
      assert OrderRuns.FaithfulOrder(w.book, a.order);
    } else if a.Cancel? {
      assert OrderRuns.FaithfulOrder(w.book, a.order);
      CancellationIsAnnounced(w.book, a.order);
    }
    if u in w.logistics.trips {
      DeliveryRuns.RowsStay(w.logistics, a, u);
      CancelledByCancel(w.logistics, a, u);
    } else {
      DeliveryRuns.NewRowsAreAssigned(w.logistics, a, u);
    }
  }

  lemma CancelledByCancel(s: D.Tables, a: DeliveryRuns.Act, u: Id)
    requires u in s.trips && u in DeliveryRuns.Apply(s, a).0.trips
    ensures DeliveryRuns.Apply(s, a).0.trips[u].status == D.Cancelled ==>
              s.trips[u].status == D.Cancelled || (a.Cancel? && s.trips[u].order == a.order)
  {
  }

  lemma HandledGrows(es: seq<D.Event>, e: D.Event, inbox: set<Id>, t: O.Status)
    requires e.id !in inbox
    ensures Handled(es + [e], inbox, t) <==> Handled(es, inbox, t)
  {
    if Handled(es, inbox, t) {
      var i :| Asks(es, i, t) && es[i].id in inbox;
      assert Asks(es + [e], i, t) && (es + [e])[i].id in inbox;
    }
    if Handled(es + [e], inbox, t) {
      var i :| Asks(es + [e], i, t) && (es + [e])[i].id in inbox;
      assert Asks(es, i, t) && es[i].id in inbox;
    }
  }

  lemma TracksGrow(es: seq<D.Event>, e: D.Event, c: nat, inbox: set<Id>, status: Option<O.Status>)
    requires Tracks(es, c, inbox, status) && e.id !in inbox
    ensures Tracks(es + [e], c, inbox, status)
  {
    forall t ensures Handled(es + [e], inbox, t) <==> Handled(es, inbox, t) {
      HandledGrows(es, e, inbox, t);
    }
  }

  lemma GrowthKeepsInStep(w: World, v: World, e: D.Event, o: Id)
    requires InStep(w, o) && Ids(w) && v.book == w.book && v.cursor == w.cursor
    requires v.logistics.outbox == w.logistics.outbox + [e] && !D.Used(w.logistics.outbox, e.id)
    ensures InStep(v, o)
  {
    EventsAppend(w.logistics.outbox, e, o);
    TracksGrow(EventsOf(w.logistics.outbox, o), e, Cursor(w, o), w.book.inbox, StatusOf(w.book, o));
    if e.order != o {
      assert EventsOf(v.logistics.outbox, o) == EventsOf(w.logistics.outbox, o);
    }
  }

  lemma DeliverySideFollows(w: World, a: DeliveryRuns.Act)
    requires Following(w) && Caused(w, a)
    ensures Following(Next(w, DeliverySide(a)))
  {
    var v := Next(w, DeliverySide(a));
    DeliveryRuns.ActIsTold(w.logistics, a);
    DeliveryRuns.ActAppends(w.logistics, a);
    forall t | t in v.logistics.trips
      ensures v.logistics.trips[t].order in v.book.orders
              && (v.logistics.trips[t].status == D.Cancelled ==> v.book.orders[v.logistics.trips[t].order].status == O.Cancelled)
    {
      TripsStayKnown(w, a, t);
    }
    if v.logistics.outbox != w.logistics.outbox {
      var e :| v.logistics.outbox == w.logistics.outbox + [e] && !D.Used(w.logistics.outbox, e.id);
      NewEventIsKnown(w, a, e);
      OutboxGrowthKeepsIds(w, v, e);
      forall o ensures InStep(v, o) {
        assert InStep(w, o);
        GrowthKeepsInStep(w, v, e, o);
      }
    } else {
      forall o ensures InStep(v, o) {
        assert InStep(w, o);
      }
    }
  }

  lemma OutboxGrowthKeepsIds(w: World, v: World, e: D.Event)
    requires Ids(w) && v.book == w.book && v.logistics.outbox == w.logistics.outbox + [e] && !D.Used(w.logistics.outbox, e.id)
    ensures Ids(v)
  {
    forall x | x in v.book.inbox ensures D.Used(v.logistics.outbox, x) {
      var i :| 0 <= i < |w.logistics.outbox| && w.logistics.outbox[i].id == x;
      assert v.logistics.outbox[i].id == x;
    }
  }

  // ------------------------------------------------------------------ Consuming

  lemma EventsAreLaddered(w: World, o: Id)
    requires Following(w)
    ensures Laddered(EventsOf(w.logistics.outbox, o)) && DeliveryRuns.DistinctIds(EventsOf(w.logistics.outbox, o))
    ensures StoryOrders(EventsOf(w.logistics.outbox, o), o)
  {
    var es := EventsOf(w.logistics.outbox, o);
    forall i | 0 <= i < |es| ensures es[i].order == o && WellFormed(es[i]) {
      assert es[i] in es && es[i] in w.logistics.outbox;
    }
    SameMilestones(w.logistics.outbox, o);
    FilterKeepsDistinct(w.logistics.outbox, o);
    if D.HasTrip(w.logistics.trips, o) {
      StoriesAreLaddered(w.logistics.trips[D.TripOf(w.logistics.trips, o)].status, es, o);
    } else {
      MuteStoriesAreLaddered(es, o);
    }
  }

  lemma {:induction false} FilterKeepsDistinct(outbox: seq<D.Event>, o: Id)
    requires DeliveryRuns.DistinctIds(outbox)
    ensures DeliveryRuns.DistinctIds(EventsOf(outbox, o))
  {
    if outbox != [] {
      var rest, last := outbox[..|outbox| - 1], outbox[|outbox| - 1];
      FilterKeepsDistinct(rest, o);
      forall e | e in EventsOf(rest, o) ensures e.id != last.id {
        assert e in rest;
      }
    }
  }

  lemma ConsumeKeepsBookShape(t: O.Tables, e: D.Event, at: int, outId: Id, outId2: Id, commits: bool)
    ensures var (u, outcome) := O.HandleTx(t, e, at, outId, outId2, commits);
            && u.orders.Keys == t.orders.Keys && t.inbox <= u.inbox <= t.inbox + {e.id}
            && (forall o :: o in t.orders && o != e.order ==> u.orders[o] == t.orders[o])
            && (outcome.Faulted? ==> u == t)
            && (e.order in t.orders && t.orders[e.order].status == O.Cancelled ==> u.orders == t.orders)
  {
  }

  /** What handling a new, targeted event does to an order that is not cancelled. */
  lemma HandleMoves(t: O.Tables, e: D.Event, target: O.Status, at: int, outId: Id, outId2: Id, commits: bool)
    requires e.order in t.orders && O.TargetOf(e.kind) == O.To(target) && e.id !in t.inbox
    requires t.orders[e.order].status != O.Cancelled && t.orders[e.order].status != target
    ensures var (u, outcome) := O.HandleTx(t, e, at, outId, outId2, commits);
            && (outcome.Faulted? <==> u == t)
            && (outcome == O.Faulted(O.InvalidTransition) <==> !O.ValidTransition(t.orders[e.order].status, target))
            && (outcome.Faulted? ==> outcome.fault in {O.InvalidTransition, O.ConstraintViolated, O.CommitFailed})
            && (!outcome.Faulted? ==> u.inbox == t.inbox + {e.id} && e.order in u.orders && u.orders[e.order].status == target)
  {
    var u := O.HandleTx(t, e, at, outId, outId2, commits).0;
    if u != t {
      assert u.inbox == t.inbox + {e.id};
    }
  }

  lemma OthersHandled(es: seq<D.Event>, inbox: set<Id>, i: nat, target: O.Status, t: O.Status)
    requires Laddered(es) && DeliveryRuns.DistinctIds(es) && Asks(es, i, target)
    ensures Handled(es, inbox + {es[i].id}, t) <==> Handled(es, inbox, t) || t == target
  {
    if Handled(es, inbox, t) {
      var j :| Asks(es, j, t) && es[j].id in inbox;
      assert es[j].id in inbox + {es[i].id};
    }
    if Handled(es, inbox + {es[i].id}, t) {
      var j :| Asks(es, j, t) && es[j].id in inbox + {es[i].id};
      if es[j].id !in inbox {
        assert j == i;
      }
    }
  }

  /** A new event whose target is a legal move from the level raises the level to its target. */
  lemma LevelRises(es: seq<D.Event>, inbox: set<Id>, status: O.Status, i: nat, target: O.Status)
    requires Laddered(es) && DeliveryRuns.DistinctIds(es) && Asks(es, i, target) && Level(es, inbox, status)
    requires O.ValidTransition(status, target)
    ensures Level(es, inbox + {es[i].id}, target)
  {
    forall t ensures Handled(es, inbox + {es[i].id}, t) <==> Handled(es, inbox, t) || t == target {
      OthersHandled(es, inbox, i, target, t);
    }
  }

  lemma HandledIs(es: seq<D.Event>, inbox: set<Id>, i: int, target: O.Status)
    requires Laddered(es) && Asks(es, i, target)
    ensures Handled(es, inbox, target) <==> es[i].id in inbox
  {
  }

  /** A new event never finds its own target as the status. */
  lemma NewTargetIsNotReached(es: seq<D.Event>, inbox: set<Id>, status: O.Status, i: nat, target: O.Status)
    requires Laddered(es) && Asks(es, i, target) && es[i].id !in inbox && Level(es, inbox, status)
    ensures !Handled(es, inbox, target) && status != target
    ensures O.ValidTransition(status, target) <==>
              (Below(target).Some? ==> Handled(es, inbox, Below(target).value)) && !Handled(es, inbox, O.Delivered)
  {
    HandledIs(es, inbox, i, target);
    NewTargetNeedsRung(es, inbox, status, target);
  }

  lemma NewTargetNeedsRung(es: seq<D.Event>, inbox: set<Id>, status: O.Status, target: O.Status)
    requires Level(es, inbox, status) && !Handled(es, inbox, target)
    requires target in {O.Confirmed, O.Assembling, O.Delivering, O.Delivered}
    ensures status != target
    ensures O.ValidTransition(status, target) <==>
              (Below(target).Some? ==> Handled(es, inbox, Below(target).value)) && !Handled(es, inbox, O.Delivered)
  {
  }

  /** The whole effect of handling any passed or next event on its order's step. */
  lemma HandleTracks(t: O.Tables, es: seq<D.Event>, c: nat, i: nat, o: Id, at: int, outId: Id, outId2: Id, commits: bool)
    requires i <= c && i < |es| && o in t.orders && es[i].order == o && WellFormed(es[i])
    requires Laddered(es) && DeliveryRuns.DistinctIds(es) && Tracks(es, c, t.inbox, StatusOf(t, o))
    ensures var (u, outcome) := O.HandleTx(t, es[i], at, outId, outId2, commits);
            && (outcome.Faulted? ==> u == t)
            && (!outcome.Faulted? ==> Tracks(es, if i < c then c else c + 1, u.inbox, StatusOf(u, o)))
  {
    var (u, outcome) := O.HandleTx(t, es[i], at, outId, outId2, commits);
    ConsumeKeepsBookShape(t, es[i], at, outId, outId2, commits);
    var target := O.TargetOf(es[i].kind);
    if target.To? && es[i].id !in t.inbox && t.orders[o].status != O.Cancelled {
      NewTargetIsNotReached(es, t.inbox, t.orders[o].status, i, target.status);
      HandleMoves(t, es[i], target.status, at, outId, outId2, commits);
      if !outcome.Faulted? {
        LevelRises(es, t.inbox, t.orders[o].status, i, target.status);
      }
    }
  }

  lemma TracksFrame(es: seq<D.Event>, c: nat, inbox: set<Id>, inbox': set<Id>, x: Id, status: Option<O.Status>)
    requires Tracks(es, c, inbox, status) && inbox <= inbox' <= inbox + {x}
    requires forall i :: 0 <= i < |es| ==> es[i].id != x
    ensures Tracks(es, c, inbox', status)
  {
    forall t ensures Handled(es, inbox', t) <==> Handled(es, inbox, t) {
      if Handled(es, inbox, t) {
        var i :| Asks(es, i, t) && es[i].id in inbox;
        assert es[i].id in inbox';
      }
    }
  }

  lemma IdsTellOrdersApart(outbox: seq<D.Event>, e: D.Event, o: Id)
    requires DeliveryRuns.DistinctIds(outbox) && e in outbox && e.order != o
    ensures forall i :: 0 <= i < |EventsOf(outbox, o)| ==> EventsOf(outbox, o)[i].id != e.id
  {
    var es := EventsOf(outbox, o);
    forall i | 0 <= i < |es| ensures es[i].id != e.id {
      assert es[i] in es;
      var a :| 0 <= a < |outbox| && outbox[a] == es[i];
      var b :| 0 <= b < |outbox| && outbox[b] == e;
      assert a != b;
    }
  }

  lemma OtherOrdersKeepStep(w: World, s: Step, o: Id)
    requires InStep(w, o) && Ids(w) && Deliverable(w, s) && o != s.order
    ensures InStep(Next(w, s), o)
  {
    var e := EventsOf(w.logistics.outbox, s.order)[s.index];
    assert e in EventsOf(w.logistics.outbox, s.order);
    ConsumeKeepsBookShape(w.book, e, s.at, s.outId, s.outId2, s.commits);
    IdsTellOrdersApart(w.logistics.outbox, e, o);
    TracksFrame(EventsOf(w.logistics.outbox, o), Cursor(w, o), w.book.inbox, Next(w, s).book.inbox, e.id, StatusOf(w.book, o));
  }

  lemma ConsumeKeepsKnown(w: World, v: World, e: D.Event)
    requires Ids(w) && Known(w) && e in w.logistics.outbox && v.logistics == w.logistics
    requires v.book.orders.Keys == w.book.orders.Keys && v.book.inbox <= w.book.inbox + {e.id}
    requires forall o :: o in w.book.orders && o != e.order ==> v.book.orders[o] == w.book.orders[o]
    requires e.order in w.book.orders && w.book.orders[e.order].status == O.Cancelled ==> v.book.orders == w.book.orders
    ensures Ids(v) && Known(v)
  {
    var b :| 0 <= b < |w.logistics.outbox| && w.logistics.outbox[b] == e;
    assert D.Used(w.logistics.outbox, e.id);
  }

  /** The order of the consumed event stays in step. */
  lemma ConsumedKeepsStep(w: World, s: Step)
    requires Following(w) && Deliverable(w, s)
    ensures InStep(Next(w, s), s.order)
  {
    var es := EventsOf(w.logistics.outbox, s.order);
    EventsAreLaddered(w, s.order);
    assert InStep(w, s.order);
    assert es[s.index] in es && es[s.index] in w.logistics.outbox;
    HandleTracks(w.book, es, Cursor(w, s.order), s.index, s.order, s.at, s.outId, s.outId2, s.commits);
  }

  /** Keys, ids and shapes of both services after a consumed event. */
  lemma ConsumeKeepsShapes(w: World, s: Step)
    requires Following(w) && Deliverable(w, s)
    ensures Ids(Next(w, s)) && Known(Next(w, s)) && OrderRuns.Faithful(Next(w, s).book)
  {
    var e := EventsOf(w.logistics.outbox, s.order)[s.index];
    assert e in EventsOf(w.logistics.outbox, s.order);
    ConsumeKeepsBookShape(w.book, e, s.at, s.outId, s.outId2, s.commits);
    ConsumeKeepsKnown(w, Next(w, s), e);
    OrderRuns.ActIsFaithful(w.book, OrderRuns.Handle(e, s.at, s.outId, s.outId2, s.commits));
  }

  lemma ConsumeFollows(w: World, s: Step)
    requires Following(w) && Deliverable(w, s)
    ensures Following(Next(w, s))
  {
    ConsumeKeepsShapes(w, s);
    forall o ensures InStep(Next(w, s), o) {
      assert InStep(w, o);
      if o == s.order {
        ConsumedKeepsStep(w, s);
      } else {
        OtherOrdersKeepStep(w, s, o);
      }
    }
  }

  lemma BuryFollows(w: World, order: Id)
    requires Following(w)
    ensures Following(Next(w, Bury(order)))
  {
    forall o ensures InStep(Next(w, Bury(order)), o) {
      assert InStep(w, o);
    }
  }

  lemma {:induction false} RunFollows(w: World, steps: seq<Step>)
    requires Start(w)
    ensures Following(Run(w, steps))
  {
    if steps == [] {
      StartFollows(w);
    } else {
      var mid, last := Run(w, steps[..|steps| - 1]), steps[|steps| - 1];
      RunFollows(w, steps[..|steps| - 1]);
      if Next(mid, last) != mid {
        match last
        case OrderSide(act) => OrderSideFollows(mid, act);
        case DeliverySide(act) => DeliverySideFollows(mid, act);
        case Consume(_, _, _, _, _, _) => ConsumeFollows(mid, last);
        case Bury(order) => BuryFollows(mid, order);
      }
    }
  }

  // ------------------------------------------------------------------ The theorems

  /** The event asking for `target` was passed and has still not been handled: it lies in the DLQ. */
  ghost predicate Buried(w: World, o: Id, target: O.Status) {
    exists i :: i < Cursor(w, o) && Asks(EventsOf(w.logistics.outbox, o), i, target)
                && EventsOf(w.logistics.outbox, o)[i].id !in w.book.inbox
  }

  /** Handling the event of step `s` now is refused as an invalid transition. */
  ghost predicate Refused(w: World, s: Step)
    requires Deliverable(w, s)
  {
    ConsumeResult(w, s).1 == O.Faulted(O.InvalidTransition)
  }

  /** The next event of an order, in first-occurrence order. */
  ghost predicate IsNext(w: World, s: Step) {
    Deliverable(w, s) && s.index == Cursor(w, s.order)
  }

  /** Whatever happens in both services: an event not yet handled, of an order not cancelled, is refused as an invalid
      transition if and only if the rung below its target is not handled or completion already is. */
  lemma {:induction false} RefusedExactlyWithoutItsRung(w: World, steps: seq<Step>, s: Step, target: O.Status)
    requires Start(w) && Deliverable(Run(w, steps), s)
    requires var v := Run(w, steps);
             var e := EventsOf(v.logistics.outbox, s.order)[s.index];
             && O.TargetOf(e.kind) == O.To(target) && e.id !in v.book.inbox
             && (s.order in v.book.orders ==> v.book.orders[s.order].status != O.Cancelled)
    ensures var v := Run(w, steps);
            var es := EventsOf(v.logistics.outbox, s.order);
            Refused(v, s) <==>
              || (Below(target).Some? && !Handled(es, v.book.inbox, Below(target).value))
              || Handled(es, v.book.inbox, O.Delivered)
  {
    RunFollows(w, steps);
    NewEventIsRefusedIff(Run(w, steps), s, target);
  }

  lemma NewEventIsRefusedIff(v: World, s: Step, target: O.Status)
    requires Following(v) && Deliverable(v, s)
    requires var e := EventsOf(v.logistics.outbox, s.order)[s.index];
             && O.TargetOf(e.kind) == O.To(target) && e.id !in v.book.inbox
             && (s.order in v.book.orders ==> v.book.orders[s.order].status != O.Cancelled)
    ensures var es := EventsOf(v.logistics.outbox, s.order);
            Refused(v, s) <==>
              || (Below(target).Some? && !Handled(es, v.book.inbox, Below(target).value))
              || Handled(es, v.book.inbox, O.Delivered)
  {
    var es := EventsOf(v.logistics.outbox, s.order);
    var e := es[s.index];
    assert e in es && e in v.logistics.outbox;
    EventsAreLaddered(v, s.order);
    assert InStep(v, s.order);
    var status := v.book.orders[s.order].status;
    NewTargetIsNotReached(es, v.book.inbox, status, s.index, target);
    HandleMoves(v.book, e, target, s.at, s.outId, s.outId2, s.commits);
  }

  /** In first-occurrence order the refusal has one cause: the next event of an order that is not cancelled is refused
      if and only if the rung below its target lies buried (assembling needs assigned, delivering needs assembling,
      completed needs assigned). */
  lemma {:induction false} NextIsRefusedIffItsRungIsBuried(w: World, steps: seq<Step>, s: Step)
    requires Start(w) && IsNext(Run(w, steps), s)
    requires var v := Run(w, steps); s.order in v.book.orders ==> v.book.orders[s.order].status != O.Cancelled
    ensures var v := Run(w, steps);
            var target := O.TargetOf(EventsOf(v.logistics.outbox, s.order)[s.index].kind);
            Refused(v, s) <==> target.To? && Below(target.status).Some? && Buried(v, s.order, Below(target.status).value)
  {
    RunFollows(w, steps);
    var v := Run(w, steps);
    var es := EventsOf(v.logistics.outbox, s.order);
    var target := O.TargetOf(es[s.index].kind);
    assert InStep(v, s.order);
    if target.To? {
      NewEventIsRefusedIff(v, s, target.status);
      EventsAreLaddered(v, s.order);
      RungIsHandledOrBuried(v, s, target.status);
    }
  }

  /** At the next event, the rung below was passed, and completion was not. */
  lemma RungIsHandledOrBuried(v: World, s: Step, target: O.Status)
    requires Following(v) && IsNext(v, s) && Laddered(EventsOf(v.logistics.outbox, s.order))
    requires Asks(EventsOf(v.logistics.outbox, s.order), s.index, target)
    ensures !Handled(EventsOf(v.logistics.outbox, s.order), v.book.inbox, O.Delivered)
    ensures Below(target).Some? ==>
              (Buried(v, s.order, Below(target).value) <==> !Handled(EventsOf(v.logistics.outbox, s.order), v.book.inbox, Below(target).value))
  {
    var es := EventsOf(v.logistics.outbox, s.order);
    assert InStep(v, s.order);
    assert forall j :: Asks(es, j, O.Delivered) ==> s.index <= j;
    if Below(target).Some? {
      assert AskedBefore(es, s.index, Below(target).value);
      var i :| i < s.index && Asks(es, i, Below(target).value);
      HandledIs(es, v.book.inbox, i, Below(target).value);
      assert forall k :: Asks(es, k, Below(target).value) ==> k == i;
    }
  }

  /** When nothing of the order lies buried, its events are never refused: no invalid transition, no unsupported status,
      no unknown order, whatever is delivered again. */
  lemma {:induction false} ConsumerRefusesNothingUnburied(w: World, steps: seq<Step>, s: Step)
    requires Start(w) && Deliverable(Run(w, steps), s)
    requires forall target :: !Buried(Run(w, steps), s.order, target)
    ensures var outcome := ConsumeResult(Run(w, steps), s).1;
            outcome.Faulted? ==> outcome.fault == O.ConstraintViolated || outcome.fault == O.CommitFailed
  {
    RunFollows(w, steps);
    var v := Run(w, steps);
    var es := EventsOf(v.logistics.outbox, s.order);
    var e := es[s.index];
    assert e in es && e in v.logistics.outbox;
    if O.TargetOf(e.kind).To? && e.id !in v.book.inbox {
      var target := O.TargetOf(e.kind).status;
      assert Asks(es, s.index, target);
      assert !Buried(v, s.order, target);
      assert IsNext(v, s);
      if v.book.orders[s.order].status != O.Cancelled {
        NextIsRefusedIffItsRungIsBuried(w, steps, s);
      }
    }
  }

  /** Once its events are drained, an order that is not cancelled shows the image of its trip's status if and only if
      the event announcing that status does not lie buried. */
  lemma {:induction false} DrainedOrderMirrorsTrip(w: World, steps: seq<Step>, o: Id)
    requires Start(w) && o in Run(w, steps).book.orders
    requires Cursor(Run(w, steps), o) == |EventsOf(Run(w, steps).logistics.outbox, o)|
    requires Run(w, steps).book.orders[o].status != O.Cancelled
    ensures var v := Run(w, steps);
            if D.HasTrip(v.logistics.trips, o) then
              && v.logistics.trips[D.TripOf(v.logistics.trips, o)].status != D.Cancelled
              && var image := Image(v.logistics.trips[D.TripOf(v.logistics.trips, o)].status);
                 v.book.orders[o].status == image <==> !Buried(v, o, image)
            else v.book.orders[o].status == O.Created
  {
    RunFollows(w, steps);
    var v := Run(w, steps);
    var es := EventsOf(v.logistics.outbox, o);
    EventsAreLaddered(v, o);
    assert InStep(v, o);
    SameMilestones(v.logistics.outbox, o);
    if D.HasTrip(v.logistics.trips, o) {
      var trip := D.TripOf(v.logistics.trips, o);
      DrainedLevel(es, v.book.inbox, v.logistics.trips[trip].status, v.book.orders[o].status, o);
    } else {
      MuteStoriesAreLaddered(es, o);
    }
  }

  /** The last rung of a story has an event, and it is the level exactly when it is handled. */
  lemma DrainedLevel(es: seq<D.Event>, inbox: set<Id>, trip: D.Status, status: O.Status, o: Id)
    requires StoryOrders(es, o) && Laddered(es) && DeliveryRuns.Fits(trip, DeliveryRuns.Milestones(es, o))
    requires trip != D.Cancelled && Level(es, inbox, status)
    ensures status == Image(trip) <==> !exists i :: Asks(es, i, Image(trip)) && es[i].id !in inbox
  {
    var told := DeliveryRuns.Milestones(es, o);
    assert es[..|es|] == es;
    LastIsTrip(trip, told);
    var i := EventOf(es, |es|, |told| - 1, o);
    TargetIsMilestone(es[i], Image(trip));
    assert Asks(es, i, Image(trip));
    assert Handled(es, inbox, Image(trip)) <==> es[i].id in inbox;
    if Handled(es, inbox, Image(trip)) {
      TopIsLevel(es, inbox, trip, status, o);
    }
  }

  lemma LastIsTrip(trip: D.Status, told: seq<D.Status>)
    requires DeliveryRuns.Fits(trip, told)
    ensures told != [] && told[|told| - 1] == trip
  {
  }

  /** Nothing above the last rung is ever asked for. */
  lemma TopIsLevel(es: seq<D.Event>, inbox: set<Id>, trip: D.Status, status: O.Status, o: Id)
    requires StoryOrders(es, o) && DeliveryRuns.Fits(trip, DeliveryRuns.Milestones(es, o))
    requires trip != D.Cancelled && Level(es, inbox, status) && Handled(es, inbox, Image(trip))
    ensures status == Image(trip)
  {
    forall t | OrderRuns.Rank(t) > OrderRuns.Rank(Image(trip)) ensures !Handled(es, inbox, t) {
      if Handled(es, inbox, t) {
        var j :| Asks(es, j, t) && es[j].id in inbox;
        TargetIsMilestone(es[j], t);
        PlaceOf(es, j, o);
        NothingAbove(trip, DeliveryRuns.Milestones(es, o), |DeliveryRuns.Milestones(es[..j], o)|);
      }
    }
  }

  lemma NothingAbove(trip: D.Status, told: seq<D.Status>, m: nat)
    requires DeliveryRuns.Fits(trip, told) && trip != D.Cancelled && m < |told|
    ensures told[m] != D.Cancelled && OrderRuns.Rank(Image(told[m])) <= OrderRuns.Rank(Image(trip))
  {
    var ladder := DeliveryRuns.LADDER;
    if trip == D.Completed {
      var k :| 1 <= k <= 3 && told == ladder[..k] + [trip];
      assert m < k ==> told[m] == ladder[m];
    } else {
      assert told[m] == ladder[m];
    }
  }

  // ------------------------------------------------------------------ A buried assignment

  lemma RunNext(w: World, steps: seq<Step>, s: Step)
    ensures Run(w, steps + [s]) == Next(Run(w, steps), s)
  {
    assert (steps + [s])[..|steps|] == steps;
  }

  const GRANTED := C.Response(1, C.Active, [], [], 0, None, None)

  function PlacedBook(): O.Tables {
    O.AfterPersist(OrderRuns.EMPTY, 0, O.NewOrder(1, O.Checkout(0, 0), GRANTED, 0), 1)
  }

  /** One order, assigned to courier `c`. */
  lemma Placed(w: World, c: Id) returns (steps: seq<Step>)
    requires Start(w) && c in w.logistics.couriers && w.logistics.couriers[c].status == D.Available
    ensures Run(w, steps) == World(PlacedBook(), D.AfterAssign(w.logistics, 1, 1, c, 1, 0, 1), map[])
  {
    var persist := OrderRuns.Persist(0, O.Checkout(0, 0), GRANTED, 1, 0, 1, true);
    var assign := DeliveryRuns.Assign(1, 1, Some([c]), 1, 0, 1, true);
    RunNext(w, [], OrderSide(persist));
    assert [] + [OrderSide(persist)] == [OrderSide(persist)];
    var mid := World(PlacedBook(), w.logistics, map[]);
    assert O.PersistTx(OrderRuns.EMPTY, 0, O.Checkout(0, 0), GRANTED, 1, 0, 1, true) == (PlacedBook(), O.Done);
    assert Run(w, [OrderSide(persist)]) == mid;
    OneEvent();
    assert D.FirstAvailable(w.logistics.couriers, [c]) == Some(c);
    assert D.AssignTx(w.logistics, 1, 1, Some([c]), 1, 0, 1, true) == (D.AfterAssign(w.logistics, 1, 1, c, 1, 0, 1), D.Done);
    RunNext(w, [OrderSide(persist)], DeliverySide(assign));
    steps := [OrderSide(persist)] + [DeliverySide(assign)];
  }

  lemma OneEvent()
    ensures OrderRuns.KindsOf(PlacedBook().outbox, 1) != []
  {
    var e := PlacedBook().outbox[0];
    assert PlacedBook().outbox == [] + [e];
    OrderRuns.KindsAppend([], e, 1);
  }

  function Sighting(couriers: map<Id, D.Courier>, c: Id): D.Location
    requires c in couriers
  {
    D.Location(c, Some(1), 0.0, 0.0, couriers[c].sequence + 1, D.Towards(D.Assembling), 0)
  }

  /** The courier starts assembling. */
  lemma Assembles(w: World, c: Id)
    requires c in w.logistics.couriers && w.logistics == D.AfterAssign(w.logistics, 1, 1, c, 1, 0, 1).(inbox := {1}, outbox := [D.Event(1, 1, D.TripAssigned)])
    ensures var v := Next(w, DeliverySide(DeliveryRuns.Locate(2, Sighting(w.logistics.couriers, c), 2, true)));
            && v.book == w.book && v.cursor == w.cursor
            && v.logistics.outbox == [D.Event(1, 1, D.TripAssigned), D.Event(2, 1, D.StatusChanged(Some(D.Assembling)))]
            && 1 in v.logistics.trips && v.logistics.trips[1].order == 1 && v.logistics.trips[1].status == D.Assembling
  {
    var l := Sighting(w.logistics.couriers, c);
    var moved := D.AfterLocation(w.logistics.(inbox := w.logistics.inbox + {2}), l);
    assert D.PhaseTx(moved, 1, c, l.phase, 0, 2) == (D.AfterPhase(moved, 1, l.phase, 0, 2), None);
    assert D.LocationTx(w.logistics, 2, l, 2, true) == (D.AfterPhase(moved, 1, l.phase, 0, 2), D.Done);
  }

  lemma TwoEvents(e: D.Event, f: D.Event)
    requires e.order == 1 && f.order == 1
    ensures EventsOf([e], 1) == [e] && EventsOf([e, f], 1) == [e, f]
  {
    assert [e] == [] + [e] && [e, f] == [e] + [f];
    EventsAppend([], e, 1);
    EventsAppend([e], f, 1);
  }

  ghost predicate AssembledUnseen(v: World) {
    && v.book == PlacedBook() && v.cursor == map[1 := 1]
    && v.logistics.outbox == [D.Event(1, 1, D.TripAssigned), D.Event(2, 1, D.StatusChanged(Some(D.Assembling)))]
    && 1 in v.logistics.trips && v.logistics.trips[1].order == 1 && v.logistics.trips[1].status == D.Assembling
  }

  /** The assignment is buried, and the courier starts assembling. */
  lemma BuriedThenAssembling(w: World, c: Id) returns (path: seq<Step>)
    requires Start(w) && c in w.logistics.couriers && w.logistics.couriers[c].status == D.Available
    ensures AssembledUnseen(Run(w, path))
  {
    var steps := Placed(w, c);
    RunNext(w, steps, Bury(1));
    TwoEvents(D.Event(1, 1, D.TripAssigned), D.Event(2, 1, D.StatusChanged(Some(D.Assembling))));
    var mid := Run(w, steps + [Bury(1)]);
    assert mid == Run(w, steps).(cursor := map[1 := 1]);
    Assembles(mid, c);
    var locate := DeliverySide(DeliveryRuns.Locate(2, Sighting(mid.logistics.couriers, c), 2, true));
    RunNext(w, steps + [Bury(1)], locate);
    path := steps + [Bury(1)] + [locate];
  }

  lemma AssemblingIsNext(v: World)
    requires AssembledUnseen(v)
    ensures IsNext(v, Consume(1, 1, 0, 2, 3, true)) && Buried(v, 1, O.Confirmed)
    ensures O.TargetOf(EventsOf(v.logistics.outbox, 1)[1].kind) == O.To(O.Assembling)
    ensures 1 in v.book.orders && v.book.orders[1].status == O.Created
    ensures LeftBehind(Next(v, Bury(1)), 1)
  {
    TwoEvents(v.logistics.outbox[0], v.logistics.outbox[1]);
    var es := EventsOf(v.logistics.outbox, 1);
    assert es == v.logistics.outbox;
    assert Asks(es, 0, O.Confirmed) && es[0].id !in v.book.inbox;
  }

  /** The exit that an unburied log never meets: when delivery.assigned goes to the DLQ, the courier's next phase is an
      invalid transition for the order, and once that is buried too the drained order stays behind its trip. */
  lemma {:induction false} BuriedAssignmentBlocksTheOrder(w: World, c: Id)
    requires Start(w) && c in w.logistics.couriers && w.logistics.couriers[c].status == D.Available
    ensures exists steps, s :: IsNext(Run(w, steps), s) && Refused(Run(w, steps), s)
                               && LeftBehind(Run(w, steps + [Bury(s.order)]), s.order)
  {
    var path := BuriedThenAssembling(w, c);
    var s := Consume(1, 1, 0, 2, 3, true);
    AssemblingIsNext(Run(w, path));
    NextIsRefusedIffItsRungIsBuried(w, path, s);
    RunNext(w, path, Bury(1));
    assert IsNext(Run(w, path), s) && Refused(Run(w, path), s) && LeftBehind(Run(w, path + [Bury(s.order)]), s.order);
  }

  /** Every event is passed, the order is still as created, and its trip is under way. */
  ghost predicate LeftBehind(w: World, o: Id) {
    && Cursor(w, o) == |EventsOf(w.logistics.outbox, o)|
    && o in w.book.orders && w.book.orders[o].status == O.Created
    && exists t :: t in w.logistics.trips && w.logistics.trips[t].order == o && w.logistics.trips[t].status == D.Assembling
  }

  /** The hypothesis on phases is exact: an accepted phase produces an event the order service refuses iff it is blank. */
  lemma OnlyBlankPhasesAreRefused(s: D.Tables, trip: Id, courier: Id, phase: D.Phase, at: int, outId: Id)
    requires D.PhaseTx(s, trip, courier, phase, at, outId).0.outbox != s.outbox
    ensures var t := D.PhaseTx(s, trip, courier, phase, at, outId).0;
            |t.outbox| == |s.outbox| + 1 && (O.TargetOf(t.outbox[|s.outbox|].kind).BadTarget? <==> phase == D.Blank)
  {
  }

  /** A blank phase on a completed trip is accepted and emits an event that the order service can never handle. */
  lemma BlankPhaseSlipsThrough(s: D.Tables, trip: Id, at: int, outId: Id, book: O.Tables, later: int, id1: Id, id2: Id)
    requires trip in s.trips && s.trips[trip].status == D.Completed && !D.Used(s.outbox, outId)
    ensures var (t, fault) := D.PhaseTx(s, trip, s.trips[trip].courier, D.Blank, at, outId);
            && fault == None && |t.outbox| == |s.outbox| + 1
            && O.HandleTx(book, t.outbox[|s.outbox|], later, id1, id2, true) == (book, O.Faulted(O.UnsupportedTarget))
  {
  }
}
