/**
 What one committed transaction of the order service does to an order, status by status.

 The statuses, fields and events are written out here, so the tables of service.go and consumer.go can be read off
 these statements without the functions that compute them.
 */
module OrderRules {
  import opened Prelude
  import opened Orders
  import Catalog
  import Delivery

  /** The outbox takes the two ids. */
  ghost predicate FreshPair(outbox: seq<Event>, x: Id, y: Id) {
    x != y && forall i :: 0 <= i < |outbox| ==> outbox[i].id != x && outbox[i].id != y
  }

  /** Order `o` has gone to `next` at time `at`, and one history row says so; no other field, order or key has changed. */
  ghost predicate Moved(t: Tables, u: Tables, o: Id, next: Status, at: int) {
    && o in t.orders && o in u.orders
    && u.orders[o] == t.orders[o].(status := next)
    && u.orders.Keys == t.orders.Keys && (forall p :: p in t.orders && p != o ==> u.orders[p] == t.orders[p])
    && u.keys == t.keys
    && |u.history| == |t.history| + 1 && u.history[..|t.history|] == t.history
    && var row := u.history[|t.history|];
       row.order == o && row.previous == t.orders[o].status && row.next == next && row.at == at
  }

  /** The outbox has grown by one event of order `o`. */
  ghost predicate Announces(before: seq<Event>, after: seq<Event>, o: Id, id: Id, kind: Kind) {
    |after| == |before| + 1 && after[..|before|] == before
    && after[|before|].id == id && after[|before|].order == o && after[|before|].kind == kind
  }

  ghost predicate AnnouncesTwo(before: seq<Event>, after: seq<Event>, o: Id, id: Id, kind: Kind, id2: Id, kind2: Kind) {
    |after| == |before| + 2 && after[..|before|] == before
    && after[|before|].id == id && after[|before|].order == o && after[|before|].kind == kind
    && after[|before| + 1].id == id2 && after[|before| + 1].order == o && after[|before| + 1].kind == kind2
  }

  // ------------------------------------------------------------------ Cancel

  /** Which orders can be cancelled: created and confirmed ones, after an answered release. A cancelled order stays as it
      is; an order in assembling, delivering or delivered is refused and nothing is written. */
  lemma CancelDecides(t: Tables, o: Id, released: bool, at: int, outId: Id, outId2: Id, commits: bool)
    ensures var (u, outcome) := CancelTx(t, o, released, at, outId, outId2, commits);
            && (o !in t.orders ==> outcome == Faulted(NotFound))
            && (o in t.orders && t.orders[o].status in {Assembling, Delivering, Delivered} ==> outcome == Faulted(NotCancellable))
            && (o in t.orders && t.orders[o].status == Cancelled ==> u == t && outcome == if commits then Done else Faulted(CommitFailed))
            && (o in t.orders && t.orders[o].status in {Created, Confirmed} ==>
                  && (!released ==> outcome == Faulted(ReleaseFailed))
                  && (released && !FreshPair(t.outbox, outId, outId2) ==> outcome == Faulted(ConstraintViolated))
                  && (released && FreshPair(t.outbox, outId, outId2) && !commits ==> outcome == Faulted(CommitFailed))
                  && (released && FreshPair(t.outbox, outId, outId2) && commits ==>
                        && outcome == Done && Moved(t, u, o, Cancelled, at) && u.inbox == t.inbox
                        && AnnouncesTwo(t.outbox, u.outbox, o, outId, OrderCancelled(t.orders[o].status),
                                        outId2, StatusChanged(t.orders[o].status, Cancelled))))
            && (outcome.Faulted? ==> u == t)
  {
    if o in t.orders && t.orders[o].status in {Created, Confirmed} && released && commits {
      if FreshPair(t.outbox, outId, outId2) {
        assert AfterCancel(t, o, at, outId, outId2).outbox[..|t.outbox|] == t.outbox;
        assert AfterCancel(t, o, at, outId, outId2).history[..|t.history|] == t.history;
      }
    }
  }

  // ------------------------------------------------------------------ handle

  /** The status a delivery event asks for, with every kind of event written out. */
  ghost predicate Asks(kind: Delivery.Kind, target: Status) {
    || (kind == Delivery.TripAssigned && target == Confirmed)
    || (kind == Delivery.StatusChanged(Some(Delivery.Assembling)) && target == Assembling)
    || (kind == Delivery.StatusChanged(Some(Delivery.Delivering)) && target == Delivering)
    || (kind.TripCompleted? && target == Delivered)
  }

  /** The moves of a delivery event: one rung up, or, on completion, straight to delivered from any status above created. */
  ghost predicate Follows(current: Status, target: Status) {
    (current, target) in {(Created, Confirmed), (Confirmed, Assembling), (Assembling, Delivering),
                          (Confirmed, Delivered), (Assembling, Delivered), (Delivering, Delivered)}
  }

  /** Which events ask for nothing and which are unsupported. */
  lemma HandleReadsTheKind(t: Tables, e: Delivery.Event, at: int, outId: Id, outId2: Id, commits: bool)
    ensures var (u, outcome) := HandleTx(t, e, at, outId, outId2, commits);
            && (outcome == Ignored <==> e.kind == Delivery.TripCancelled || e.kind == Delivery.DelayInjected)
            && (outcome == Faulted(UnsupportedTarget) <==>
                  e.kind.StatusChanged? && e.kind.status !in {Some(Delivery.Assembling), Some(Delivery.Delivering)})
            && (outcome == Ignored || outcome == Duplicate || outcome.Faulted? ==> u == t)
            && (outcome == Duplicate <==> e.id in t.inbox && exists target :: Asks(e.kind, target))
  {
    match e.kind
    case TripAssigned => assert Asks(e.kind, Confirmed);
    case StatusChanged(status) =>
      if status == Some(Delivery.Assembling) {
        assert Asks(e.kind, Assembling);
      } else if status == Some(Delivery.Delivering) {
        assert Asks(e.kind, Delivering);
      }
    case TripCompleted(_, _, _) => assert Asks(e.kind, Delivered);
    case TripCancelled =>
    case DelayInjected =>
  }

  lemma HandleMovesTheOrder(t: Tables, e: Delivery.Event, target: Status, at: int, outId: Id, outId2: Id)
    requires Asks(e.kind, target) && e.id !in t.inbox && e.order in t.orders && Follows(t.orders[e.order].status, target)
    requires FreshPair(t.outbox, outId, outId2)
    ensures var (u, outcome) := HandleTx(t, e, at, outId, outId2, true);
            var changed := StatusChanged(t.orders[e.order].status, target);
            && outcome == Done && Moved(t, u, e.order, target, at) && u.inbox == t.inbox + {e.id}
            && if target == Confirmed then AnnouncesTwo(t.outbox, u.outbox, e.order, outId, OrderConfirmed, outId2, changed)
               else Announces(t.outbox, u.outbox, e.order, outId2, changed)
  {
    var u := HandleTx(t, e, at, outId, outId2, true).0;
    assert u == AfterHandle(t, e, target, at, outId, outId2);
    assert u.outbox[..|t.outbox|] == t.outbox && u.history[..|t.history|] == t.history;
  }

  /** What a new delivery event does to its order, status by status. */
  lemma {:induction false} HandleDecides(t: Tables, e: Delivery.Event, target: Status, at: int, outId: Id, outId2: Id, commits: bool)
    requires Asks(e.kind, target) && e.id !in t.inbox
    ensures var (u, outcome) := HandleTx(t, e, at, outId, outId2, commits);
            && (e.order !in t.orders ==> outcome == Faulted(NotFound))
            && (e.order in t.orders ==>
                  var current := t.orders[e.order].status;
                  if current == target || current == Cancelled then
                    if commits then outcome == Done && u == t.(inbox := t.inbox + {e.id}) else outcome == Faulted(CommitFailed)
                  else if !Follows(current, target) then outcome == Faulted(InvalidTransition)
                  else if !FreshPair(t.outbox, outId, outId2) then outcome == Faulted(ConstraintViolated)
                  else if !commits then outcome == Faulted(CommitFailed)
                  else
                    && outcome == Done && Moved(t, u, e.order, target, at) && u.inbox == t.inbox + {e.id}
                    && if target == Confirmed then
                         AnnouncesTwo(t.outbox, u.outbox, e.order, outId, OrderConfirmed, outId2, StatusChanged(current, Confirmed))
                       else Announces(t.outbox, u.outbox, e.order, outId2, StatusChanged(current, target)))
            && (outcome.Faulted? ==> u == t)
  {
    assert TargetOf(e.kind) == To(target);
    if e.order in t.orders {
      var current := t.orders[e.order].status;
      assert Follows(current, target) <==> ValidTransition(current, target);
      if Follows(current, target) && FreshPair(t.outbox, outId, outId2) && commits {
        HandleMovesTheOrder(t, e, target, at, outId, outId2);
      }
    }
  }

  // ------------------------------------------------------------------ prepareIdempotency and persistOrder

  /** What a key answers: another payload is refused, a completed key gives its order, one in progress its attempt, and an
      unknown key a row with a new attempt; only the last writes. */
  lemma PrepareDecides(t: Tables, key: Id, request: Checkout, newAttempt: Id)
    ensures var (u, prepared) := PrepareTx(t, key, request, newAttempt);
            if key in t.keys then
              && u == t
              && (prepared == KeyReused <==> t.keys[key].request.user != request.user || t.keys[key].request.cartVersion != request.cartVersion)
              && (t.keys[key].request == request && t.keys[key].response.Some? ==> prepared == Replay(t.keys[key].response.value))
              && (t.keys[key].request == request && t.keys[key].response.None? ==> prepared == Proceed(t.keys[key].attempt))
            else
              && prepared == Proceed(newAttempt)
              && u.orders == t.orders && u.history == t.history && u.inbox == t.inbox && u.outbox == t.outbox
              && (forall k :: k in u.keys <==> k in t.keys || k == key) && (forall k :: k in t.keys ==> u.keys[k] == t.keys[k])
              && u.keys[key].request == request && u.keys[key].attempt == newAttempt && u.keys[key].response == None
  {
  }

  /** The rows of the new order pass the constraints of the order and item tables. */
  ghost predicate Fits(t: Tables, reservation: Catalog.Response, newId: Id, outId: Id) {
    && newId !in t.orders && (forall o :: o in t.orders ==> t.orders[o].reservation != reservation.reservation)
    && reservation.total >= 0 && (forall i :: 0 <= i < |t.outbox| ==> t.outbox[i].id != outId)
    && (forall i :: 0 <= i < |reservation.items| ==> reservation.items[i].quantity > 0 && reservation.items[i].price >= 0)
    && (forall i, j :: 0 <= i < j < |reservation.items| ==> reservation.items[i].product != reservation.items[j].product)
  }

  /** The order a checkout stores. */
  ghost predicate IsNewOrder(order: Order, newId: Id, request: Checkout, reservation: Catalog.Response, now: int) {
    && order.id == newId && order.user == request.user && order.cartVersion == request.cartVersion && order.status == Created
    && order.reservation == reservation.reservation && order.items == reservation.items
    && order.total == reservation.total && order.currency == reservation.currency && order.createdAt == now
  }

  /** What a committed persist leaves: the order, its order.created event, and the completed key row, each written out;
      otherwise nothing. */
  lemma PersistDecides(t: Tables, key: Id, request: Checkout, reservation: Catalog.Response, newId: Id, now: int, outId: Id, commits: bool)
    ensures var (u, outcome) := PersistTx(t, key, request, reservation, newId, now, outId, commits);
            && (outcome == Done <==> Fits(t, reservation, newId, outId) && commits)
            && (outcome == Faulted(ConstraintViolated) <==> !Fits(t, reservation, newId, outId))
            && (outcome == Faulted(CommitFailed) <==> Fits(t, reservation, newId, outId) && !commits)
            && (outcome != Done ==> u == t)
            && (outcome == Done ==>
                  && newId in u.orders && IsNewOrder(u.orders[newId], newId, request, reservation, now)
                  && (forall o :: o in u.orders <==> o in t.orders || o == newId) && (forall o :: o in t.orders ==> u.orders[o] == t.orders[o])
                  && Announces(t.outbox, u.outbox, newId, outId, OrderCreated(u.orders[newId]))
                  && u.history == t.history && u.inbox == t.inbox
                  && u.keys.Keys == t.keys.Keys && (forall k :: k in t.keys && k != key ==> u.keys[k] == t.keys[k])
                  && (key in t.keys ==>
                        && u.keys[key].request == t.keys[key].request && u.keys[key].attempt == t.keys[key].attempt
                        && u.keys[key].response == Some(u.orders[newId])))
  {
    FitsIsNoConflict(t, reservation, newId, outId);
    var u := PersistTx(t, key, request, reservation, newId, now, outId, commits).0;
    if Fits(t, reservation, newId, outId) && commits {
      assert u.outbox[..|t.outbox|] == t.outbox;
    }
  }

  lemma FitsIsNoConflict(t: Tables, reservation: Catalog.Response, newId: Id, outId: Id)
    ensures Fits(t, reservation, newId, outId) <==>
              newId !in t.orders && !ReservationTaken(t.orders, reservation.reservation) && reservation.total >= 0
              && ItemsFit(reservation.items) && !Used(t.outbox, outId)
  {
  }
}
