/** The transactions of the order service, run step by step over mutable tables. */
module OrderStore {
  import opened Prelude
  import opened Orders
  import Catalog
  import Delivery

  /** The item loop of `persistOrder`; a violated key or check aborts the transaction. */
  method InsertItems(items: seq<Catalog.ReservedItem>) returns (fits: bool)
    ensures fits <==> ItemsFit(items)
  {
    var products: set<Id> := {};
    for i := 0 to |items|
      invariant ItemsFit(items[..i])
      invariant products == set k | 0 <= k < i :: items[k].product
    {
      var item := items[i];
      if item.product in products || item.quantity <= 0 || item.price < 0 {
        return false;
      }
      products := products + {item.product};
    }
    assert items[..|items|] == items;
    return true;
  }

  class OrderDb {
    var keys: map<Id, KeyRow>
    var orders: map<Id, Order>
    var history: seq<HistoryRow>
    var inbox: set<Id>
    var outbox: seq<Event>

    ghost function View(): Tables
      reads this
    {
      Tables(keys, orders, history, inbox, outbox)
    }

    method PrepareIdempotency(key: Id, request: Checkout, newAttempt: Id) returns (prepared: Prepared)
      modifies this
      ensures (View(), prepared) == PrepareTx(old(View()), key, request, newAttempt)
    {
      if key in keys {
        var row := keys[key];
        if row.request != request {
          return KeyReused;
        }
        if row.response.Some? {
          return Replay(row.response.value);
        }
        return Proceed(row.attempt);
      }
      keys := keys[key := KeyRow(request, newAttempt, None)];
      return Proceed(newAttempt);
    }

    method PersistOrder(key: Id, request: Checkout, reservation: Catalog.Response, newId: Id, now: int, outId: Id, commits: bool) returns (outcome: Outcome)
      modifies this
      ensures (View(), outcome) == PersistTx(old(View()), key, request, reservation, newId, now, outId, commits)
    {
      var created := Order(newId, request.user, reservation.reservation, request.cartVersion, Created,
                           reservation.items, reservation.total, reservation.currency, now);
      var taken := exists o :: o in orders && orders[o].reservation == created.reservation;
      if newId in orders || taken || created.total < 0 {
        return Faulted(ConstraintViolated);
      }
      var fits := InsertItems(created.items);
      var used := exists i :: 0 <= i < |outbox| && outbox[i].id == outId;
      if !fits || used {
        return Faulted(ConstraintViolated);
      }
      if !commits {
        return Faulted(CommitFailed);
      }
      orders := orders[newId := created];
      outbox := outbox + [Event(outId, newId, OrderCreated(created))];
      if key in keys {
        keys := keys[key := keys[key].(response := Some(created))];
      }
      return Done;
    }

    method Cancel(order: Id, released: bool, at: int, outId: Id, outId2: Id, commits: bool) returns (outcome: Outcome)
      modifies this
      ensures (View(), outcome) == CancelTx(old(View()), order, released, at, outId, outId2, commits)
    {
      if order !in orders {
        return Faulted(NotFound);
      }
      var current := orders[order].status;
      if current == Cancelled {
        return if commits then Done else Faulted(CommitFailed);
      }
      if !CanCancel(current) {
        return Faulted(NotCancellable);
      }
      if !released {
        return Faulted(ReleaseFailed);
      }
      var used := exists i :: 0 <= i < |outbox| && outbox[i].id == outId;
      var used2 := exists i :: 0 <= i < |outbox| && outbox[i].id == outId2;
      if used || used2 || outId == outId2 {
        return Faulted(ConstraintViolated);
      }
      if !commits {
        return Faulted(CommitFailed);
      }
      orders := orders[order := orders[order].(status := Cancelled)];
      history := history + [HistoryRow(order, current, Cancelled, at)];
      outbox := outbox + [Event(outId, order, OrderCancelled(current)), Event(outId2, order, StatusChanged(current, Cancelled))];
      return Done;
    }

    method Handle(e: Delivery.Event, at: int, outId: Id, outId2: Id, commits: bool) returns (outcome: Outcome)
      modifies this
      ensures (View(), outcome) == HandleTx(old(View()), e, at, outId, outId2, commits)
    {
      var target := TargetOf(e.kind);
      if target.NoTarget? {
        return Ignored;
      }
      if target.BadTarget? {
        return Faulted(UnsupportedTarget);
      }
      if e.id in inbox {
        return Duplicate;
      }
      if e.order !in orders {
        return Faulted(NotFound);
      }
      var current := orders[e.order].status;
      if current == target.status || current == Cancelled {
        if commits {
          inbox := inbox + {e.id};
          return Done;
        }
        return Faulted(CommitFailed);
      }
      if !ValidTransition(current, target.status) {
        return Faulted(InvalidTransition);
      }
      var used := exists i :: 0 <= i < |outbox| && outbox[i].id == outId;
      var used2 := exists i :: 0 <= i < |outbox| && outbox[i].id == outId2;
      if used || used2 || outId == outId2 {
        return Faulted(ConstraintViolated);
      }
      if !commits {
        return Faulted(CommitFailed);
      }
      inbox := inbox + {e.id};
      orders := orders[e.order := orders[e.order].(status := target.status)];
      history := history + [HistoryRow(e.order, current, target.status, at)];
      var announced := [Event(outId2, e.order, StatusChanged(current, target.status))];
      if e.kind.TripAssigned? {
        announced := [Event(outId, e.order, OrderConfirmed), announced[0]];
      }
      outbox := outbox + announced;
      return Done;
    }
  }
}
