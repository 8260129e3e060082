/** The transactions of the delivery service, run step by step over mutable tables. */
module DeliveryStore {
  import opened Prelude
  import opened Delivery

  /** The candidate loop of `assign`. */
  method PickCourier(couriers: map<Id, Courier>, candidates: seq<Id>) returns (found: Option<Id>)
    ensures found == FirstAvailable(couriers, candidates)
  {
    for i := 0 to |candidates|
      invariant FirstAvailable(couriers, candidates) == FirstAvailable(couriers, candidates[i..])
    {
      if candidates[i] in couriers && couriers[candidates[i]].status == Available {
        return Some(candidates[i]);
      }
    }
    return None;
  }

  class DeliveryDb {
    var couriers: map<Id, Courier>
    var trips: map<Id, Trip>
    var inbox: set<Id>
    var outbox: seq<Event>
    var predictions: seq<Prediction>

    ghost function View(): Tables
      reads this
    {
      Tables(couriers, trips, inbox, outbox, predictions)
    }

    method Assign(eventId: Id, order: Id, candidates: Option<seq<Id>>, trip: Id, now: int, outId: Id, commits: bool) returns (outcome: Outcome)
      modifies this
      ensures (View(), outcome) == AssignTx(old(View()), eventId, order, candidates, trip, now, outId, commits)
    {
      if candidates.None? || |candidates.value| == 0 {
        return Faulted(NoCandidates);
      }
      if eventId in inbox {
        return Duplicate;
      }
      var courier := PickCourier(couriers, candidates.value);
      if courier.None? {
        return Faulted(AllBusy);
      }
      var repeated := exists t :: t in trips && trips[t].order == order;
      var used := exists i :: 0 <= i < |outbox| && outbox[i].id == outId;
      if trip in trips || repeated || used {
        return Faulted(ConstraintViolated);
      }
      if !commits {
        return Faulted(CommitFailed);
      }
      inbox := inbox + {eventId};
      couriers := couriers[courier.value := couriers[courier.value].(status := OnDelivery)];
      trips := trips[trip := Trip(order, courier.value, Delivery.Assigned, now, None, None, 0, None)];
      outbox := outbox + [Event(outId, order, TripAssigned)];
      return Done;
    }

    method Cancel(eventId: Id, order: Id, outId: Id, commits: bool) returns (outcome: Outcome)
      requires UniqueOrders(trips)
      modifies this
      ensures (View(), outcome) == CancelTx(old(View()), eventId, order, outId, commits)
    {
      if eventId in inbox {
        return Duplicate;
      }
      var trip := None;
      if exists t :: t in trips && trips[t].order == order {
        var t :| t in trips && trips[t].order == order;
        trip := Some(t);
      }
      if trip.None? || Terminal(trips[trip.value].status) {
        if commits {
          inbox := inbox + {eventId};
          return Done;
        }
        return Faulted(CommitFailed);
      }
      if exists i :: 0 <= i < |outbox| && outbox[i].id == outId {
        return Faulted(ConstraintViolated);
      }
      if !commits {
        return Faulted(CommitFailed);
      }
      inbox := inbox + {eventId};
      couriers := WithStatus(couriers, trips[trip.value].courier, Available);
      trips := trips[trip.value := trips[trip.value].(status := Delivery.Cancelled)];
      outbox := outbox + [Event(outId, order, TripCancelled)];
      return Done;
    }

    /** `applyPhase` inside the transaction of `UpdateLocation`, on values the caller commits or drops. */
    method ApplyPhase(s: Tables, trip: Id, courier: Id, phase: Phase, at: int, outId: Id) returns (t: Tables, fault: Option<Fault>)
      ensures (t, fault) == PhaseTx(s, trip, courier, phase, at, outId)
    {
      t, fault := s, None;
      if trip !in s.trips {
        return;
      }
      var row := s.trips[trip];
      if row.courier != courier {
        return s, Some(CourierMismatch);
      }
      if phase == Idle || phase == Towards(row.status) {
        return;
      }
      if !ValidTransition(row.status, phase) {
        return s, Some(InvalidTransition);
      }
      if exists i :: 0 <= i < |s.outbox| && s.outbox[i].id == outId {
        return s, Some(ConstraintViolated);
      }
      var kind := StatusChanged(None);
      if phase.Towards? {
        t := t.(trips := t.trips[trip := Advanced(row, phase.status, at)]);
        kind := StatusChanged(Some(phase.status));
        if phase.status == Delivery.Completed {
          t := t.(couriers := WithStatus(t.couriers, courier, Available));
          t := t.(predictions := Closed(t.predictions, trip, at));
          var first := FindPrediction(t.predictions, trip, Confirmed);
          kind := TripCompleted(CutSeconds(at - row.assignedAt), if first.Some? then Some(first.value.seconds) else None, false);
        }
      }
      t := t.(outbox := t.outbox + [Event(outId, row.order, kind)]);
    }

    method UpdateLocation(eventId: Id, l: Location, outId: Id, commits: bool) returns (outcome: Outcome)
      modifies this
      ensures (View(), outcome) == LocationTx(old(View()), eventId, l, outId, commits)
    {
      if eventId in inbox {
        return Duplicate;
      }
      if l.courier !in couriers || couriers[l.courier].sequence >= l.sequence {
        if commits {
          inbox := inbox + {eventId};
          return Done;
        }
        return Faulted(CommitFailed);
      }
      var row := couriers[l.courier].(latitude := l.latitude, longitude := l.longitude, sequence := l.sequence, lastSeen := l.recordedAt);
      var t := Tables(couriers[l.courier := row], trips, inbox + {eventId}, outbox, predictions);
      if l.trip.Some? {
        var fault;
        t, fault := ApplyPhase(t, l.trip.value, l.courier, l.phase, l.recordedAt, outId);
        if fault.Some? {
          return Faulted(fault.value);
        }
      }
      if !commits {
        return Faulted(CommitFailed);
      }
      couriers, trips, inbox, outbox, predictions := t.couriers, t.trips, t.inbox, t.outbox, t.predictions;
      return Done;
    }

    method Delay(trip: Id, outId: Id, commits: bool) returns (outcome: Outcome)
      modifies this
      ensures (View(), outcome) == DelayTx(old(View()), trip, outId, commits)
    {
      if trip !in trips {
        return Faulted(NotFound);
      }
      var row := trips[trip];
      if row.status == Delivery.Completed || row.status == Delivery.Cancelled {
        return Faulted(TerminalTrip);
      }
      if exists i :: 0 <= i < |outbox| && outbox[i].id == outId {
        return Faulted(ConstraintViolated);
      }
      if !commits {
        return Faulted(CommitFailed);
      }
      var seconds := row.delaySeconds + 10;
      if seconds > 600 {
        seconds := 600;
      }
      var eta := row.eta;
      if eta.Some? {
        eta := Some(eta.value + 10);
      }
      trips := trips[trip := row.(delaySeconds := seconds, eta := eta)];
      outbox := outbox + [Event(outId, row.order, DelayInjected)];
      return Done;
    }

    method Complete(trip: Id, now: int, outId: Id, commits: bool) returns (outcome: Outcome)
      modifies this
      ensures (View(), outcome) == CompleteTx(old(View()), trip, now, outId, commits)
    {
      if trip !in trips {
        return Faulted(NotFound);
      }
      var row := trips[trip];
      if row.status == Delivery.Completed || row.status == Delivery.Cancelled {
        return Faulted(TerminalTrip);
      }
      if exists i :: 0 <= i < |outbox| && outbox[i].id == outId {
        return Faulted(ConstraintViolated);
      }
      if !commits {
        return Faulted(CommitFailed);
      }
      trips := trips[trip := row.(status := Delivery.Completed, completedAt := Some(now))];
      couriers := WithStatus(couriers, row.courier, Available);
      predictions := Closed(predictions, trip, now);
      outbox := outbox + [Event(outId, row.order, TripCompleted(CutSeconds(now - row.assignedAt), None, true))];
      return Done;
    }

    method Save(trip: Id, stage: Stage, seconds: int, at: int, commits: bool) returns (outcome: Outcome)
      modifies this
      ensures (View(), outcome) == SaveTx(old(View()), trip, stage, seconds, at, commits)
    {
      var taken := FindPrediction(predictions, trip, stage);
      if trip !in trips || taken.Some? {
        return if commits then Done else Faulted(CommitFailed);
      }
      if seconds <= 0 {
        return Faulted(ConstraintViolated);
      }
      if !commits {
        return Faulted(CommitFailed);
      }
      var row := trips[trip];
      var actual := None;
      if row.completedAt.Some? {
        actual := Some(ActualSeconds(row.completedAt.value, at));
      }
      predictions := predictions + [Prediction(trip, stage, seconds, at, actual, row.completedAt)];
      trips := trips[trip := row.(eta := Some(seconds))];
      return Done;
    }
  }
}
