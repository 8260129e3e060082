/**
 What one committed transaction of the delivery service does, status by status and field by field.

 Statuses, fields, durations and events are written out here, without the functions that compute them.
 */
module DeliveryRules {
  import opened Prelude
  import opened Delivery

  // ------------------------------------------------------------------ Vocabulary

  ghost predicate FreshId(outbox: seq<Event>, id: Id) {
    forall i :: 0 <= i < |outbox| ==> outbox[i].id != id
  }

  /** The outbox has grown by one event. */
  ghost predicate Announces(before: seq<Event>, after: seq<Event>, id: Id, order: Id, kind: Kind) {
    |after| == |before| + 1 && after[..|before|] == before
    && after[|before|].id == id && after[|before|].order == order && after[|before|].kind == kind
  }

  /** Only trip `t` has another row. */
  ghost predicate OnlyTrip(before: map<Id, Trip>, after: map<Id, Trip>, t: Id) {
    t in after && (forall u :: u in after <==> u in before || u == t) && (forall u :: u in before && u != t ==> after[u] == before[u])
  }

  /** Only courier `c` has another row, if it has one, and there only the status is new. */
  ghost predicate OnlyCourier(before: map<Id, Courier>, after: map<Id, Courier>, c: Id, status: CourierStatus) {
    && after.Keys == before.Keys && (forall d :: d in before && d != c ==> after[d] == before[d])
    && (c in before ==> after[c].status == status && after[c].sequence == before[c].sequence && after[c].lastSeen == before[c].lastSeen
                        && after[c].latitude == before[c].latitude && after[c].longitude == before[c].longitude)
  }

  /** `seconds` is the duration in whole seconds, cut towards zero. */
  ghost predicate Cuts(us: int, seconds: int) {
    if us >= 0 then seconds * 1_000_000 <= us < (seconds + 1) * 1_000_000
    else (seconds - 1) * 1_000_000 < us <= seconds * 1_000_000
  }

  /** `seconds` is the interval from prediction to completion in whole seconds, rounded to nearest (a half away from
      zero), and zero if the completion came first. */
  ghost predicate Measures(predictedAt: int, completedAt: int, seconds: int) {
    if completedAt <= predictedAt then seconds == 0
    else 2 * seconds * 1_000_000 - 1_000_000 <= 2 * (completedAt - predictedAt) < 2 * seconds * 1_000_000 + 1_000_000
  }

  lemma CutSecondsCuts(us: int)
    ensures Cuts(us, CutSeconds(us))
  {
  }

  lemma ActualSecondsMeasures(predictedAt: int, completedAt: int)
    ensures Measures(predictedAt, completedAt, ActualSeconds(completedAt, predictedAt))
  {
  }

  /** The predictions of `t` are closed at `at` with their measured durations; all others are as they were. */
  ghost predicate Closes(before: seq<Prediction>, after: seq<Prediction>, t: Id, at: int) {
    && |after| == |before|
    && forall i :: 0 <= i < |before| ==>
         if before[i].trip != t then after[i] == before[i]
         else
           && after[i].trip == t && after[i].stage == before[i].stage && after[i].seconds == before[i].seconds
           && after[i].predictedAt == before[i].predictedAt && after[i].completedAt == Some(at)
           && after[i].actual.Some? && Measures(before[i].predictedAt, at, after[i].actual.value)
  }

  lemma ClosedCloses(predictions: seq<Prediction>, t: Id, at: int)
    ensures Closes(predictions, Closed(predictions, t, at), t, at)
  {
    forall i | 0 <= i < |predictions| && predictions[i].trip == t
      ensures Measures(predictions[i].predictedAt, at, ActualSeconds(at, predictions[i].predictedAt))
    {
      ActualSecondsMeasures(predictions[i].predictedAt, at);
    }
  }

  // ------------------------------------------------------------------ assign

  /** Place `k` holds the first candidate with an available courier row. */
  ghost predicate FirstFree(couriers: map<Id, Courier>, candidates: seq<Id>, k: int) {
    && 0 <= k < |candidates| && candidates[k] in couriers && couriers[candidates[k]].status == Available
    && forall j :: 0 <= j < k ==> candidates[j] !in couriers || couriers[candidates[j]].status != Available
  }

  lemma {:induction false} FoundIsFirstFree(couriers: map<Id, Courier>, candidates: seq<Id>) returns (k: int)
    requires FirstAvailable(couriers, candidates).Some?
    ensures FirstFree(couriers, candidates, k) && candidates[k] == FirstAvailable(couriers, candidates).value
  {
    if candidates[0] in couriers && couriers[candidates[0]].status == Available {
      k := 0;
    } else {
      k := FoundIsFirstFree(couriers, candidates[1..]);
      forall j | 0 <= j < k + 1 ensures candidates[j] !in couriers || couriers[candidates[j]].status != Available {
        if j > 0 {
          assert candidates[j] == candidates[1..][j - 1];
        }
      }
      k := k + 1;
    }
  }

  /** The candidate search finds the first available candidate, the nearest one of a sorted list, and finds one whenever
      there is one. */
  lemma {:induction false} NearestFreeCandidateIsFound(couriers: map<Id, Courier>, candidates: seq<Id>)
    ensures forall c :: FirstAvailable(couriers, candidates) == Some(c) <==>
                        exists k :: FirstFree(couriers, candidates, k) && candidates[k] == c
    ensures FirstAvailable(couriers, candidates) == None <==>
              forall j :: 0 <= j < |candidates| ==> candidates[j] !in couriers || couriers[candidates[j]].status != Available
  {
    if FirstAvailable(couriers, candidates).Some? {
      var k0 := FoundIsFirstFree(couriers, candidates);
      forall k | FirstFree(couriers, candidates, k) ensures k == k0 {
      }
    } else {
      forall j | 0 <= j < |candidates| ensures candidates[j] !in couriers || couriers[candidates[j]].status != Available {
        assert candidates[j] in candidates;
      }
    }
  }

  /** The rows a committed assignment writes for courier `c`. */
  ghost predicate Assigns(s: Tables, u: Tables, eventId: Id, order: Id, c: Id, trip: Id, now: int, outId: Id) {
    && OnlyTrip(s.trips, u.trips, trip) && trip !in s.trips
    && u.trips[trip].order == order && u.trips[trip].courier == c && u.trips[trip].status == Assigned
    && u.trips[trip].assignedAt == now && u.trips[trip].startedAt == None && u.trips[trip].completedAt == None
    && u.trips[trip].delaySeconds == 0 && u.trips[trip].eta == None
    && c in s.couriers && OnlyCourier(s.couriers, u.couriers, c, OnDelivery)
    && u.inbox == s.inbox + {eventId} && u.predictions == s.predictions
    && Announces(s.outbox, u.outbox, outId, order, TripAssigned)
  }

  /** What an order.created event leads to: a trip for the first available candidate, or nothing at all. */
  lemma {:induction false} AssignDecides(s: Tables, eventId: Id, order: Id, candidates: Option<seq<Id>>, trip: Id, now: int, outId: Id, commits: bool)
    ensures var (u, outcome) := AssignTx(s, eventId, order, candidates, trip, now, outId, commits);
            if candidates == None || candidates == Some([]) then outcome == Faulted(NoCandidates) && u == s
            else if eventId in s.inbox then outcome == Duplicate && u == s
            else if forall k :: !FirstFree(s.couriers, candidates.value, k) then outcome == Faulted(AllBusy) && u == s
            else if trip in s.trips || (exists t :: t in s.trips && s.trips[t].order == order) || !FreshId(s.outbox, outId) then
              outcome == Faulted(ConstraintViolated) && u == s
            else if !commits then outcome == Faulted(CommitFailed) && u == s
            else
              && outcome == Done
              && exists k :: FirstFree(s.couriers, candidates.value, k) && Assigns(s, u, eventId, order, candidates.value[k], trip, now, outId)
  {
    if candidates.Some? && candidates.value != [] && eventId !in s.inbox {
      NearestFreeCandidateIsFound(s.couriers, candidates.value);
      if FirstAvailable(s.couriers, candidates.value).Some? {
        var k := FoundIsFirstFree(s.couriers, candidates.value);
        var u := AfterAssign(s, eventId, order, candidates.value[k], trip, now, outId);
        assert u.outbox[..|s.outbox|] == s.outbox;
        assert trip !in s.trips ==> Assigns(s, u, eventId, order, candidates.value[k], trip, now, outId);
      }
    }
  }

  // ------------------------------------------------------------------ cancel

  /** What an order.cancelled event does: the order's trip, if assigned, assembling or delivering, is cancelled and its
      courier available again; a completed, cancelled or missing trip only marks the event. */
  lemma {:induction false} CancelDecides(s: Tables, eventId: Id, order: Id, outId: Id, commits: bool)
    requires UniqueOrders(s.trips)
    ensures var (u, outcome) := CancelTx(s, eventId, order, outId, commits);
            && (eventId in s.inbox <==> outcome == Duplicate)
            && (outcome != Done ==> u == s)
            && (eventId !in s.inbox && (forall t :: t in s.trips && s.trips[t].order == order ==> s.trips[t].status in {Completed, Cancelled}) ==>
                  if commits then outcome == Done && u == s.(inbox := s.inbox + {eventId}) else outcome == Faulted(CommitFailed))
            && (forall t :: eventId !in s.inbox && t in s.trips && s.trips[t].order == order && s.trips[t].status in {Assigned, Assembling, Delivering} ==>
                  if !FreshId(s.outbox, outId) then outcome == Faulted(ConstraintViolated)
                  else if !commits then outcome == Faulted(CommitFailed)
                  else
                    && outcome == Done && OnlyTrip(s.trips, u.trips, t) && u.trips[t] == s.trips[t].(status := Cancelled)
                    && OnlyCourier(s.couriers, u.couriers, s.trips[t].courier, Available)
                    && u.inbox == s.inbox + {eventId} && u.predictions == s.predictions
                    && Announces(s.outbox, u.outbox, outId, order, TripCancelled))
  {
    if HasTrip(s.trips, order) {
      var trip := TripOf(s.trips, order);
      assert AfterCancel(s, eventId, order, trip, outId).outbox[..|s.outbox|] == s.outbox;
    }
  }

  // ------------------------------------------------------------------ updateLocation and applyPhase

  /** The one next phase of a status; a terminal trip takes the blank phase. */
  ghost predicate NextPhase(current: Status, phase: Phase) {
    (current, phase) in {(Assigned, Towards(Assembling)), (Assembling, Towards(Delivering)), (Delivering, Towards(Completed)),
                         (Completed, Blank), (Cancelled, Blank)}
  }

  /** The trip row after an accepted phase: the status, the first start, the completion, and nothing else. */
  ghost predicate Steps(row: Trip, after: Trip, phase: Phase, at: int) {
    && after.order == row.order && after.courier == row.courier && after.assignedAt == row.assignedAt
    && after.delaySeconds == row.delaySeconds && after.eta == row.eta
    && after.status == (if phase.Towards? then phase.status else row.status)
    && after.startedAt == (if phase == Towards(Delivering) && row.startedAt == None then Some(at) else row.startedAt)
    && after.completedAt == (if phase == Towards(Completed) then Some(at) else row.completedAt)
  }

  /** What completion announces: the seconds since assignment, cut towards zero, the first stage's prediction if there is
      one, and whether the operator did it. */
  ghost predicate TellsCompletion(kind: Kind, row: Trip, predictions: seq<Prediction>, trip: Id, at: int) {
    && kind.TripCompleted? && !kind.byOperator && Cuts(at - row.assignedAt, kind.actualSeconds)
    && (kind.predictedSeconds.None? <==> forall p :: p in predictions ==> p.trip != trip || p.stage != Confirmed)
    && (kind.predictedSeconds.Some? ==>
          exists p :: p in predictions && p.trip == trip && p.stage == Confirmed && p.seconds == kind.predictedSeconds.value)
  }

  /** The tables after an accepted phase. */
  ghost predicate Advances(s: Tables, u: Tables, trip: Id, phase: Phase, at: int, outId: Id)
    requires trip in s.trips
  {
    && OnlyTrip(s.trips, u.trips, trip) && Steps(s.trips[trip], u.trips[trip], phase, at) && u.inbox == s.inbox
    && |u.outbox| == |s.outbox| + 1
    && Announces(s.outbox, u.outbox, outId, s.trips[trip].order, u.outbox[|s.outbox|].kind)
    && if phase == Towards(Completed) then
         && OnlyCourier(s.couriers, u.couriers, s.trips[trip].courier, Available) && Closes(s.predictions, u.predictions, trip, at)
         && TellsCompletion(u.outbox[|s.outbox|].kind, s.trips[trip], s.predictions, trip, at)
       else
         && u.couriers == s.couriers && u.predictions == s.predictions
         && u.outbox[|s.outbox|].kind == StatusChanged(if phase.Towards? then Some(phase.status) else None)
  }

  lemma {:induction false} FirstPredictionOutlivesClosing(predictions: seq<Prediction>, trip: Id, at: int)
    ensures var found, was := FindPrediction(Closed(predictions, trip, at), trip, Confirmed), FindPrediction(predictions, trip, Confirmed);
            && (found.Some? <==> was.Some?) && (found.Some? ==> found.value.seconds == was.value.seconds)
  {
    if predictions != [] && !(predictions[0].trip == trip && predictions[0].stage == Confirmed) {
      assert Closed(predictions, trip, at)[1..] == Closed(predictions[1..], trip, at);
      FirstPredictionOutlivesClosing(predictions[1..], trip, at);
    }
  }

  lemma CompletionIsTold(row: Trip, predictions: seq<Prediction>, trip: Id, at: int)
    ensures TellsCompletion(CompletionKind(row, Closed(predictions, trip, at), trip, at), row, predictions, trip, at)
  {
    CutSecondsCuts(at - row.assignedAt);
    FirstPredictionOutlivesClosing(predictions, trip, at);
    var was := FindPrediction(predictions, trip, Confirmed);
    if was.Some? {
      assert was.value in predictions;
    }
  }

  lemma AcceptedPhaseAdvances(s: Tables, trip: Id, phase: Phase, at: int, outId: Id)
    requires trip in s.trips && (phase.Towards? || phase == Blank)
    ensures Advances(s, AfterPhase(s, trip, phase, at, outId), trip, phase, at, outId)
  {
    var u := AfterPhase(s, trip, phase, at, outId);
    assert u.outbox[..|s.outbox|] == s.outbox;
    if phase == Towards(Completed) {
      CompletionIsTold(s.trips[trip], s.predictions, trip, at);
      ClosedCloses(s.predictions, trip, at);
    }
  }

  /** What the phase of a location event does to its trip. */
  lemma {:induction false} PhaseDecides(s: Tables, trip: Id, courier: Id, phase: Phase, at: int, outId: Id)
    ensures var (u, fault) := PhaseTx(s, trip, courier, phase, at, outId);
            if trip !in s.trips then u == s && fault == None
            else if s.trips[trip].courier != courier then u == s && fault == Some(CourierMismatch)
            else if phase == Idle || phase == Towards(s.trips[trip].status) then u == s && fault == None
            else if !NextPhase(s.trips[trip].status, phase) then u == s && fault == Some(InvalidTransition)
            else if !FreshId(s.outbox, outId) then u == s && fault == Some(ConstraintViolated)
            else fault == None && Advances(s, u, trip, phase, at, outId)
  {
    if trip in s.trips && NextPhase(s.trips[trip].status, phase) {
      AcceptedPhaseAdvances(s, trip, phase, at, outId);
    }
    if trip in s.trips {
      assert NextPhase(s.trips[trip].status, phase) <==> ValidTransition(s.trips[trip].status, phase);
    }
  }

  /** The courier row shows the event: place, sequence and time; its status stays. */
  ghost predicate Sees(s: Tables, u: Tables, eventId: Id, l: Location) {
    && l.courier in s.couriers && u.couriers.Keys == s.couriers.Keys
    && (forall c :: c in s.couriers && c != l.courier ==> u.couriers[c] == s.couriers[c])
    && u.couriers[l.courier].latitude == l.latitude && u.couriers[l.courier].longitude == l.longitude
    && u.couriers[l.courier].sequence == l.sequence && u.couriers[l.courier].lastSeen == l.recordedAt
    && u.couriers[l.courier].status == s.couriers[l.courier].status
    && u.trips == s.trips && u.outbox == s.outbox && u.predictions == s.predictions && u.inbox == s.inbox + {eventId}
  }

  /** What a location event does: a stale one or one of an unknown courier only marks its id; a newer one moves the
      courier, and then its phase is applied to the trip, all or nothing. */
  lemma {:induction false} LocationDecides(s: Tables, eventId: Id, l: Location, outId: Id, commits: bool)
    ensures var (u, outcome) := LocationTx(s, eventId, l, outId, commits);
            if eventId in s.inbox then u == s && outcome == Duplicate
            else if l.courier !in s.couriers || l.sequence <= s.couriers[l.courier].sequence then
              if commits then u == s.(inbox := s.inbox + {eventId}) && outcome == Done else u == s && outcome == Faulted(CommitFailed)
            else
              exists moved :: Sees(s, moved, eventId, l)
                && var (after, fault) := if l.trip == None then (moved, None) else PhaseTx(moved, l.trip.value, l.courier, l.phase, l.recordedAt, outId);
                   if fault.Some? then u == s && outcome == Faulted(fault.value)
                   else if commits then u == after && outcome == Done
                   else u == s && outcome == Faulted(CommitFailed)
  {
    if eventId !in s.inbox && Newer(s.couriers, l) {
      var moved := AfterLocation(s.(inbox := s.inbox + {eventId}), l);
      assert Sees(s, moved, eventId, l);
    }
  }

  // ------------------------------------------------------------------ Operator actions and ETA rows

  /** What the operator's delay does: ten more seconds, never beyond 600, ten more on the predicted arrival if there is one. */
  lemma DelayDecides(s: Tables, trip: Id, outId: Id, commits: bool)
    ensures var (u, outcome) := DelayTx(s, trip, outId, commits);
            if trip !in s.trips then u == s && outcome == Faulted(NotFound)
            else if s.trips[trip].status in {Completed, Cancelled} then u == s && outcome == Faulted(TerminalTrip)
            else if !FreshId(s.outbox, outId) then u == s && outcome == Faulted(ConstraintViolated)
            else if !commits then u == s && outcome == Faulted(CommitFailed)
            else
              var row := s.trips[trip];
              && outcome == Done && OnlyTrip(s.trips, u.trips, trip)
              && u.trips[trip] == row.(delaySeconds := u.trips[trip].delaySeconds, eta := u.trips[trip].eta)
              && (row.delaySeconds <= 590 ==> u.trips[trip].delaySeconds == row.delaySeconds + 10)
              && (row.delaySeconds > 590 ==> u.trips[trip].delaySeconds == 600)
              && (row.eta == None ==> u.trips[trip].eta == None)
              && (row.eta.Some? ==> u.trips[trip].eta == Some(row.eta.value + 10))
              && u.couriers == s.couriers && u.inbox == s.inbox && u.predictions == s.predictions
              && Announces(s.outbox, u.outbox, outId, row.order, DelayInjected)
  {
    if trip in s.trips {
      assert AfterDelay(s, trip, outId).outbox[..|s.outbox|] == s.outbox;
    }
  }

  /** What the operator's completion does, from any status that is not terminal. */
  lemma CompleteDecides(s: Tables, trip: Id, now: int, outId: Id, commits: bool)
    ensures var (u, outcome) := CompleteTx(s, trip, now, outId, commits);
            if trip !in s.trips then u == s && outcome == Faulted(NotFound)
            else if s.trips[trip].status in {Completed, Cancelled} then u == s && outcome == Faulted(TerminalTrip)
            else if !FreshId(s.outbox, outId) then u == s && outcome == Faulted(ConstraintViolated)
            else if !commits then u == s && outcome == Faulted(CommitFailed)
            else
              var row := s.trips[trip];
              && outcome == Done && OnlyTrip(s.trips, u.trips, trip)
              && u.trips[trip] == row.(status := Completed, completedAt := Some(now))
              && OnlyCourier(s.couriers, u.couriers, row.courier, Available)
              && Closes(s.predictions, u.predictions, trip, now) && u.inbox == s.inbox
              && |u.outbox| == |s.outbox| + 1
              && var kind := u.outbox[|s.outbox|].kind;
                 Announces(s.outbox, u.outbox, outId, row.order, kind)
                 && kind.TripCompleted? && kind.byOperator && kind.predictedSeconds == None && Cuts(now - row.assignedAt, kind.actualSeconds)
  {
    ClosedCloses(s.predictions, trip, now);
    if trip in s.trips {
      CutSecondsCuts(now - s.trips[trip].assignedAt);
      assert AfterComplete(s, trip, now, outId).outbox[..|s.outbox|] == s.outbox;
    }
  }

  /** What saving a prediction does: a second one for a trip and stage is dropped; a new one is appended, measured at once
      if the trip is completed, and becomes the trip's predicted arrival. */
  lemma SaveDecides(s: Tables, trip: Id, stage: Stage, seconds: int, at: int, commits: bool)
    ensures var (u, outcome) := SaveTx(s, trip, stage, seconds, at, commits);
            if trip !in s.trips || (exists p :: p in s.predictions && p.trip == trip && p.stage == stage) then
              u == s && outcome == if commits then Done else Faulted(CommitFailed)
            else if seconds <= 0 then u == s && outcome == Faulted(ConstraintViolated)
            else if !commits then u == s && outcome == Faulted(CommitFailed)
            else
              && outcome == Done && OnlyTrip(s.trips, u.trips, trip) && u.trips[trip] == s.trips[trip].(eta := Some(seconds))
              && u.couriers == s.couriers && u.inbox == s.inbox && u.outbox == s.outbox
              && |u.predictions| == |s.predictions| + 1 && u.predictions[..|s.predictions|] == s.predictions
              && var p := u.predictions[|s.predictions|];
                 && p.trip == trip && p.stage == stage && p.seconds == seconds && p.predictedAt == at
                 && p.completedAt == s.trips[trip].completedAt
                 && (p.actual.Some? <==> s.trips[trip].completedAt.Some?)
                 && (p.actual.Some? ==> Measures(at, s.trips[trip].completedAt.value, p.actual.value))
  {
    if trip in s.trips && s.trips[trip].completedAt.Some? {
      ActualSecondsMeasures(at, s.trips[trip].completedAt.value);
    }
    if trip in s.trips {
      assert AfterSave(s, trip, stage, seconds, at).predictions[..|s.predictions|] == s.predictions;
    }
  }
}
