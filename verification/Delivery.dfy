/**
 The delivery service: courier allocation, the delivery state machine, operator actions and ETA rows.

 Each committed transaction of consumer.go, handler.go and eta.go is a function from tables to tables (`...Tx`);
 `DeliveryDb` runs them step by step over mutable tables. A transaction that fails leaves every table as it was.
 Times are microseconds.
 */
module Delivery {
  import opened Prelude

  datatype CourierStatus = Available | OnDelivery | Offline

  datatype Courier = Courier(status: CourierStatus, latitude: real, longitude: real, sequence: int, lastSeen: int)

  datatype Status = Assigned | Assembling | Delivering | Completed | Cancelled

  datatype Trip = Trip(
    order: Id, courier: Id, status: Status, assignedAt: int, startedAt: Option<int>, completedAt: Option<int>,
    delaySeconds: int, eta: Option<int>)

  /** The `phase` text of a location event: the schema's enum, another status, the empty text, or anything else. */
  datatype Phase = Idle | Towards(status: Status) | Blank | Unknown

  datatype Location = Location(
    courier: Id, trip: Option<Id>, latitude: real, longitude: real, sequence: int, phase: Phase, recordedAt: int)

  datatype Kind =
    | TripAssigned
    | StatusChanged(status: Option<Status>)
    | TripCompleted(actualSeconds: int, predictedSeconds: Option<int>, byOperator: bool)
    | TripCancelled
    | DelayInjected

  datatype Event = Event(id: Id, order: Id, kind: Kind)

  datatype Stage = Confirmed | AtStore | OnTheWay

  datatype Prediction = Prediction(
    trip: Id, stage: Stage, seconds: int, predictedAt: int, actual: Option<int>, completedAt: Option<int>)

  datatype Tables = Tables(
    couriers: map<Id, Courier>,
    trips: map<Id, Trip>,
    inbox: set<Id>,
    outbox: seq<Event>,
    predictions: seq<Prediction>)

  datatype Fault =
    | NoCandidates | AllBusy | ConstraintViolated | CommitFailed
    | CourierMismatch | InvalidTransition | NotFound | TerminalTrip

  datatype Outcome = Done | Duplicate | Faulted(fault: Fault)

  // ------------------------------------------------------------------ Small pure parts

  predicate Terminal(status: Status) {
    status == Completed || status == Cancelled
  }

  /** `validDeliveryTransition`. A terminal status has no entry in the table, and the zero value of a missing
      entry is the empty text: a blank phase is then accepted. */
  predicate ValidTransition(current: Status, target: Phase) {
    match current
    case Assigned => target == Towards(Assembling)
    case Assembling => target == Towards(Delivering)
    case Delivering => target == Towards(Completed)
    case Completed => target == Blank
    case Cancelled => target == Blank
  }

  /** Whole seconds of a duration, cut towards zero (`int(d.Seconds())`). */
  function CutSeconds(us: int): int {
    if us >= 0 then us / 1_000_000 else -(-us / 1_000_000)
  }

  /** Whole seconds of an interval, rounded half away from zero (`EXTRACT(EPOCH ...)::integer`). */
  function RoundSeconds(us: int): int {
    if us >= 0 then (us + 500_000) / 1_000_000 else -((-us + 500_000) / 1_000_000)
  }

  /** `GREATEST(0, EXTRACT(EPOCH FROM (completed_at - predicted_at))::integer)`. */
  function ActualSeconds(completedAt: int, predictedAt: int): (r: int)
    ensures r >= 0
    ensures completedAt <= predictedAt ==> r == 0
  {
    var seconds := RoundSeconds(completedAt - predictedAt);
    if seconds > 0 then seconds else 0
  }

  ghost predicate Used(outbox: seq<Event>, id: Id) {
    exists i :: 0 <= i < |outbox| && outbox[i].id == id
  }

  ghost predicate HasTrip(trips: map<Id, Trip>, order: Id) {
    exists t :: t in trips && trips[t].order == order
  }

  ghost function TripOf(trips: map<Id, Trip>, order: Id): (t: Id)
    requires HasTrip(trips, order)
    ensures t in trips && trips[t].order == order
  {
    var t :| t in trips && trips[t].order == order;
    t
  }

  ghost predicate UniqueOrders(trips: map<Id, Trip>) {
    forall t, u :: t in trips && u in trips && trips[t].order == trips[u].order ==> t == u
  }

  function WithStatus(couriers: map<Id, Courier>, courier: Id, status: CourierStatus): map<Id, Courier> {
    if courier in couriers then couriers[courier := couriers[courier].(status := status)] else couriers
  }

  /** The update of every prediction row of a trip at completion. */
  function Closed(predictions: seq<Prediction>, trip: Id, at: int): (closed: seq<Prediction>)
    ensures |closed| == |predictions|
    ensures forall i :: 0 <= i < |closed| ==>
                          closed[i] == if predictions[i].trip == trip
                                       then predictions[i].(actual := Some(ActualSeconds(at, predictions[i].predictedAt)), completedAt := Some(at))
                                       else predictions[i]
  {
    seq(|predictions|, i requires 0 <= i < |predictions| =>
      if predictions[i].trip == trip
      then predictions[i].(actual := Some(ActualSeconds(at, predictions[i].predictedAt)), completedAt := Some(at))
      else predictions[i])
  }

  function FindPrediction(predictions: seq<Prediction>, trip: Id, stage: Stage): (found: Option<Prediction>)
    ensures found.Some? ==> found.value in predictions && found.value.trip == trip && found.value.stage == stage
    ensures found.None? ==> forall p :: p in predictions ==> p.trip != trip || p.stage != stage
  {
    if predictions == [] then None
    else if predictions[0].trip == trip && predictions[0].stage == stage then Some(predictions[0])
    else FindPrediction(predictions[1..], trip, stage)
  }

  // ------------------------------------------------------------------ assign

  /** The first candidate whose row exists and is available. */
  function FirstAvailable(couriers: map<Id, Courier>, candidates: seq<Id>): (found: Option<Id>)
    ensures found.Some? ==> found.value in candidates && found.value in couriers && couriers[found.value].status == Available
    ensures found.None? ==> forall c :: c in candidates && c in couriers ==> couriers[c].status != Available
  {
    if candidates == [] then None
    else if candidates[0] in couriers && couriers[candidates[0]].status == Available then Some(candidates[0])
    else FirstAvailable(couriers, candidates[1..])
  }

  function AfterAssign(s: Tables, eventId: Id, order: Id, courier: Id, trip: Id, now: int, outId: Id): Tables {
    Tables(
      WithStatus(s.couriers, courier, OnDelivery),
      s.trips[trip := Trip(order, courier, Assigned, now, None, None, 0, None)],
      s.inbox + {eventId},
      s.outbox + [Event(outId, order, TripAssigned)],
      s.predictions)
  }

  /** `candidates` is what the Redis search returned, or None when it failed. */
  ghost function AssignTx(s: Tables, eventId: Id, order: Id, candidates: Option<seq<Id>>, trip: Id, now: int, outId: Id, commits: bool): (Tables, Outcome) {
    if candidates.None? || candidates.value == [] then (s, Faulted(NoCandidates))
    else if eventId in s.inbox then (s, Duplicate)
    else
      var courier := FirstAvailable(s.couriers, candidates.value);
      if courier.None? then (s, Faulted(AllBusy))
      else if trip in s.trips || HasTrip(s.trips, order) || Used(s.outbox, outId) then (s, Faulted(ConstraintViolated))
      else if !commits then (s, Faulted(CommitFailed))
      else (AfterAssign(s, eventId, order, courier.value, trip, now, outId), Done)
  }

  // ------------------------------------------------------------------ cancel

  function AfterCancel(s: Tables, eventId: Id, order: Id, trip: Id, outId: Id): Tables
    requires trip in s.trips
  {
    Tables(
      WithStatus(s.couriers, s.trips[trip].courier, Available),
      s.trips[trip := s.trips[trip].(status := Cancelled)],
      s.inbox + {eventId},
      s.outbox + [Event(outId, order, TripCancelled)],
      s.predictions)
  }

  ghost function CancelTx(s: Tables, eventId: Id, order: Id, outId: Id, commits: bool): (Tables, Outcome) {
    if eventId in s.inbox then (s, Duplicate)
    else if !HasTrip(s.trips, order) || Terminal(s.trips[TripOf(s.trips, order)].status) then
      if commits then (s.(inbox := s.inbox + {eventId}), Done) else (s, Faulted(CommitFailed))
    else if Used(s.outbox, outId) then (s, Faulted(ConstraintViolated))
    else if !commits then (s, Faulted(CommitFailed))
    else (AfterCancel(s, eventId, order, TripOf(s.trips, order), outId), Done)
  }

  // ------------------------------------------------------------------ updateLocation and applyPhase

  function AfterLocation(s: Tables, l: Location): Tables
    requires l.courier in s.couriers
  {
    s.(couriers := s.couriers[l.courier := s.couriers[l.courier].(latitude := l.latitude, longitude := l.longitude,
                                                                  sequence := l.sequence, lastSeen := l.recordedAt)])
  }

  function Advanced(t: Trip, target: Status, at: int): Trip {
    match target
    case Delivering => t.(status := Delivering, startedAt := if t.startedAt.Some? then t.startedAt else Some(at))
    case Completed => t.(status := Completed, completedAt := Some(at))
    case _ => t.(status := target)
  }

  /** What a completed trip tells: its duration and, if there was a first prediction, that prediction. */
  function CompletionKind(t: Trip, predictions: seq<Prediction>, trip: Id, at: int): Kind {
    var first := FindPrediction(predictions, trip, Confirmed);
    TripCompleted(CutSeconds(at - t.assignedAt), if first.Some? then Some(first.value.seconds) else None, false)
  }

  /** An accepted phase; a blank phase writes no row and still emits its event. */
  function AfterPhase(s: Tables, trip: Id, target: Phase, at: int, outId: Id): Tables
    requires trip in s.trips
  {
    var t := s.trips[trip];
    if target == Towards(Completed) then
      var closed := Closed(s.predictions, trip, at);
      s.(couriers := WithStatus(s.couriers, t.courier, Available),
         trips := s.trips[trip := Advanced(t, Completed, at)],
         predictions := closed,
         outbox := s.outbox + [Event(outId, t.order, CompletionKind(t, closed, trip, at))])
    else if target.Towards? then
      s.(trips := s.trips[trip := Advanced(t, target.status, at)],
         outbox := s.outbox + [Event(outId, t.order, StatusChanged(Some(target.status)))])
    else
      s.(outbox := s.outbox + [Event(outId, t.order, StatusChanged(None))])
  }

  /** `applyPhase`: the tables after it, or the error that rolls the whole transaction back. */
  ghost function PhaseTx(s: Tables, trip: Id, courier: Id, phase: Phase, at: int, outId: Id): (Tables, Option<Fault>) {
    if trip !in s.trips then (s, None)
    else if s.trips[trip].courier != courier then (s, Some(CourierMismatch))
    else if phase == Idle || phase == Towards(s.trips[trip].status) then (s, None)
    else if !ValidTransition(s.trips[trip].status, phase) then (s, Some(InvalidTransition))
    else if Used(s.outbox, outId) then (s, Some(ConstraintViolated))
    else (AfterPhase(s, trip, phase, at, outId), None)
  }

  predicate Newer(couriers: map<Id, Courier>, l: Location) {
    l.courier in couriers && couriers[l.courier].sequence < l.sequence
  }

  ghost function LocationTx(s: Tables, eventId: Id, l: Location, outId: Id, commits: bool): (Tables, Outcome) {
    if eventId in s.inbox then (s, Duplicate)
    else
      var marked := s.(inbox := s.inbox + {eventId});
      if !Newer(s.couriers, l) then
        if commits then (marked, Done) else (s, Faulted(CommitFailed))
      else
        var moved := AfterLocation(marked, l);
        var (phased, fault) := if l.trip.Some? then PhaseTx(moved, l.trip.value, l.courier, l.phase, l.recordedAt, outId) else (moved, None);
        if fault.Some? then (s, Faulted(fault.value))
        else if commits then (phased, Done)
        else (s, Faulted(CommitFailed))
  }

  // ------------------------------------------------------------------ Operator actions

  function AfterDelay(s: Tables, trip: Id, outId: Id): Tables
    requires trip in s.trips
  {
    var t := s.trips[trip];
    var delayed := t.(delaySeconds := if t.delaySeconds + 10 < 600 then t.delaySeconds + 10 else 600,
                      eta := if t.eta.Some? then Some(t.eta.value + 10) else None);
    s.(trips := s.trips[trip := delayed], outbox := s.outbox + [Event(outId, t.order, DelayInjected)])
  }

  ghost function DelayTx(s: Tables, trip: Id, outId: Id, commits: bool): (Tables, Outcome) {
    if trip !in s.trips then (s, Faulted(NotFound))
    else if Terminal(s.trips[trip].status) then (s, Faulted(TerminalTrip))
    else if Used(s.outbox, outId) then (s, Faulted(ConstraintViolated))
    else if !commits then (s, Faulted(CommitFailed))
    else (AfterDelay(s, trip, outId), Done)
  }

  function AfterComplete(s: Tables, trip: Id, now: int, outId: Id): Tables
    requires trip in s.trips
  {
    var t := s.trips[trip];
    s.(couriers := WithStatus(s.couriers, t.courier, Available),
       trips := s.trips[trip := Advanced(t, Completed, now)],
       predictions := Closed(s.predictions, trip, now),
       outbox := s.outbox + [Event(outId, t.order, TripCompleted(CutSeconds(now - t.assignedAt), None, true))])
  }

  ghost function CompleteTx(s: Tables, trip: Id, now: int, outId: Id, commits: bool): (Tables, Outcome) {
    if trip !in s.trips then (s, Faulted(NotFound))
    else if Terminal(s.trips[trip].status) then (s, Faulted(TerminalTrip))
    else if Used(s.outbox, outId) then (s, Faulted(ConstraintViolated))
    else if !commits then (s, Faulted(CommitFailed))
    else (AfterComplete(s, trip, now, outId), Done)
  }

  // ------------------------------------------------------------------ ETA rows

  function AfterSave(s: Tables, trip: Id, stage: Stage, seconds: int, at: int): Tables
    requires trip in s.trips
  {
    var t := s.trips[trip];
    var actual := if t.completedAt.Some? then Some(ActualSeconds(t.completedAt.value, at)) else None;
    s.(predictions := s.predictions + [Prediction(trip, stage, seconds, at, actual, t.completedAt)],
       trips := s.trips[trip := t.(eta := Some(seconds))])
  }

  /** `save`: the worker read its job earlier, so any trip and stage may arrive here. */
  ghost function SaveTx(s: Tables, trip: Id, stage: Stage, seconds: int, at: int, commits: bool): (Tables, Outcome) {
    if trip !in s.trips || FindPrediction(s.predictions, trip, stage).Some? then
      if commits then (s, Done) else (s, Faulted(CommitFailed))
    else if seconds <= 0 then (s, Faulted(ConstraintViolated))
    else if !commits then (s, Faulted(CommitFailed))
    else (AfterSave(s, trip, stage, seconds, at), Done)
  }
}
