/**
 What every run of the delivery service keeps, over any interleaving of assignments, cancellations,
 location events with phases, operator actions, prediction saves, duplicates and lost transactions.
 */
module DeliveryRuns {
  import opened Prelude
  import opened Delivery

  datatype Act =
    | Assign(eventId: Id, order: Id, candidates: Option<seq<Id>>, newTrip: Id, now: int, outId: Id, commits: bool)
    | Cancel(eventId: Id, order: Id, outId: Id, commits: bool)
    | Locate(eventId: Id, location: Location, outId: Id, commits: bool)
    | Delay(trip: Id, outId: Id, commits: bool)
    | Complete(trip: Id, now: int, outId: Id, commits: bool)
    | Save(trip: Id, stage: Stage, seconds: int, at: int, commits: bool)

  ghost function Apply(s: Tables, a: Act): (Tables, Outcome) {
    match a
    case Assign(eventId, order, candidates, newTrip, now, outId, commits) =>
      AssignTx(s, eventId, order, candidates, newTrip, now, outId, commits)
    case Cancel(eventId, order, outId, commits) => CancelTx(s, eventId, order, outId, commits)
    case Locate(eventId, location, outId, commits) => LocationTx(s, eventId, location, outId, commits)
    case Delay(trip, outId, commits) => DelayTx(s, trip, outId, commits)
    case Complete(trip, now, outId, commits) => CompleteTx(s, trip, now, outId, commits)
    case Save(trip, stage, seconds, at, commits) => SaveTx(s, trip, stage, seconds, at, commits)
  }

  ghost function Run(s: Tables, acts: seq<Act>): Tables {
    if acts == [] then s else Apply(Run(s, acts[..|acts| - 1]), acts[|acts| - 1]).0
  }

  /** Couriers before any trip: available or offline. */
  ghost predicate Opening(s: Tables) {
    && s.trips == map[] && s.inbox == {} && s.outbox == [] && s.predictions == []
    && forall c :: c in s.couriers ==> s.couriers[c].status != OnDelivery
  }

  /** Either nothing at all is written or the transaction is one of the committed shapes below. */
  lemma FailedActsChangeNothing(s: Tables, a: Act)
    ensures Apply(s, a).1.Faulted? || Apply(s, a).1.Duplicate? ==> Apply(s, a).0 == s
  {
  }

  // ------------------------------------------------------------------ Courier exclusivity

  ghost predicate Live(trips: map<Id, Trip>, t: Id) {
    t in trips && !Terminal(trips[t].status)
  }

  /** A courier is on delivery iff exactly one live trip names it. */
  ghost predicate Exclusive(couriers: map<Id, Courier>, trips: map<Id, Trip>) {
    && (forall t :: Live(trips, t) ==> trips[t].courier in couriers && couriers[trips[t].courier].status == OnDelivery)
    && (forall t, u :: Live(trips, t) && Live(trips, u) && trips[t].courier == trips[u].courier ==> t == u)
    && (forall c :: c in couriers && couriers[c].status == OnDelivery ==> exists t :: Live(trips, t) && trips[t].courier == c)
  }

  lemma AssignIsExclusive(couriers: map<Id, Courier>, trips: map<Id, Trip>, t: Id, row: Trip)
    requires Exclusive(couriers, trips) && t !in trips && !Terminal(row.status)
    requires row.courier in couriers && couriers[row.courier].status == Available
    ensures Exclusive(WithStatus(couriers, row.courier, OnDelivery), trips[t := row])
  {
    var trips', couriers' := trips[t := row], WithStatus(couriers, row.courier, OnDelivery);
    forall u | Live(trips', u) && u != t ensures trips'[u].courier != row.courier {
      assert Live(trips, u);
    }
    forall c | c in couriers' && couriers'[c].status == OnDelivery ensures exists u :: Live(trips', u) && trips'[u].courier == c {
      if c == row.courier {
        assert Live(trips', t);
      } else {
        var u :| Live(trips, u) && trips[u].courier == c;
        assert Live(trips', u);
      }
    }
  }

  lemma EndIsExclusive(couriers: map<Id, Courier>, trips: map<Id, Trip>, t: Id, row: Trip)
    requires Exclusive(couriers, trips) && Live(trips, t) && Terminal(row.status) && row.courier == trips[t].courier
    ensures Exclusive(WithStatus(couriers, row.courier, Available), trips[t := row])
  {
    var trips', couriers' := trips[t := row], WithStatus(couriers, row.courier, Available);
    forall u | Live(trips', u) ensures Live(trips, u) && trips'[u] == trips[u] && trips[u].courier != row.courier {
      assert u != t;
    }
    forall c | c in couriers' && couriers'[c].status == OnDelivery ensures exists u :: Live(trips', u) && trips'[u].courier == c {
      var u :| Live(trips, u) && trips[u].courier == c;
      assert Live(trips', u);
    }
  }

  /** Rewriting a trip without ending it or changing its courier. */
  lemma StepIsExclusive(couriers: map<Id, Courier>, trips: map<Id, Trip>, t: Id, row: Trip)
    requires Exclusive(couriers, trips) && t in trips && row.courier == trips[t].courier
    requires Terminal(row.status) <==> Terminal(trips[t].status)
    ensures Exclusive(couriers, trips[t := row])
  {
    var trips' := trips[t := row];
    forall u | Live(trips', u) ensures Live(trips, u) && trips'[u].courier == trips[u].courier {
    }
    forall c | c in couriers && couriers[c].status == OnDelivery ensures exists u :: Live(trips', u) && trips'[u].courier == c {
      var u :| Live(trips, u) && trips[u].courier == c;
      assert Live(trips', u) && trips'[u].courier == c;
    }
  }

  lemma MoveIsExclusive(couriers: map<Id, Courier>, trips: map<Id, Trip>, c: Id, row: Courier)
    requires Exclusive(couriers, trips) && c in couriers && row.status == couriers[c].status
    ensures Exclusive(couriers[c := row], trips)
  {
  }

  lemma PhaseIsExclusive(s: Tables, trip: Id, courier: Id, phase: Phase, at: int, outId: Id)
    requires Exclusive(s.couriers, s.trips)
    ensures var t := PhaseTx(s, trip, courier, phase, at, outId).0; Exclusive(t.couriers, t.trips)
  {
    var t := PhaseTx(s, trip, courier, phase, at, outId).0;
    if t != s && phase.Towards? {
      var row := Advanced(s.trips[trip], phase.status, at);
      if phase.status == Completed {
        EndIsExclusive(s.couriers, s.trips, trip, row);
      } else {
        StepIsExclusive(s.couriers, s.trips, trip, row);
      }
    }
  }

  lemma ActIsExclusive(s: Tables, a: Act)
    requires Exclusive(s.couriers, s.trips)
    ensures var t := Apply(s, a).0; Exclusive(t.couriers, t.trips)
  {
    var t := Apply(s, a).0;
    if t.couriers != s.couriers || t.trips != s.trips {
      match a
      case Assign(_, order, candidates, newTrip, now, _, _) =>
        var courier := FirstAvailable(s.couriers, candidates.value).value;
        AssignIsExclusive(s.couriers, s.trips, newTrip, Trip(order, courier, Assigned, now, None, None, 0, None));
      case Cancel(_, order, _, _) =>
        var trip := TripOf(s.trips, order);
        EndIsExclusive(s.couriers, s.trips, trip, s.trips[trip].(status := Cancelled));
      case Locate(eventId, l, outId, _) =>
        var moved := AfterLocation(s.(inbox := s.inbox + {eventId}), l);
        MoveIsExclusive(s.couriers, s.trips, l.courier, moved.couriers[l.courier]);
        if l.trip.Some? {
          PhaseIsExclusive(moved, l.trip.value, l.courier, l.phase, l.recordedAt, outId);
        }
      case Delay(trip, outId, _) => StepIsExclusive(s.couriers, s.trips, trip, AfterDelay(s, trip, outId).trips[trip]);
      case Complete(trip, now, _, _) => EndIsExclusive(s.couriers, s.trips, trip, Advanced(s.trips[trip], Completed, now));
      case Save(trip, _, seconds, _, _) => StepIsExclusive(s.couriers, s.trips, trip, s.trips[trip].(eta := Some(seconds)));
    }
  }

  lemma {:induction false} RunIsExclusive(s: Tables, acts: seq<Act>)
    requires Exclusive(s.couriers, s.trips)
    ensures Exclusive(Run(s, acts).couriers, Run(s, acts).trips)
  {
    if acts != [] {
      RunIsExclusive(s, acts[..|acts| - 1]);
      ActIsExclusive(Run(s, acts[..|acts| - 1]), acts[|acts| - 1]);
    }
  }

  /** In every reachable state a courier is on delivery iff one live trip names it, and then only that one does. */
  lemma {:induction false} CouriersAreExclusive(s: Tables, acts: seq<Act>, c: Id)
    requires Opening(s) && c in Run(s, acts).couriers
    ensures var t := Run(s, acts);
            && (t.couriers[c].status == OnDelivery <==> exists trip :: Live(t.trips, trip) && t.trips[trip].courier == c)
            && (forall u, v :: Live(t.trips, u) && Live(t.trips, v) && t.trips[u].courier == c && t.trips[v].courier == c ==> u == v)
  {
    RunIsExclusive(s, acts);
  }

  // ------------------------------------------------------------------ What a trip announces

  function Milestone(kind: Kind): Option<Status> {
    match kind
    case TripAssigned => Some(Assigned)
    case StatusChanged(status) => status
    case TripCompleted(_, _, _) => Some(Completed)
    case TripCancelled => Some(Cancelled)
    case DelayInjected => None
  }

  /** The statuses announced for one order, oldest first. */
  ghost function Milestones(outbox: seq<Event>, order: Id): seq<Status> {
    if outbox == [] then []
    else
      var last := outbox[|outbox| - 1];
      Milestones(outbox[..|outbox| - 1], order)
      + if last.order == order && Milestone(last.kind).Some? then [Milestone(last.kind).value] else []
  }

  lemma MilestonesAppend(outbox: seq<Event>, e: Event, order: Id)
    ensures Milestones(outbox + [e], order) ==
            Milestones(outbox, order) + if e.order == order && Milestone(e.kind).Some? then [Milestone(e.kind).value] else []
  {
    assert (outbox + [e])[..|outbox|] == outbox;
  }

  const LADDER: seq<Status> := [Assigned, Assembling, Delivering]

  /** What a trip in a given status has announced: its way up the ladder, and for an ended trip one ending. */
  ghost predicate Fits(status: Status, announced: seq<Status>) {
    match status
    case Assigned => announced == LADDER[..1]
    case Assembling => announced == LADDER[..2]
    case Delivering => announced == LADDER[..3]
    case _ => exists k :: 1 <= k <= 3 && announced == LADDER[..k] + [status]
  }

  ghost predicate Told(trips: map<Id, Trip>, outbox: seq<Event>) {
    && UniqueOrders(trips)
    && (forall t :: t in trips ==> Fits(trips[t].status, Milestones(outbox, trips[t].order)))
    && (forall o :: !HasTrip(trips, o) ==> Milestones(outbox, o) == [])
  }

  ghost predicate Climbs(from: Status, to: Status) {
    !Terminal(from) && (Terminal(to) || ValidTransition(from, Towards(to)))
  }

  lemma ClimbFits(from: Status, to: Status, announced: seq<Status>)
    requires Fits(from, announced) && Climbs(from, to)
    ensures Fits(to, announced + [to])
  {
    if Terminal(to) {
      var k := if from == Assigned then 1 else if from == Assembling then 2 else 3;
      assert announced + [to] == LADDER[..k] + [to];
    }
  }

  lemma ClimbIsTold(trips: map<Id, Trip>, outbox: seq<Event>, t: Id, row: Trip, e: Event)
    requires Told(trips, outbox) && t in trips && row.order == trips[t].order == e.order
    requires Climbs(trips[t].status, row.status) && Milestone(e.kind) == Some(row.status)
    ensures Told(trips[t := row], outbox + [e])
  {
    var trips' := trips[t := row];
    forall u | u in trips' ensures Fits(trips'[u].status, Milestones(outbox + [e], trips'[u].order)) {
      MilestonesAppend(outbox, e, trips'[u].order);
      if u == t {
        ClimbFits(trips[t].status, row.status, Milestones(outbox, row.order));
      }
    }
    forall o | !HasTrip(trips', o) ensures Milestones(outbox + [e], o) == [] {
      assert trips'[t].order != o;
      assert forall u :: u in trips ==> trips'[u].order == trips[u].order;
      MilestonesAppend(outbox, e, o);
    }
  }

  lemma AssignIsTold(trips: map<Id, Trip>, outbox: seq<Event>, t: Id, row: Trip, e: Event)
    requires Told(trips, outbox) && t !in trips && !HasTrip(trips, row.order) && row.order == e.order
    requires row.status == Assigned && Milestone(e.kind) == Some(Assigned)
    ensures Told(trips[t := row], outbox + [e])
  {
    var trips' := trips[t := row];
    forall u | u in trips' ensures Fits(trips'[u].status, Milestones(outbox + [e], trips'[u].order)) {
      MilestonesAppend(outbox, e, trips'[u].order);
    }
    forall o | !HasTrip(trips', o) ensures Milestones(outbox + [e], o) == [] {
      assert trips'[t].order != o;
      forall u | u in trips ensures trips[u].order != o {
        assert trips'[u].order != o;
      }
      MilestonesAppend(outbox, e, o);
    }
  }

  /** Events without a milestone, and rewrites that keep order and status. */
  lemma SilenceIsTold(trips: map<Id, Trip>, outbox: seq<Event>, t: Id, row: Trip, e: Event)
    requires Told(trips, outbox) && t in trips && row.order == trips[t].order && row.status == trips[t].status
    requires Milestone(e.kind).None?
    ensures Told(trips[t := row], outbox) && Told(trips[t := row], outbox + [e])
  {
    var trips' := trips[t := row];
    forall u | u in trips' ensures Fits(trips'[u].status, Milestones(outbox + [e], trips'[u].order)) {
      MilestonesAppend(outbox, e, trips'[u].order);
    }
    forall o | !HasTrip(trips', o) ensures Milestones(outbox, o) == Milestones(outbox + [e], o) == [] {
      forall u | u in trips ensures trips[u].order != o {
        assert trips'[u].order != o;
      }
      MilestonesAppend(outbox, e, o);
    }
  }

  lemma PhaseIsTold(s: Tables, trip: Id, courier: Id, phase: Phase, at: int, outId: Id)
    requires Told(s.trips, s.outbox)
    ensures var t := PhaseTx(s, trip, courier, phase, at, outId).0; Told(t.trips, t.outbox)
  {
    var t := PhaseTx(s, trip, courier, phase, at, outId).0;
    if t != s {
      var e := t.outbox[|s.outbox|];
      assert t.outbox == s.outbox + [e];
      if phase.Towards? {
        ClimbIsTold(s.trips, s.outbox, trip, Advanced(s.trips[trip], phase.status, at), e);
      } else {
        SilenceIsTold(s.trips, s.outbox, trip, s.trips[trip], e);
        assert s.trips[trip := s.trips[trip]] == s.trips;
      }
    }
  }

  lemma AssignActIsTold(s: Tables, a: Act)
    requires Told(s.trips, s.outbox) && a.Assign? && Apply(s, a).1.Done?
    ensures Told(Apply(s, a).0.trips, Apply(s, a).0.outbox)
  {
    AssignIsTold(s.trips, s.outbox, a.newTrip, Apply(s, a).0.trips[a.newTrip], Event(a.outId, a.order, TripAssigned));
  }

  lemma CancelActIsTold(s: Tables, eventId: Id, order: Id, outId: Id, commits: bool)
    requires Told(s.trips, s.outbox)
    ensures var t := CancelTx(s, eventId, order, outId, commits).0; Told(t.trips, t.outbox)
  {
    var t := CancelTx(s, eventId, order, outId, commits).0;
    if t.trips != s.trips || t.outbox != s.outbox {
      var trip := TripOf(s.trips, order);
      ClimbIsTold(s.trips, s.outbox, trip, s.trips[trip].(status := Cancelled), Event(outId, order, TripCancelled));
    }
  }

  lemma LocateActIsTold(s: Tables, eventId: Id, l: Location, outId: Id, commits: bool)
    requires Told(s.trips, s.outbox)
    ensures var t := LocationTx(s, eventId, l, outId, commits).0; Told(t.trips, t.outbox)
  {
    if Newer(s.couriers, l) && l.trip.Some? {
      var moved := AfterLocation(s.(inbox := s.inbox + {eventId}), l);
      PhaseIsTold(moved, l.trip.value, l.courier, l.phase, l.recordedAt, outId);
    }
  }

  lemma DelayActIsTold(s: Tables, trip: Id, outId: Id, commits: bool)
    requires Told(s.trips, s.outbox)
    ensures var t := DelayTx(s, trip, outId, commits).0; Told(t.trips, t.outbox)
  {
    if DelayTx(s, trip, outId, commits).1.Done? {
      SilenceIsTold(s.trips, s.outbox, trip, AfterDelay(s, trip, outId).trips[trip], Event(outId, s.trips[trip].order, DelayInjected));
    }
  }

  lemma CompleteActIsTold(s: Tables, trip: Id, now: int, outId: Id, commits: bool)
    requires Told(s.trips, s.outbox)
    ensures var t := CompleteTx(s, trip, now, outId, commits).0; Told(t.trips, t.outbox)
  {
    var t := CompleteTx(s, trip, now, outId, commits).0;
    if CompleteTx(s, trip, now, outId, commits).1.Done? {
      ClimbIsTold(s.trips, s.outbox, trip, Advanced(s.trips[trip], Completed, now), t.outbox[|s.outbox|]);
    }
  }

  lemma SaveActIsTold(s: Tables, trip: Id, stage: Stage, seconds: int, at: int, commits: bool)
    requires Told(s.trips, s.outbox)
    ensures var t := SaveTx(s, trip, stage, seconds, at, commits).0; Told(t.trips, t.outbox)
  {
    if trip in s.trips {
      SilenceIsTold(s.trips, s.outbox, trip, s.trips[trip].(eta := Some(seconds)), Event(0, 0, DelayInjected));
    }
  }

  lemma ActIsTold(s: Tables, a: Act)
    requires Told(s.trips, s.outbox)
    ensures Told(Apply(s, a).0.trips, Apply(s, a).0.outbox)
  {
    match a
    case Assign(_, _, _, _, _, _, _) =>
      FailedActsChangeNothing(s, a);
      if Apply(s, a).1.Done? {
        AssignActIsTold(s, a);
      }
    case Cancel(eventId, order, outId, commits) => CancelActIsTold(s, eventId, order, outId, commits);
    case Locate(eventId, l, outId, commits) => LocateActIsTold(s, eventId, l, outId, commits);
    case Delay(trip, outId, commits) => DelayActIsTold(s, trip, outId, commits);
    case Complete(trip, now, outId, commits) => CompleteActIsTold(s, trip, now, outId, commits);
    case Save(trip, stage, seconds, at, commits) => SaveActIsTold(s, trip, stage, seconds, at, commits);
  }

  lemma {:induction false} RunIsTold(s: Tables, acts: seq<Act>)
    requires Told(s.trips, s.outbox)
    ensures Told(Run(s, acts).trips, Run(s, acts).outbox)
  {
    if acts != [] {
      RunIsTold(s, acts[..|acts| - 1]);
      ActIsTold(Run(s, acts[..|acts| - 1]), acts[|acts| - 1]);
    }
  }

  lemma OpeningIsTold(s: Tables)
    requires Opening(s)
    ensures Told(s.trips, s.outbox)
  {
  }

  /** Only the last announcement may be an ending. */
  ghost predicate EndsOnce(announced: seq<Status>) {
    forall i :: 0 <= i < |announced| - 1 ==> !Terminal(announced[i])
  }

  lemma FittingEndsOnce(status: Status, announced: seq<Status>)
    requires Fits(status, announced)
    ensures EndsOnce(announced)
  {
    if Terminal(status) {
      var k :| 1 <= k <= 3 && announced == LADDER[..k] + [status];
      forall i | 0 <= i < |announced| - 1 ensures !Terminal(announced[i]) {
        assert announced[i] == LADDER[i];
      }
    }
  }

  /** Per order the outbox tells one way up the ladder, closed by at most one ending, and matches the trip's status. */
  lemma {:induction false} OneStoryPerOrder(s: Tables, acts: seq<Act>, o: Id)
    requires Opening(s)
    ensures var t := Run(s, acts);
            && (!HasTrip(t.trips, o) ==> Milestones(t.outbox, o) == [])
            && (HasTrip(t.trips, o) ==> Fits(t.trips[TripOf(t.trips, o)].status, Milestones(t.outbox, o)))
            && EndsOnce(Milestones(t.outbox, o))
  {
    OpeningIsTold(s);
    RunIsTold(s, acts);
    var t := Run(s, acts);
    if HasTrip(t.trips, o) {
      FittingEndsOnce(t.trips[TripOf(t.trips, o)].status, Milestones(t.outbox, o));
    }
  }

  // ------------------------------------------------------------------ Event ids and inbox

  ghost predicate DistinctIds(outbox: seq<Event>) {
    forall i, j :: 0 <= i < j < |outbox| ==> outbox[i].id != outbox[j].id
  }

  /** The outbox only grows, by at most one fresh event a step; inbox marks are never lost. */
  lemma ActAppends(s: Tables, a: Act)
    ensures var t := Apply(s, a).0;
            && s.inbox <= t.inbox
            && (t.outbox == s.outbox || exists e :: t.outbox == s.outbox + [e] && !Used(s.outbox, e.id))
  {
    var t := Apply(s, a).0;
    if t.outbox != s.outbox {
      assert t.outbox == s.outbox + [t.outbox[|s.outbox|]];
    }
  }

  lemma {:induction false} RunAppends(s: Tables, acts: seq<Act>)
    requires DistinctIds(s.outbox)
    ensures s.outbox <= Run(s, acts).outbox && s.inbox <= Run(s, acts).inbox && DistinctIds(Run(s, acts).outbox)
  {
    if acts != [] {
      RunAppends(s, acts[..|acts| - 1]);
      ActAppends(Run(s, acts[..|acts| - 1]), acts[|acts| - 1]);
    }
  }

  // ------------------------------------------------------------------ Cancellation reaches logistics

  ghost predicate Settled(s: Tables, order: Id) {
    HasTrip(s.trips, order) ==> Terminal(s.trips[TripOf(s.trips, order)].status)
  }

  ghost predicate SettledAs(s: Tables, t: Tables, order: Id) {
    && Settled(t, order)
    && (HasTrip(t.trips, order) <==> HasTrip(s.trips, order))
    && (HasTrip(s.trips, order) ==> TripOf(t.trips, order) == TripOf(s.trips, order)
                                    && t.trips[TripOf(t.trips, order)].status == s.trips[TripOf(s.trips, order)].status)
    && Milestones(t.outbox, order) == Milestones(s.outbox, order)
  }

  lemma CancelSettles(s: Tables, eventId: Id, order: Id, outId: Id, commits: bool)
    requires UniqueOrders(s.trips) && CancelTx(s, eventId, order, outId, commits).1.Done?
    ensures Settled(CancelTx(s, eventId, order, outId, commits).0, order)
  {
    var t := CancelTx(s, eventId, order, outId, commits).0;
    if HasTrip(s.trips, order) {
      var trip := TripOf(s.trips, order);
      assert t.trips[trip].order == order;
      forall u | u in t.trips && t.trips[u].order == order ensures u == trip {
        assert u in s.trips && s.trips[u].order == order;
      }
    } else {
      assert t.trips == s.trips;
    }
  }

  /** An assignment for the order that takes effect: its event id was not yet marked. */
  ghost predicate Revives(s: Tables, a: Act, order: Id) {
    a.Assign? && a.order == order && a.eventId !in s.inbox && Apply(s, a).1.Done?
  }

  ghost predicate Revived(s: Tables, acts: seq<Act>, order: Id) {
    exists n: nat :: n < |acts| && Revives(Run(s, acts[..n]), acts[n], order)
  }

  /** Whatever the step, an order's trip keeps its row key, and a terminal one keeps its status and stays silent. */
  lemma ActKeepsSettled(s: Tables, a: Act, order: Id)
    requires Told(s.trips, s.outbox) && Settled(s, order) && !Revives(s, a, order)
    ensures SettledAs(s, Apply(s, a).0, order)
  {
    var t := Apply(s, a).0;
    TripRowsStay(s, a, order);
    ActIsTold(s, a);
    if HasTrip(s.trips, order) {
      var trip := TripOf(s.trips, order);
      assert t.trips[trip].order == order;
      assert TripOf(t.trips, order) == trip;
    }
    SettledIsSilent(s, a, order);
  }

  /** Rows are never dropped, keep their order and courier, and a terminal status is never left. */
  ghost predicate RowStays(s: Tables, t: Tables, u: Id)
    requires u in s.trips
  {
    && u in t.trips && t.trips[u].order == s.trips[u].order && t.trips[u].courier == s.trips[u].courier
    && (Terminal(s.trips[u].status) ==> t.trips[u].status == s.trips[u].status)
    && (0 <= s.trips[u].delaySeconds <= 600 ==> 0 <= t.trips[u].delaySeconds <= 600)
  }

  lemma RowsStay(s: Tables, a: Act, u: Id)
    requires u in s.trips
    ensures RowStays(s, Apply(s, a).0, u)
  {
  }

  lemma NewRowsAreAssigned(s: Tables, a: Act, u: Id)
    requires u in Apply(s, a).0.trips && u !in s.trips
    ensures a.Assign? && Revives(s, a, a.order) && Apply(s, a).0.trips[u].order == a.order
    ensures Apply(s, a).0.trips[u].delaySeconds == 0
  {
  }

  lemma TripRowsStay(s: Tables, a: Act, order: Id)
    requires UniqueOrders(s.trips) && Settled(s, order) && !Revives(s, a, order)
    ensures forall u :: u in s.trips ==> RowStays(s, Apply(s, a).0, u)
    ensures HasTrip(Apply(s, a).0.trips, order) ==> HasTrip(s.trips, order)
  {
    var t := Apply(s, a).0;
    forall u | u in s.trips ensures RowStays(s, t, u) {
      RowsStay(s, a, u);
    }
    if HasTrip(t.trips, order) {
      var u := TripOf(t.trips, order);
      if u !in s.trips {
        NewRowsAreAssigned(s, a, u);
      } else {
        RowsStay(s, a, u);
      }
    }
  }

  /** A milestone is announced by a first assignment or about a live trip. */
  lemma MilestonesAreLive(s: Tables, a: Act, e: Event)
    requires Apply(s, a).0.outbox == s.outbox + [e] && Milestone(e.kind).Some?
    ensures || (a.Assign? && Revives(s, a, e.order))
            || exists u :: Live(s.trips, u) && s.trips[u].order == e.order
  {
    assert (s.outbox + [e])[|s.outbox|] == e;
    match a
    case Assign(_, _, _, _, _, _, _) =>
    case Cancel(_, order, _, _) => assert Live(s.trips, TripOf(s.trips, order));
    case Locate(_, l, _, _) => assert Live(s.trips, l.trip.value);
    case Delay(_, _, _) =>
    case Complete(trip, _, _, _) => assert Live(s.trips, trip);
    case Save(_, _, _, _, _) =>
  }

  lemma SettledIsSilent(s: Tables, a: Act, order: Id)
    requires UniqueOrders(s.trips) && Settled(s, order) && !Revives(s, a, order)
    ensures Milestones(Apply(s, a).0.outbox, order) == Milestones(s.outbox, order)
  {
    var t := Apply(s, a).0;
    if t.outbox != s.outbox {
      var e := t.outbox[|s.outbox|];
      assert t.outbox == s.outbox + [e];
      MilestonesAppend(s.outbox, e, order);
      if Milestone(e.kind).Some? {
        MilestonesAreLive(s, a, e);
      }
    }
  }

  lemma RevivedPrefix(s: Tables, acts: seq<Act>, n: nat, order: Id)
    requires n <= |acts| && Revived(s, acts[..n], order)
    ensures Revived(s, acts, order)
  {
    var k: nat :| k < n && Revives(Run(s, acts[..n][..k]), acts[..n][k], order);
    assert acts[..n][..k] == acts[..k];
  }

  lemma {:induction false} SettledForEver(s: Tables, acts: seq<Act>, order: Id)
    requires Told(s.trips, s.outbox) && Settled(s, order) && !Revived(s, acts, order)
    requires DistinctIds(s.outbox)
    ensures SettledAs(s, Run(s, acts), order)
  {
    if acts != [] {
      var n := |acts| - 1;
      if Revived(s, acts[..n], order) {
        RevivedPrefix(s, acts, n, order);
      }
      SettledForEver(s, acts[..n], order);
      RunIsTold(s, acts[..n]);
      ActKeepsSettled(Run(s, acts[..n]), acts[n], order);
    }
  }

  lemma ReviverIsLive(s: Tables, a: Act, order: Id)
    requires Told(s.trips, s.outbox) && Revives(s, a, order)
    ensures !Settled(Apply(s, a).0, order)
  {
    var t := Apply(s, a).0;
    ActIsTold(s, a);
    assert t.trips[a.newTrip].order == order && t.trips[a.newTrip].status == Assigned;
  }

  /** Once order.cancelled is processed: the order gets a live trip again if and only if some later assignment for it,
      under an event id not yet marked, takes effect. Otherwise its trip is absent or terminal for ever, whatever
      phases, operator actions or duplicates follow, and no further milestone is announced. */
  lemma {:induction false} CancellationReachesLogistics(s: Tables, before: seq<Act>, eventId: Id, order: Id, outId: Id, after: seq<Act>)
    requires Opening(s) && CancelTx(Run(s, before), eventId, order, outId, true).1.Done?
    ensures var cancelled := CancelTx(Run(s, before), eventId, order, outId, true).0;
            && ((exists n: nat :: n <= |after| && !Settled(Run(cancelled, after[..n]), order)) <==> Revived(cancelled, after, order))
            && (!Revived(cancelled, after, order) ==> SettledAs(cancelled, Run(cancelled, after), order))
  {
    var mid := Run(s, before);
    OpeningIsTold(s);
    RunIsTold(s, before);
    RunAppends(s, before);
    var cancelled := CancelTx(mid, eventId, order, outId, true).0;
    ActIsTold(mid, Cancel(eventId, order, outId, true));
    ActAppends(mid, Cancel(eventId, order, outId, true));
    CancelSettles(mid, eventId, order, outId, true);
    UnsettledIffRevived(cancelled, after, order);
  }

  lemma UnsettledWasRevived(s: Tables, acts: seq<Act>, n: nat, order: Id)
    requires Told(s.trips, s.outbox) && Settled(s, order) && DistinctIds(s.outbox)
    requires n <= |acts| && !Settled(Run(s, acts[..n]), order)
    ensures Revived(s, acts, order)
  {
    if !Revived(s, acts[..n], order) {
      SettledForEver(s, acts[..n], order);
    }
    RevivedPrefix(s, acts, n, order);
  }

  lemma RevivedIsUnsettled(s: Tables, acts: seq<Act>, n: nat, order: Id)
    requires Told(s.trips, s.outbox) && DistinctIds(s.outbox)
    requires n < |acts| && Revives(Run(s, acts[..n]), acts[n], order)
    ensures !Settled(Run(s, acts[..n + 1]), order)
  {
    RunIsTold(s, acts[..n]);
    ReviverIsLive(Run(s, acts[..n]), acts[n], order);
    assert acts[..n + 1][..n] == acts[..n];
  }

  lemma UnsettledIffRevived(s: Tables, acts: seq<Act>, order: Id)
    requires Told(s.trips, s.outbox) && Settled(s, order) && DistinctIds(s.outbox)
    ensures (exists n: nat :: n <= |acts| && !Settled(Run(s, acts[..n]), order)) <==> Revived(s, acts, order)
    ensures !Revived(s, acts, order) ==> SettledAs(s, Run(s, acts), order)
  {
    if n: nat :| n <= |acts| && !Settled(Run(s, acts[..n]), order) {
      UnsettledWasRevived(s, acts, n, order);
    }
    if Revived(s, acts, order) {
      var n: nat :| n < |acts| && Revives(Run(s, acts[..n]), acts[n], order);
      RevivedIsUnsettled(s, acts, n, order);
    } else {
      SettledForEver(s, acts, order);
    }
  }

  /** A redelivered order.created: its id is already in the inbox. */
  ghost predicate OnlyRedeliveries(inbox: set<Id>, acts: seq<Act>, order: Id) {
    forall i :: 0 <= i < |acts| && acts[i].Assign? && acts[i].order == order ==> acts[i].eventId in inbox
  }

  /** Redeliveries of marked events never revive an order. */
  lemma {:induction false} RedeliveriesDoNotRevive(s: Tables, acts: seq<Act>, order: Id)
    requires DistinctIds(s.outbox) && OnlyRedeliveries(s.inbox, acts, order)
    ensures !Revived(s, acts, order)
  {
    forall n: nat | n < |acts| ensures !Revives(Run(s, acts[..n]), acts[n], order) {
      RunAppends(s, acts[..n]);
    }
  }

  /** The condition on unmarked ids is needed: an order.created that failed for lack of a courier left no mark, so when
      it comes again after order.cancelled it assigns a courier to the cancelled order, and the repeated
      order.cancelled is a duplicate that leaves the trip live. */
  lemma {:induction false} FailedCreationRevivesACancelledOrder(s: Tables, c: Id, created: Id, cancelled: Id, order: Id, trip: Id, now: int, out1: Id, out2: Id)
    requires Opening(s) && c in s.couriers && s.couriers[c].status == Available && created != cancelled
    ensures var again := Assign(created, order, Some([c]), trip, now, out1, true);
            var cancel := Cancel(cancelled, order, out2, true);
            && Apply(s, again.(candidates := Some([]))) == (s, Faulted(NoCandidates))
            && Apply(s, cancel).1 == Done
            && var t := Run(s, [cancel, again]);
            && Live(t.trips, trip) && t.trips[trip].order == order
            && Apply(t, cancel) == (t, Duplicate)
  {
    var again := Assign(created, order, Some([c]), trip, now, out1, true);
    var cancel := Cancel(cancelled, order, out2, true);
    assert [cancel, again][..1] == [cancel] && [cancel][..0] == [];
    var mid := s.(inbox := s.inbox + {cancelled});
    assert Apply(s, cancel) == (mid, Done);
    assert Run(s, [cancel]) == mid;
    assert FirstAvailable(mid.couriers, [c]) == Some(c);
    assert Run(s, [cancel, again]) == AfterAssign(mid, created, order, c, trip, now, out1);
  }

  // ------------------------------------------------------------------ ETA evaluation

  /** What a prediction row says about its completed or unfinished trip. */
  ghost predicate Evaluated(trips: map<Id, Trip>, p: Prediction) {
    && p.trip in trips && p.seconds > 0
    && p.completedAt == trips[p.trip].completedAt
    && p.actual == if p.completedAt.Some? then Some(ActualSeconds(p.completedAt.value, p.predictedAt)) else None
  }

  ghost predicate EtaSound(trips: map<Id, Trip>, predictions: seq<Prediction>) {
    && (forall t :: t in trips ==> (trips[t].status == Completed <==> trips[t].completedAt.Some?))
    && (forall i :: 0 <= i < |predictions| ==> Evaluated(trips, predictions[i]))
    && (forall i, j :: 0 <= i < j < |predictions| ==> predictions[i].trip != predictions[j].trip || predictions[i].stage != predictions[j].stage)
  }

  lemma EndIsEtaSound(trips: map<Id, Trip>, predictions: seq<Prediction>, t: Id, at: int)
    requires EtaSound(trips, predictions) && Live(trips, t)
    ensures EtaSound(trips[t := Advanced(trips[t], Completed, at)], Closed(predictions, t, at))
  {
    var trips', closed := trips[t := Advanced(trips[t], Completed, at)], Closed(predictions, t, at);
    forall i | 0 <= i < |closed| ensures Evaluated(trips', closed[i]) {
      assert Evaluated(trips, predictions[i]);
    }
  }

  lemma KeepIsEtaSound(trips: map<Id, Trip>, predictions: seq<Prediction>, t: Id, row: Trip)
    requires EtaSound(trips, predictions) && (row.status == Completed <==> row.completedAt.Some?)
    requires t in trips ==> row.completedAt == trips[t].completedAt
    ensures EtaSound(trips[t := row], predictions)
  {
    forall i | 0 <= i < |predictions| ensures Evaluated(trips[t := row], predictions[i]) {
      assert Evaluated(trips, predictions[i]);
    }
  }

  lemma SaveIsEtaSound(trips: map<Id, Trip>, predictions: seq<Prediction>, p: Prediction)
    requires EtaSound(trips, predictions) && Evaluated(trips, p) && FindPrediction(predictions, p.trip, p.stage).None?
    ensures EtaSound(trips, predictions + [p])
  {
  }

  lemma PhaseIsEtaSound(s: Tables, trip: Id, courier: Id, phase: Phase, at: int, outId: Id)
    requires EtaSound(s.trips, s.predictions)
    ensures var t := PhaseTx(s, trip, courier, phase, at, outId).0; EtaSound(t.trips, t.predictions)
  {
    var t := PhaseTx(s, trip, courier, phase, at, outId).0;
    if t != s && phase.Towards? {
      if phase.status == Completed {
        EndIsEtaSound(s.trips, s.predictions, trip, at);
      } else {
        KeepIsEtaSound(s.trips, s.predictions, trip, Advanced(s.trips[trip], phase.status, at));
      }
    }
  }

  lemma ActIsEtaSound(s: Tables, a: Act)
    requires EtaSound(s.trips, s.predictions)
    ensures EtaSound(Apply(s, a).0.trips, Apply(s, a).0.predictions)
  {
    var t := Apply(s, a).0;
    if t.trips != s.trips || t.predictions != s.predictions {
      match a
      case Assign(_, _, _, newTrip, _, _, _) => KeepIsEtaSound(s.trips, s.predictions, newTrip, t.trips[newTrip]);
      case Cancel(_, order, _, _) => KeepIsEtaSound(s.trips, s.predictions, TripOf(s.trips, order), t.trips[TripOf(s.trips, order)]);
      case Locate(eventId, l, outId, _) =>
        PhaseIsEtaSound(AfterLocation(s.(inbox := s.inbox + {eventId}), l), l.trip.value, l.courier, l.phase, l.recordedAt, outId);
      case Delay(trip, _, _) => KeepIsEtaSound(s.trips, s.predictions, trip, t.trips[trip]);
      case Complete(trip, now, _, _) => EndIsEtaSound(s.trips, s.predictions, trip, now);
      case Save(trip, _, seconds, _, _) =>
        KeepIsEtaSound(s.trips, s.predictions, trip, t.trips[trip]);
        SaveIsEtaSound(t.trips, s.predictions, t.predictions[|s.predictions|]);
    }
  }

  lemma {:induction false} RunIsEtaSound(s: Tables, acts: seq<Act>)
    requires EtaSound(s.trips, s.predictions)
    ensures EtaSound(Run(s, acts).trips, Run(s, acts).predictions)
  {
    if acts != [] {
      RunIsEtaSound(s, acts[..|acts| - 1]);
      ActIsEtaSound(Run(s, acts[..|acts| - 1]), acts[|acts| - 1]);
    }
  }

  /** One prediction per trip and stage; saved before or after completion, every prediction of a completed trip is
      closed with max(0, completed_at - predicted_at), and no other prediction is closed. */
  lemma {:induction false} EtaEvaluationCloses(s: Tables, acts: seq<Act>, i: nat, j: nat)
    requires Opening(s) && i < |Run(s, acts).predictions| && j < |Run(s, acts).predictions|
    ensures var t := Run(s, acts);
            var p, q := t.predictions[i], t.predictions[j];
            && (p.trip == q.trip && p.stage == q.stage ==> i == j)
            && p.trip in t.trips
            && (t.trips[p.trip].status == Completed ==>
                  && t.trips[p.trip].completedAt.Some? && p.completedAt == t.trips[p.trip].completedAt
                  && p.actual == Some(ActualSeconds(t.trips[p.trip].completedAt.value, p.predictedAt)))
            && (t.trips[p.trip].status != Completed ==> p.actual == None && p.completedAt == None)
  {
    RunIsEtaSound(s, acts);
    var t := Run(s, acts);
    assert Evaluated(t.trips, t.predictions[i]);
  }

  /** The injected delay stays in the range the schema allows. */
  lemma {:induction false} DelayStaysInRange(s: Tables, acts: seq<Act>)
    requires forall t :: t in s.trips ==> 0 <= s.trips[t].delaySeconds <= 600
    ensures forall t :: t in Run(s, acts).trips ==> 0 <= Run(s, acts).trips[t].delaySeconds <= 600
  {
    if acts != [] {
      var mid, last := Run(s, acts[..|acts| - 1]), acts[|acts| - 1];
      DelayStaysInRange(s, acts[..|acts| - 1]);
      forall u | u in Apply(mid, last).0.trips ensures 0 <= Apply(mid, last).0.trips[u].delaySeconds <= 600 {
        if u in mid.trips {
          RowsStay(mid, last, u);
        } else {
          NewRowsAreAssigned(mid, last, u);
        }
      }
    }
  }
}
