/** The courier row as a last-writer-wins register over reordered and duplicated location events. */
module Positions {
  import opened Prelude
  import opened Delivery
  import opened DeliveryRuns

  /** The event asks for no phase change: no trip, an unknown trip, or its courier's trip with an idle or repeated phase. */
  ghost predicate Neutral(trips: map<Id, Trip>, l: Location) {
    || l.trip.None?
    || l.trip.value !in trips
    || (trips[l.trip.value].courier == l.courier && (l.phase == Idle || l.phase == Towards(trips[l.trip.value].status)))
  }

  /** The row reports where and when event `l` saw the courier. */
  ghost predicate Shows(row: Courier, l: Location) {
    row.latitude == l.latitude && row.longitude == l.longitude && row.sequence == l.sequence && row.lastSeen == l.recordedAt
  }

  ghost predicate SamePlace(a: Courier, b: Courier) {
    a.latitude == b.latitude && a.longitude == b.longitude && a.sequence == b.sequence && a.lastSeen == b.lastSeen
  }

  /** Whatever the step: a courier row keeps its place, or a location event moved it and raised its sequence. */
  lemma SequenceRisesWithEveryMove(s: Tables, a: Act, c: Id)
    requires c in s.couriers
    ensures var t := Apply(s, a).0;
            && c in t.couriers
            && (|| SamePlace(t.couriers[c], s.couriers[c])
                || (a.Locate? && a.location.courier == c && Shows(t.couriers[c], a.location)
                    && s.couriers[c].sequence < t.couriers[c].sequence))
  {
  }

  /** A new event about a known trip is refused exactly when the trip is another courier's, or its phase is neither
      neutral nor the next one; refused, it leaves courier, trip, inbox and outbox untouched, so it can be retried. */
  lemma RefusedPhaseChangesNothing(s: Tables, eventId: Id, l: Location, outId: Id)
    requires eventId !in s.inbox && Newer(s.couriers, l) && l.trip.Some? && l.trip.value in s.trips && !Used(s.outbox, outId)
    ensures var row := s.trips[l.trip.value];
            var (t, outcome) := LocationTx(s, eventId, l, outId, true);
            && (outcome == Faulted(CourierMismatch) <==> row.courier != l.courier)
            && (outcome == Faulted(InvalidTransition) <==>
                  row.courier == l.courier && !Neutral(s.trips, l) && !ValidTransition(row.status, l.phase))
            && (outcome.Faulted? <==> outcome == Faulted(CourierMismatch) || outcome == Faulted(InvalidTransition))
            && (outcome.Faulted? ==> t == s)
  {
  }

  datatype Sighting = Sighting(eventId: Id, location: Location)

  /** Events of the run, in the order Kafka happens to deliver them, each committed. */
  ghost function Deliver(s: Tables, sightings: seq<Sighting>): Tables {
    if sightings == [] then s
    else
      var last := sightings[|sightings| - 1];
      LocationTx(Deliver(s, sightings[..|sightings| - 1]), last.eventId, last.location, 0, true).0
  }

  /** Redeliveries repeat the event; distinct events of a courier have distinct sequences. */
  ghost predicate Agree(x: Sighting, y: Sighting) {
    && (x.eventId == y.eventId ==> x.location == y.location)
    && (x.location.courier == y.location.courier && x.location.sequence == y.location.sequence ==> x.location == y.location)
  }

  ghost predicate Consistent(sightings: seq<Sighting>) {
    forall x, y :: x in sightings && y in sightings ==> Agree(x, y)
  }

  ghost predicate FreshAndNeutral(s: Tables, sightings: seq<Sighting>) {
    forall i :: 0 <= i < |sightings| ==> sightings[i].eventId !in s.inbox && Neutral(s.trips, sightings[i].location)
  }

  /** The newest of the events of courier `c` that are newer than the row, if any, is what the row shows. */
  ghost predicate ShowsNewest(before: Courier, after: Courier, sightings: seq<Sighting>, c: Id) {
    && after.status == before.status
    && before.sequence <= after.sequence
    && (forall x :: x in sightings && x.location.courier == c ==> x.location.sequence <= after.sequence)
    && (|| after == before
        || (before.sequence < after.sequence && exists x :: x in sightings && x.location.courier == c && Shows(after, x.location)))
  }

  lemma {:induction false} DeliverShowsNewest(s: Tables, sightings: seq<Sighting>, c: Id)
    requires c in s.couriers && Consistent(sightings) && FreshAndNeutral(s, sightings)
    ensures var t := Deliver(s, sightings);
            && t.trips == s.trips && t.couriers.Keys == s.couriers.Keys && t.outbox == s.outbox
            && (forall e :: e in t.inbox ==> e in s.inbox || exists x :: x in sightings && x.eventId == e)
            && ShowsNewest(s.couriers[c], t.couriers[c], sightings, c)
  {
    if sightings != [] {
      var rest, last := sightings[..|sightings| - 1], sightings[|sightings| - 1];
      DeliverShowsNewest(s, rest, c);
      var mid := Deliver(s, rest);
      assert sightings == rest + [last];
      DeliverOne(mid, last, rest, sightings, s.couriers[c], c);
    }
  }

  lemma DeliverOne(mid: Tables, last: Sighting, rest: seq<Sighting>, all: seq<Sighting>, before: Courier, c: Id)
    requires c in mid.couriers && all == rest + [last] && Consistent(all) && Neutral(mid.trips, last.location)
    requires last.eventId in mid.inbox ==> exists x :: x in rest && x.eventId == last.eventId
    requires ShowsNewest(before, mid.couriers[c], rest, c)
    ensures var t := LocationTx(mid, last.eventId, last.location, 0, true).0;
            && t.trips == mid.trips && t.couriers.Keys == mid.couriers.Keys && t.outbox == mid.outbox
            && t.inbox <= mid.inbox + {last.eventId}
            && ShowsNewest(before, t.couriers[c], all, c)
  {
    var t := LocationTx(mid, last.eventId, last.location, 0, true).0;
    assert last in all && forall x :: x in rest ==> x in all;
    if last.eventId in mid.inbox {
      var x :| x in rest && x.eventId == last.eventId;
      assert Agree(x, last);
    } else if last.location.courier == c && Newer(mid.couriers, last.location) {
      assert Shows(t.couriers[c], last.location);
    } else {
      assert t.couriers[c] == mid.couriers[c];
    }
  }

  /** Two deliveries of the same events, in any orders and with any repetitions, end in the same courier row. */
  lemma {:induction false} LastWriterWins(s: Tables, one: seq<Sighting>, other: seq<Sighting>, c: Id)
    requires c in s.couriers && Consistent(one) && FreshAndNeutral(s, one) && FreshAndNeutral(s, other)
    requires forall x :: x in one <==> x in other
    ensures c in Deliver(s, one).couriers && c in Deliver(s, other).couriers
    ensures Deliver(s, one).couriers[c] == Deliver(s, other).couriers[c]
  {
    assert Consistent(other);
    DeliverShowsNewest(s, one, c);
    DeliverShowsNewest(s, other, c);
    NewestIsUnique(s.couriers[c], Deliver(s, one).couriers[c], Deliver(s, other).couriers[c], one, other, c);
  }

  lemma NewestIsUnique(before: Courier, a: Courier, b: Courier, one: seq<Sighting>, other: seq<Sighting>, c: Id)
    requires ShowsNewest(before, a, one, c) && ShowsNewest(before, b, other, c)
    requires Consistent(one) && forall x :: x in one <==> x in other
    ensures a == b
  {
    if a != before && b != before {
      var x :| x in one && x.location.courier == c && Shows(a, x.location);
      var y :| y in other && y.location.courier == c && Shows(b, y.location);
      assert x in other && y in one && Agree(x, y);
    }
  }
}
