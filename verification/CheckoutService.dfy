/**
 `Create` and `Cancel` of service.go as they run when nothing interferes: the order, cart and catalog stores are
 called in turn, and every call may fail or lose its answer. Such a call is a run of the saga machine.
 */
module CheckoutService {
  import opened Prelude
  import opened Saga
  import C = Catalog
  import Carts
  import CartRuns
  import O = Orders
  import OrderStore

  /** What the environment does to one `Create` call, and the fresh ids and times it draws. */
  datatype Fate = Fate(
    newAttempt: Id, prepare: Answer,
    known: bool, cartUp: bool, readable: bool, cartAnswers: bool, stored: bool,
    ttl: int, newReservation: Id, reservedAt: int, reserve: Answer,
    newOrder: Id, now: int, outId: Id, persist: Answer, released: bool)

  datatype Outcome = Outcome(tables: O.Tables, ledger: C.Ledger, result: Result)

  // ------------------------------------------------------------------ What one call does

  /** `persistOrder`, and the release when it fails. */
  ghost function Settled(t: O.Tables, ledger: C.Ledger, key: Id, request: O.Checkout, response: C.Response, f: Fate): Outcome {
    var (tables, outcome) := O.PersistTx(t, key, request, response, f.newOrder, f.now, f.outId, f.persist != Aborts);
    if outcome.Done? && f.persist == Commits then
      Outcome(tables, ledger, Returned(O.NewOrder(f.newOrder, request, response, f.now)))
    else Outcome(tables, C.ReleaseTx(ledger, response.reservation, f.released).0, Failed)
  }

  ghost function CheckedOut(t: O.Tables, ledger: C.Ledger, key: Id, request: O.Checkout, attempt: Id, cart: Carts.Cart, f: Fate): Outcome {
    var (after, pc) := ReserveOver(ledger, HasCart(attempt, cart), f.ttl, f.newReservation, f.reservedAt, f.reserve);
    if pc.Finished? then Outcome(t, after, pc.result)
    else if pc.Reserved? then Settled(t, after, key, request, pc.response, f)
    else Outcome(t, after, Failed)
  }

  /** `read` is what the cart service answered. */
  ghost function Created(t: O.Tables, ledger: C.Ledger, key: Id, request: O.Checkout, read: Option<Carts.Cart>, f: Fate): Outcome {
    var (tables, prepared) := O.PrepareTx(t, key, request, f.newAttempt);
    var after := if f.prepare == Aborts then t else tables;
    var pc := AfterPrepare(f.prepare, prepared);
    if pc.Finished? then Outcome(after, ledger, pc.result)
    else
      var next := AfterCart(request, pc.attempt, read);
      if next.Finished? then Outcome(after, ledger, next.result)
      else CheckedOut(after, ledger, key, request, next.attempt, next.cart, f)
  }

  ghost function CartSeen(carts: Carts.Store, user: Id, f: Fate): Option<Carts.Cart>
    reads carts
  {
    if !f.known || !f.cartUp then None
    else if user in carts.cache && f.readable then Some(carts.cache[user])
    else if !f.cartAnswers then None
    else Some(Carts.CartOf(carts.Row(user)))
  }

  /** The raw request the cart's items become; their ids are canonical texts. */
  function RawOf(attempt: Id, items: seq<Carts.Item>, ttl: int): (raw: C.RawRequest)
    ensures |raw.lines| == |items|
    ensures forall i :: 0 <= i < |items| ==> raw.lines[i] == C.RawLine(C.Uuid(items[i].product, items[i].product), items[i].quantity)
  {
    C.RawRequest(C.Uuid(attempt, attempt),
                 seq(|items|, i requires 0 <= i < |items| => C.RawLine(C.Uuid(items[i].product, items[i].product), items[i].quantity)),
                 ttl)
  }

  /** Sending it as text loses nothing: the catalog accepts it iff the request is valid, as that very request. */
  lemma RawIsTheRequest(attempt: Id, items: seq<Carts.Item>, ttl: int)
    ensures var raw := RawOf(attempt, items, ttl);
            && (1 <= |raw.lines| <= C.MAX_LINES && 60 <= raw.ttlSeconds <= 1800 && C.GoodLines(raw.lines)
                <==> C.Valid(C.Request(attempt, LinesOf(items), ttl)))
            && forall r :: C.Parses(raw, r) ==> r == C.Request(attempt, LinesOf(items), ttl)
  {
    var raw, request := RawOf(attempt, items, ttl), C.Request(attempt, LinesOf(items), ttl);
    if C.Valid(request) {
      forall i, j | 0 <= i < j < |raw.lines| ensures raw.lines[i].product.spelling != raw.lines[j].product.spelling {
        assert request.lines[i].spelling != request.lines[j].spelling;
      }
      forall i | 0 <= i < |raw.lines| ensures C.GoodLine(raw.lines[i]) {
        assert 1 <= request.lines[i].quantity;
      }
    }
    if C.GoodLines(raw.lines) {
      forall i | 0 <= i < |request.lines| ensures 1 <= request.lines[i].quantity <= C.MAX_QUANTITY {
        assert C.GoodLine(raw.lines[i]);
      }
      forall i, j | 0 <= i < j < |request.lines| ensures request.lines[i].spelling != request.lines[j].spelling {
        assert raw.lines[i].product.spelling != raw.lines[j].product.spelling;
      }
    }
    forall r | C.Parses(raw, r) ensures r == request {
      assert r.lines == request.lines;
    }
  }

  // ------------------------------------------------------------------ The service

  class Service {
    const orders: OrderStore.OrderDb
    const carts: Carts.Store
    const catalog: C.CatalogDb

    constructor (orders: OrderStore.OrderDb, carts: Carts.Store, catalog: C.CatalogDb)
      ensures this.orders == orders && this.carts == carts && this.catalog == catalog
    {
      this.orders, this.carts, this.catalog := orders, carts, catalog;
    }

    method Settle(key: Id, request: O.Checkout, response: C.Response, f: Fate) returns (result: Result)
      modifies orders, catalog
      ensures Outcome(orders.View(), catalog.View(), result) == Settled(old(orders.View()), old(catalog.View()), key, request, response, f)
    {
      var outcome := orders.PersistOrder(key, request, response, f.newOrder, f.now, f.outId, f.persist != Aborts);
      if outcome != O.Done || f.persist != Commits {
        var _ := catalog.Release(response.reservation, f.released);
        return Failed;
      }
      return Returned(O.NewOrder(f.newOrder, request, response, f.now));
    }

    method CheckOut(key: Id, request: O.Checkout, attempt: Id, cart: Carts.Cart, f: Fate) returns (result: Result)
      requires C.UniqueAttempts(catalog.reservations)
      modifies orders, catalog
      ensures Outcome(orders.View(), catalog.View(), result) == CheckedOut(old(orders.View()), old(catalog.View()), key, request, attempt, cart, f)
    {
      var validated := C.ValidateReserve(RawOf(attempt, cart.items, f.ttl));
      RawIsTheRequest(attempt, cart.items, f.ttl);
      if validated.Refused? {
        return Failed;
      }
      var reply := catalog.Reserve(validated.request, f.newReservation, f.reservedAt, f.reserve != Aborts);
      if f.reserve != Commits || reply.Faulted? {
        return Failed;
      }
      if reply.response.status == C.Failed {
        return InsufficientStock;
      }
      result := Settle(key, request, reply.response, f);
    }

    method Create(key: Id, request: O.Checkout, f: Fate) returns (result: Result)
      requires C.UniqueAttempts(catalog.reservations)
      modifies orders, catalog, carts`cache
      ensures Outcome(orders.View(), catalog.View(), result)
              == Created(old(orders.View()), old(catalog.View()), key, request, old(CartSeen(carts, request.user, f)), f)
    {
      if f.prepare == Aborts {
        return Failed;
      }
      var prepared := orders.PrepareIdempotency(key, request, f.newAttempt);
      if f.prepare == CommitUnknown {
        return Failed;
      }
      if prepared.KeyReused? {
        return KeyReused;
      }
      if prepared.Replay? {
        return Returned(prepared.order);
      }
      if !f.known || !f.cartUp {
        return Refused;
      }
      var cart := carts.Get(request.user, f.readable, f.cartAnswers, f.stored);
      if cart.None? || cart.value.version != request.cartVersion || cart.value.items == [] {
        return Refused;
      }
      result := CheckOut(key, request, prepared.attempt, cart.value, f);
    }

    /** `Cancel`: the release goes first, the order is only cancelled after its answer. */
    method Cancel(order: Id, release: Answer, at: int, outId: Id, outId2: Id, commit: Answer) returns (outcome: O.Outcome)
      modifies orders, catalog
      ensures outcome == Cancelled(old(orders.View()), old(catalog.View()), order, release, at, outId, outId2, commit).0
      ensures orders.View() == Cancelled(old(orders.View()), old(catalog.View()), order, release, at, outId, outId2, commit).1
      ensures catalog.View() == Cancelled(old(orders.View()), old(catalog.View()), order, release, at, outId, outId2, commit).2
    {
      var answered := false;
      if order in orders.orders && O.CanCancel(orders.orders[order].status) {
        var fault := catalog.Release(orders.orders[order].reservation, release != Aborts);
        answered := release == Commits && fault.None?;
      }
      outcome := orders.Cancel(order, answered, at, outId, outId2, commit != Aborts);
      if outcome.Done? && commit == CommitUnknown {
        outcome := O.Faulted(O.CommitFailed);
      }
    }
  }

  ghost function Cancelled(t: O.Tables, ledger: C.Ledger, order: Id, release: Answer, at: int, outId: Id, outId2: Id, commit: Answer): (O.Outcome, O.Tables, C.Ledger) {
    var asked := order in t.orders && O.CanCancel(t.orders[order].status);
    var (after, fault) := C.ReleaseTx(ledger, if asked then t.orders[order].reservation else 0, release != Aborts);
    var (tables, outcome) := O.CancelTx(t, order, asked && release == Commits && fault.None?, at, outId, outId2, commit != Aborts);
    (Told(outcome, commit), tables, if asked then after else ledger)
  }

  // ------------------------------------------------------------------ One call is a run of the saga

  /** Nothing but call `p` and its lock has moved, and a finished call has freed its lock. */
  ghost predicate Alone(s: State, t: State, p: Id) {
    && t.contents == s.contents && t.cancels == s.cancels && t.rowLocks == s.rowLocks
    && t.creates.Keys == s.creates.Keys + {p}
    && (t.creates[p].pc.Finished? && t.creates[p].connected ==> t.creates[p].key !in t.keyLocks)
  }

  /** Call `p`, which was `c`, has returned. */
  ghost predicate Ends(c: Create, s: State, p: Id, o: Outcome) {
    p in s.creates && s.creates[p] == c.(pc := Finished(o.result)) && s.tables == o.tables && s.ledger == o.ledger
  }

  ghost function Settling(s: State, p: Id, f: Fate): State {
    Next(Next(s, Persist(p, f.newOrder, f.now, f.outId, f.persist)), Compensate(p, f.released))
  }

  lemma FinishedCallsRest(s: State, p: Id, f: Fate)
    requires p in s.creates && s.creates[p].pc.Finished?
    ensures Settling(s, p, f) == s
    ensures Next(s, Reserve(p, f.ttl, f.newReservation, f.reservedAt, f.reserve)) == s
  {
  }

  lemma SettleFollows(s: State, p: Id, f: Fate)
    requires p in s.creates && s.creates[p].pc.Reserved? && s.creates[p].connected
    ensures Ends(s.creates[p], Settling(s, p, f), p, Settled(s.tables, s.ledger, s.creates[p].key, s.creates[p].request, s.creates[p].pc.response, f))
    ensures Alone(s, Settling(s, p, f), p)
  {
    var mid := Next(s, Persist(p, f.newOrder, f.now, f.outId, f.persist));
    PersistEnds(s, p, f);
    PersistIsAlone(s, p, f);
    if mid.creates[p].pc.MustRelease? {
      CompensateEnds(mid, p, f.released);
    }
  }

  lemma CompensateEnds(s: State, p: Id, released: bool)
    requires p in s.creates && s.creates[p].pc.MustRelease?
    ensures var t := Next(s, Compensate(p, released));
            && t.tables == s.tables && t.ledger == C.ReleaseTx(s.ledger, s.creates[p].pc.reservation, released).0
            && p in t.creates && t.creates[p] == s.creates[p].(pc := Finished(Failed)) && Alone(s, t, p)
  {
  }

  /** What the persist transaction answers to call `c`. */
  ghost function Persisting(t: O.Tables, c: Create, f: Fate): (O.Tables, O.Outcome)
    requires c.pc.Reserved?
  {
    O.PersistTx(t, c.key, c.request, c.pc.response, f.newOrder, f.now, f.outId, f.persist != Aborts)
  }

  function PersistedPc(c: Create, outcome: O.Outcome, f: Fate): Pc
    requires c.pc.Reserved?
  {
    if outcome.Done? && f.persist == Commits then Finished(Returned(O.NewOrder(f.newOrder, c.request, c.pc.response, f.now)))
    else MustRelease(c.pc.response.reservation)
  }

  lemma PersistEnds(s: State, p: Id, f: Fate)
    requires p in s.creates && s.creates[p].pc.Reserved? && s.creates[p].connected
    ensures var mid := Next(s, Persist(p, f.newOrder, f.now, f.outId, f.persist));
            && mid.tables == Persisting(s.tables, s.creates[p], f).0 && mid.ledger == s.ledger && p in mid.creates
            && mid.creates[p] == s.creates[p].(pc := PersistedPc(s.creates[p], Persisting(s.tables, s.creates[p], f).1, f))
  {
    var (tables, outcome) := Persisting(s.tables, s.creates[p], f);
    var step := PersistStep(s, p, f.newOrder, f.now, f.outId, f.persist);
    if outcome.Done? {
      assert step.tables == tables;
    } else {
      assert tables == s.tables;
    }
  }

  lemma PersistIsAlone(s: State, p: Id, f: Fate)
    requires p in s.creates && s.creates[p].pc.Reserved? && s.creates[p].connected
    ensures Alone(s, Next(s, Persist(p, f.newOrder, f.now, f.outId, f.persist)), p)
  {
  }

  ghost function CheckingOut(s: State, p: Id, f: Fate): State {
    Settling(Next(s, Reserve(p, f.ttl, f.newReservation, f.reservedAt, f.reserve)), p, f)
  }

  lemma CheckOutFollows(s: State, p: Id, f: Fate)
    requires p in s.creates && s.creates[p].pc.HasCart? && s.creates[p].connected
    ensures Ends(s.creates[p], CheckingOut(s, p, f), p,
                 CheckedOut(s.tables, s.ledger, s.creates[p].key, s.creates[p].request, s.creates[p].pc.attempt, s.creates[p].pc.cart, f))
    ensures Alone(s, CheckingOut(s, p, f), p)
  {
    var mid := Next(s, Reserve(p, f.ttl, f.newReservation, f.reservedAt, f.reserve));
    ReserveEnds(s, p, f);
    if mid.creates[p].pc.Reserved? {
      SettleFollows(mid, p, f);
    } else {
      FinishedCallsRest(mid, p, f);
    }
  }

  lemma ReserveEnds(s: State, p: Id, f: Fate)
    requires p in s.creates && s.creates[p].pc.HasCart?
    ensures var mid := Next(s, Reserve(p, f.ttl, f.newReservation, f.reservedAt, f.reserve));
            var (ledger, pc) := ReserveOver(s.ledger, s.creates[p].pc, f.ttl, f.newReservation, f.reservedAt, f.reserve);
            && mid.tables == s.tables && mid.ledger == ledger && (pc.Finished? || pc.Reserved?)
            && p in mid.creates && mid.creates[p] == s.creates[p].(pc := pc) && Alone(s, mid, p)
  {
  }

  /** The steps of one call that holds its session to the end; steps a finished call no longer takes do nothing. */
  function StepsOf(p: Id, key: Id, request: O.Checkout, read: Option<Carts.Cart>, f: Fate): seq<Step> {
    [ Start(p, key, request), Lock(p), Prepare(p, f.newAttempt, f.prepare), ReadCart(p, read),
      Reserve(p, f.ttl, f.newReservation, f.reservedAt, f.reserve),
      Persist(p, f.newOrder, f.now, f.outId, f.persist), Compensate(p, f.released) ]
  }

  ghost function Locking(s: State, p: Id, key: Id, request: O.Checkout): State {
    Next(Next(s, Start(p, key, request)), Lock(p))
  }

  ghost function Reading(s: State, p: Id, read: Option<Carts.Cart>, f: Fate): State {
    CheckingOut(Next(Next(s, Prepare(p, f.newAttempt, f.prepare)), ReadCart(p, read)), p, f)
  }

  lemma RunNext(s: State, steps: seq<Step>, step: Step)
    ensures Run(s, steps + [step]) == Next(Run(s, steps), step)
  {
    assert (steps + [step])[..|steps|] == steps;
  }

  lemma StepsAreTaken(s: State, steps: seq<Step>, p: Id, key: Id, request: O.Checkout, read: Option<Carts.Cart>, f: Fate)
    ensures Run(s, steps + StepsOf(p, key, request, read, f)) == Reading(Locking(Run(s, steps), p, key, request), p, read, f)
  {
    var all := StepsOf(p, key, request, read, f);
    var s1 := steps + [all[0]];
    var s2 := s1 + [all[1]];
    var s3 := s2 + [all[2]];
    var s4 := s3 + [all[3]];
    var s5 := s4 + [all[4]];
    var s6 := s5 + [all[5]];
    RunNext(s, steps, all[0]);
    RunNext(s, s1, all[1]);
    RunNext(s, s2, all[2]);
    RunNext(s, s3, all[3]);
    RunNext(s, s4, all[4]);
    RunNext(s, s5, all[5]);
    RunNext(s, s6, all[6]);
    assert steps + all == s6 + [all[6]];
  }

  lemma LockEnds(s: State, p: Id, key: Id, request: O.Checkout)
    requires p !in s.creates && key !in s.keyLocks
    ensures var locked := Locking(s, p, key, request);
            && locked.tables == s.tables && locked.ledger == s.ledger
            && p in locked.creates && locked.creates[p] == Create(key, request, true, Locked) && Alone(s, locked, p)
  {
    assert IsAt(Next(s, Start(p, key, request)), p, Waiting);
  }

  lemma PrepareEnds(s: State, p: Id, f: Fate)
    requires IsAt(s, p, Locked) && s.creates[p].connected && Fresh(s, f.newAttempt)
    ensures var mid := Next(s, Prepare(p, f.newAttempt, f.prepare));
            var (tables, prepared) := O.PrepareTx(s.tables, s.creates[p].key, s.creates[p].request, f.newAttempt);
            && mid.tables == (if f.prepare == Aborts then s.tables else tables) && mid.ledger == s.ledger
            && p in mid.creates && mid.creates[p] == s.creates[p].(pc := AfterPrepare(f.prepare, prepared)) && Alone(s, mid, p)
  {
  }

  lemma ReadEnds(s: State, p: Id, read: Option<Carts.Cart>)
    requires p in s.creates && s.creates[p].pc.Prepared?
    requires read.Some? ==> CartRuns.NotOlder(ContentsOf(s.contents, s.creates[p].request.user), read.value)
    ensures var mid := Next(s, ReadCart(p, read));
            && mid.tables == s.tables && mid.ledger == s.ledger
            && p in mid.creates && mid.creates[p] == s.creates[p].(pc := AfterCart(s.creates[p].request, s.creates[p].pc.attempt, read))
            && Alone(s, mid, p)
  {
  }

  lemma FinishedCallsReadNothing(s: State, p: Id, read: Option<Carts.Cart>, f: Fate)
    requires p in s.creates && s.creates[p].pc.Finished?
    ensures CheckingOut(Next(s, ReadCart(p, read)), p, f) == s
  {
    FinishedCallsRest(s, p, f);
  }

  lemma ReadFollows(s: State, p: Id, read: Option<Carts.Cart>, f: Fate)
    requires p in s.creates && s.creates[p].pc.Prepared? && s.creates[p].connected
    requires read.Some? ==> CartRuns.NotOlder(ContentsOf(s.contents, s.creates[p].request.user), read.value)
    ensures var c := s.creates[p];
            var next := AfterCart(c.request, c.pc.attempt, read);
            var t := CheckingOut(Next(s, ReadCart(p, read)), p, f);
            && Alone(s, t, p)
            && Ends(c, t, p, if next.Finished? then Outcome(s.tables, s.ledger, next.result)
                             else CheckedOut(s.tables, s.ledger, c.key, c.request, next.attempt, next.cart, f))
  {
    ReadEnds(s, p, read);
    var mid := Next(s, ReadCart(p, read));
    if mid.creates[p].pc.Finished? {
      FinishedCallsRest(mid, p, f);
    } else {
      CheckOutFollows(mid, p, f);
    }
  }

  lemma LockedFollows(s: State, p: Id, read: Option<Carts.Cart>, f: Fate)
    requires IsAt(s, p, Locked) && s.creates[p].connected && Fresh(s, f.newAttempt)
    requires read.Some? ==> CartRuns.NotOlder(ContentsOf(s.contents, s.creates[p].request.user), read.value)
    ensures Alone(s, Reading(s, p, read, f), p)
    ensures Ends(s.creates[p], Reading(s, p, read, f), p, Created(s.tables, s.ledger, s.creates[p].key, s.creates[p].request, read, f))
  {
    PrepareEnds(s, p, f);
    var prepared := Next(s, Prepare(p, f.newAttempt, f.prepare));
    if prepared.creates[p].pc.Finished? {
      FinishedCallsReadNothing(prepared, p, read, f);
    } else {
      ReadFollows(prepared, p, read, f);
    }
  }

  /** What `Create` does to the stores when nothing interferes is what the saga's steps do to them. */
  lemma {:induction false} CreateIsASagaRun(s: State, steps: seq<Step>, p: Id, key: Id, request: O.Checkout, read: Option<Carts.Cart>, f: Fate)
    requires p !in Run(s, steps).creates && key !in Run(s, steps).keyLocks && Fresh(Run(s, steps), f.newAttempt)
    requires read.Some? ==> CartRuns.NotOlder(ContentsOf(Run(s, steps).contents, request.user), read.value)
    ensures var before, after := Run(s, steps), Run(s, steps + StepsOf(p, key, request, read, f));
            && Ends(Create(key, request, true, Waiting), after, p, Created(before.tables, before.ledger, key, request, read, f))
            && Alone(before, after, p) && key !in after.keyLocks
  {
    var before := Run(s, steps);
    StepsAreTaken(s, steps, p, key, request, read, f);
    LockEnds(before, p, key, request);
    var locked := Locking(before, p, key, request);
    LockedFollows(locked, p, read, f);
  }

  /** `Cancel` likewise: same tables, same ledger, same outcome. */
  lemma {:induction false} CancelIsASagaRun(s: State, steps: seq<Step>, c: Id, order: Id, release: Answer, at: int, outId: Id, outId2: Id, commit: Answer)
    requires c !in Run(s, steps).cancels && order !in Run(s, steps).rowLocks
    requires order in Run(s, steps).tables.orders && O.CanCancel(Run(s, steps).tables.orders[order].status)
    ensures var before := Run(s, steps);
            var t := Run(s, steps + [StartCancel(c, order), CancelRelease(c, release), CancelCommit(c, at, outId, outId2, commit)]);
            var o := Cancelled(before.tables, before.ledger, order, release, at, outId, outId2, commit);
            && c in t.ended && t.ended[c] == o.0 && t.tables == o.1 && t.ledger == o.2
  {
    var before := Run(s, steps);
    CancelStepsAreTaken(s, steps, c, order, release, at, outId, outId2, commit);
    StartCancelEnds(before, c, order);
    StartedCancelFollows(Next(before, StartCancel(c, order)), c, release, at, outId, outId2, commit);
  }

  lemma CancelStepsAreTaken(s: State, steps: seq<Step>, c: Id, order: Id, release: Answer, at: int, outId: Id, outId2: Id, commit: Answer)
    ensures Run(s, steps + [StartCancel(c, order), CancelRelease(c, release), CancelCommit(c, at, outId, outId2, commit)])
            == Next(Next(Next(Run(s, steps), StartCancel(c, order)), CancelRelease(c, release)), CancelCommit(c, at, outId, outId2, commit))
  {
    var s1 := steps + [StartCancel(c, order)];
    var s2 := s1 + [CancelRelease(c, release)];
    RunNext(s, steps, StartCancel(c, order));
    RunNext(s, s1, CancelRelease(c, release));
    RunNext(s, s2, CancelCommit(c, at, outId, outId2, commit));
    assert steps + [StartCancel(c, order), CancelRelease(c, release), CancelCommit(c, at, outId, outId2, commit)]
           == s2 + [CancelCommit(c, at, outId, outId2, commit)];
  }

  lemma StartedCancelFollows(s: State, c: Id, release: Answer, at: int, outId: Id, outId2: Id, commit: Answer)
    requires c in s.cancels && !s.cancels[c].released && s.cancels[c].connected
    ensures var t := Next(Next(s, CancelRelease(c, release)), CancelCommit(c, at, outId, outId2, commit));
            var (ledger, fault) := C.ReleaseTx(s.ledger, s.cancels[c].reservation, release != Aborts);
            var (tables, outcome) := O.CancelTx(s.tables, s.cancels[c].order, true, at, outId, outId2, commit != Aborts);
            && t.ledger == ledger && c in t.ended
            && (if release == Commits && fault.None? then t.tables == tables && t.ended[c] == Told(outcome, commit)
                else t.tables == s.tables && t.ended[c] == O.Faulted(O.ReleaseFailed))
  {
    CancelReleaseEnds(s, c, release);
    CancelCommitEnds(CancelReleaseStep(s, c, release), c, at, outId, outId2, commit);
  }

  lemma StartCancelEnds(s: State, c: Id, order: Id)
    requires c !in s.cancels && order !in s.rowLocks
    requires order in s.tables.orders && O.CanCancel(s.tables.orders[order].status)
    ensures var s1 := Next(s, StartCancel(c, order));
            && s1.tables == s.tables && s1.ledger == s.ledger
            && c in s1.cancels && s1.cancels[c] == Saga.Cancel(order, s.tables.orders[order].reservation, true, false)
  {
  }

  lemma CancelCommitEnds(s: State, c: Id, at: int, outId: Id, outId2: Id, commit: Answer)
    requires c in s.cancels ==> s.cancels[c].released && s.cancels[c].connected
    ensures var t := Next(s, CancelCommit(c, at, outId, outId2, commit));
            && t.ledger == s.ledger
            && (c !in s.cancels ==> t == s)
            && (c in s.cancels ==>
                  var (tables, outcome) := O.CancelTx(s.tables, s.cancels[c].order, true, at, outId, outId2, commit != Aborts);
                  t.tables == tables && c in t.ended && t.ended[c] == Told(outcome, commit))
  {
  }

  lemma CancelReleaseEnds(s: State, c: Id, release: Answer)
    requires c in s.cancels && !s.cancels[c].released
    ensures var mid := CancelReleaseStep(s, c, release);
            var (ledger, fault) := C.ReleaseTx(s.ledger, s.cancels[c].reservation, release != Aborts);
            && mid.tables == s.tables && mid.ledger == ledger
            && (release == Commits && fault.None? ==> c in mid.cancels && mid.cancels[c] == s.cancels[c].(released := true))
            && (!(release == Commits && fault.None?) ==>
                  c !in mid.cancels && c in mid.ended && mid.ended[c] == O.Faulted(O.ReleaseFailed))
  {
  }
}
