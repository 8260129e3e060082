/** What every run of the checkout and cancellation sagas keeps. */
module SagaRuns {
  import opened Prelude
  import opened Saga
  import C = Catalog
  import L = Ledgers
  import Carts
  import CartRuns
  import Delivery
  import O = Orders
  import R = OrderRuns
  import SagaLedgers

  type Keys = map<Id, O.KeyRow>
  type Reservations = map<Id, C.Reservation>

  // ------------------------------------------------------------------ Invariants

  predicate Holding(pc: Pc) {
    pc.Locked? || HasAttempt(pc) || pc.MustRelease?
  }

  ghost predicate Exclusive(creates: map<Id, Create>, keyLocks: map<Id, Id>) {
    forall p :: p in creates && creates[p].connected && Holding(creates[p].pc) ==>
                  creates[p].key in keyLocks && keyLocks[creates[p].key] == p
  }

  /** A call past `prepareIdempotency` works for its own key row; while it is connected that row is not completed. */
  ghost predicate Bound(keys: Keys, c: Create) {
    HasAttempt(c.pc) ==>
      && c.key in keys && keys[c.key].request == c.request && keys[c.key].attempt == c.pc.attempt
      && (c.connected ==> keys[c.key].response.None?)
  }

  ghost predicate Owing(keys: Keys, reservations: Reservations, c: Create) {
    c.pc.MustRelease? ==>
      && c.key in keys && keys[c.key].request == c.request
      && c.pc.reservation in reservations && reservations[c.pc.reservation].attempt == keys[c.key].attempt
  }

  ghost predicate CartRead(seen: Seen, c: Create) {
    c.pc.HasCart? ==> c.pc.cart.version == c.request.cartVersion && (c.request.user, c.pc.cart) in seen
  }

  ghost predicate Granted(reservations: Reservations, c: Create) {
    c.pc.Reserved? ==> GrantedTo(reservations, c.pc.attempt, c.pc.response)
  }

  ghost predicate GrantedTo(reservations: Reservations, attempt: Id, response: C.Response) {
    && response.reservation in reservations && response.status == C.Active
    && reservations[response.reservation].attempt == attempt && reservations[response.reservation].response == response
  }

  ghost predicate Answered(keys: Keys, c: Create) {
    c.pc.Finished? && c.pc.result.Returned? ==>
      c.key in keys && keys[c.key].request == c.request && keys[c.key].response == Some(c.pc.result.order)
  }

  ghost predicate CallOk(keys: Keys, seen: Seen, reservations: Reservations, c: Create) {
    Bound(keys, c) && CartRead(seen, c) && Granted(reservations, c) && Answered(keys, c) && Owing(keys, reservations, c)
  }

  ghost predicate Calls(keys: Keys, seen: Seen, reservations: Reservations, creates: map<Id, Create>) {
    forall p :: p in creates ==> CallOk(keys, seen, reservations, creates[p])
  }

  /** The reserved products and quantities are those of the cart. */
  ghost predicate Matches(items: seq<C.ReservedItem>, cart: seq<Carts.Item>) {
    |items| == |cart| && forall i :: 0 <= i < |items| ==> items[i].product == cart[i].product && items[i].quantity == cart[i].quantity
  }

  /** They are those of a cart that a call for this user read at the requested version. */
  ghost predicate FromRead(seen: Seen, request: O.Checkout, items: seq<C.ReservedItem>) {
    exists cart :: (request.user, cart) in seen && cart.version == request.cartVersion && Matches(items, cart.items)
  }

  ghost predicate Serves(seen: Seen, request: O.Checkout, response: C.Response) {
    response.status == C.Active ==> FromRead(seen, request, response.items)
  }

  /** A cart that was read shows the contents of its version or of a later one. */
  ghost predicate ReadsOk(contents: Contents, seen: Seen) {
    forall x :: x in seen ==> CartRuns.NotOlder(ContentsOf(contents, x.0), x.1)
  }

  ghost predicate Keyed(keys: Keys) {
    forall k, j :: k in keys && j in keys && keys[k].attempt == keys[j].attempt ==> k == j
  }

  ghost predicate Self(reservations: Reservations) {
    forall r :: r in reservations ==> reservations[r].response.reservation == r && reservations[r].response.status != C.Released
  }

  ghost predicate Served(keys: Keys, seen: Seen, reservations: Reservations) {
    forall k, r :: k in keys && r in reservations && reservations[r].attempt == keys[k].attempt ==>
                     Serves(seen, keys[k].request, reservations[r].response)
  }

  /** An order is the stored response of the key it was created under, on the reservation of that key's attempt. */
  ghost predicate OrderOk(keys: Keys, born: map<Id, Id>, reservations: Reservations, o: Id, order: O.Order) {
    && o in born && born[o] in keys && order.id == o
    && keys[born[o]].response == Some(order.(status := O.Created))
    && order.user == keys[born[o]].request.user && order.cartVersion == keys[born[o]].request.cartVersion
    && order.reservation in reservations && reservations[order.reservation].attempt == keys[born[o]].attempt
    && reservations[order.reservation].response.status == C.Active
    && Carries(order, reservations[order.reservation].response)
  }

  /** The order takes items, total and currency from the reservation. */
  ghost predicate Carries(order: O.Order, response: C.Response) {
    order.items == response.items && order.total == response.total && order.currency == response.currency
  }

  ghost predicate Ordered(t: O.Tables, born: map<Id, Id>, reservations: Reservations) {
    forall o :: o in t.orders ==> OrderOk(t.keys, born, reservations, o, t.orders[o])
  }

  ghost predicate Completed(t: O.Tables) {
    forall k :: k in t.keys && t.keys[k].response.Some? ==> t.keys[k].response.value.id in t.orders
  }

  ghost predicate Inactive(reservations: Reservations, r: Id) {
    r in reservations && reservations[r].status != C.Active
  }

  ghost predicate CancelOk(orders: map<Id, O.Order>, reservations: Reservations, c: Cancel) {
    && c.order in orders && orders[c.order].reservation == c.reservation
    && (c.released ==> Inactive(reservations, c.reservation))
  }

  ghost predicate Cancels(orders: map<Id, O.Order>, reservations: Reservations, cancels: map<Id, Cancel>) {
    forall c :: c in cancels ==> CancelOk(orders, reservations, cancels[c])
  }

  ghost predicate CancelledAreInactive(orders: map<Id, O.Order>, reservations: Reservations) {
    forall o :: o in orders && orders[o].status == O.Cancelled ==> Inactive(reservations, orders[o].reservation)
  }

  /** A connected `Cancel` holds the row lock, and the order it read is still cancellable. */
  ghost predicate RowsHeld(orders: map<Id, O.Order>, cancels: map<Id, Cancel>, rowLocks: map<Id, Id>) {
    forall c :: c in cancels && cancels[c].connected ==>
                  && cancels[c].order in rowLocks && rowLocks[cancels[c].order] == c
                  && cancels[c].order in orders && O.CanCancel(orders[cancels[c].order].status)
  }

  ghost predicate CallInv(creates: map<Id, Create>, keyLocks: map<Id, Id>, keys: Keys, seen: Seen, reservations: Reservations) {
    && Exclusive(creates, keyLocks) && Keyed(keys) && Self(reservations)
    && Calls(keys, seen, reservations, creates) && Served(keys, seen, reservations)
  }

  ghost predicate OrderInv(t: O.Tables, born: map<Id, Id>, reservations: Reservations) {
    Ordered(t, born, reservations) && Completed(t)
  }

  ghost predicate CancelInv(orders: map<Id, O.Order>, reservations: Reservations, cancels: map<Id, Cancel>, rowLocks: map<Id, Id>) {
    && Cancels(orders, reservations, cancels) && CancelledAreInactive(orders, reservations)
    && RowsHeld(orders, cancels, rowLocks)
  }

  ghost predicate Inv(s: State) {
    && ReadsOk(s.contents, s.seen)
    && CallInv(s.creates, s.keyLocks, s.tables.keys, s.seen, s.ledger.reservations)
    && OrderInv(s.tables, s.born, s.ledger.reservations)
    && CancelInv(s.tables.orders, s.ledger.reservations, s.cancels, s.rowLocks)
  }

  // ------------------------------------------------------------------ Locks

  lemma MoveIsExclusive(s: State, p: Id, pc: Pc)
    requires Exclusive(s.creates, s.keyLocks) && p in s.creates && Holding(s.creates[p].pc)
    ensures Exclusive(Move(s, p, pc).creates, Move(s, p, pc).keyLocks)
  {
  }

  // ------------------------------------------------------------------ The ledger moves

  /** Reservations stay, keep attempt and answer, and never become active again. */
  ghost predicate Grown(reservations: Reservations, after: Reservations) {
    forall r :: r in reservations ==>
                  && r in after && after[r].attempt == reservations[r].attempt && after[r].response == reservations[r].response
                  && (reservations[r].status != C.Active ==> after[r].status != C.Active)
  }

  lemma CallsMayGrow(keys: Keys, seen: Seen, reservations: Reservations, after: Reservations, creates: map<Id, Create>)
    requires Calls(keys, seen, reservations, creates) && Grown(reservations, after)
    ensures Calls(keys, seen, after, creates)
  {
    forall p | p in creates ensures CallOk(keys, seen, after, creates[p]) {
      assert CallOk(keys, seen, reservations, creates[p]);
    }
  }

  lemma CancelsMayGrow(orders: map<Id, O.Order>, reservations: Reservations, after: Reservations, cancels: map<Id, Cancel>, rowLocks: map<Id, Id>)
    requires CancelInv(orders, reservations, cancels, rowLocks) && Grown(reservations, after)
    ensures CancelInv(orders, after, cancels, rowLocks)
  {
    forall c | c in cancels ensures CancelOk(orders, after, cancels[c]) {
      assert CancelOk(orders, reservations, cancels[c]);
    }
  }

  lemma OrdersMayGrow(t: O.Tables, born: map<Id, Id>, reservations: Reservations, after: Reservations)
    requires Ordered(t, born, reservations) && Grown(reservations, after)
    ensures Ordered(t, born, after)
  {
    forall o | o in t.orders ensures OrderOk(t.keys, born, after, o, t.orders[o]) {
      assert OrderOk(t.keys, born, reservations, o, t.orders[o]);
    }
  }

  /** Nothing about orders, keys and calls breaks when reservations only grow and new ones serve their keys. */
  lemma LedgerMayMove(s: State, after: C.Ledger)
    requires Inv(s) && Grown(s.ledger.reservations, after.reservations)
    requires Self(after.reservations) && Served(s.tables.keys, s.seen, after.reservations)
    ensures Inv(s.(ledger := after))
  {
    CallsMayGrow(s.tables.keys, s.seen, s.ledger.reservations, after.reservations, s.creates);
    CancelsMayGrow(s.tables.orders, s.ledger.reservations, after.reservations, s.cancels, s.rowLocks);
    OrdersMayGrow(s.tables, s.born, s.ledger.reservations, after.reservations);
  }

  lemma ReleaseKeeps(s: State, reservation: Id, commits: bool)
    requires Inv(s)
    ensures Inv(s.(ledger := C.ReleaseTx(s.ledger, reservation, commits).0))
    ensures C.ReleaseTx(s.ledger, reservation, commits).1.None? ==> Inactive(C.ReleaseTx(s.ledger, reservation, commits).0.reservations, reservation)
  {
    LedgerMayMove(s, C.ReleaseTx(s.ledger, reservation, commits).0);
  }

  // ------------------------------------------------------------------ Reserve

  ghost predicate StrictlyBySpelling(lines: seq<C.Line>) {
    forall i, j :: 0 <= i < j < |lines| ==> lines[i].spelling < lines[j].spelling
  }

  lemma {:induction false} SortedAlready(lines: seq<C.Line>)
    requires StrictlyBySpelling(lines)
    ensures C.SortLines(lines) == lines
  {
    if lines != [] {
      SortedAlready(lines[1..]);
      assert lines == [lines[0]] + lines[1..];
    }
  }

  /** A granted response takes the cart's lines one for one. */
  lemma DecideMatches(products: map<Id, C.Product>, request: C.Request, newId: Id, now: int, cart: seq<Carts.Item>)
    requires request.lines == LinesOf(cart) && StrictlyBySpelling(request.lines)
    requires C.Decide(products, request, newId, now).status == C.Active
    ensures Matches(C.Decide(products, request, newId, now).items, cart)
  {
    SortedAlready(request.lines);
    L.ShortageDecision(products, request.lines);
    L.AllServedItems(products, request.lines);
  }

  lemma CartAscends(contents: Contents, seen: Seen, user: Id, cart: Carts.Cart)
    requires ReadsOk(contents, seen) && (user, cart) in seen
    ensures StrictlyBySpelling(LinesOf(cart.items))
  {
    var x := (user, cart);
    assert CartRuns.NotOlder(ContentsOf(contents, x.0), x.1);
    var w :| cart.version <= w < |ContentsOf(contents, user)| && cart.items == Carts.Listing(ContentsOf(contents, user)[w]);
    Carts.ListingLists(ContentsOf(contents, user)[w]);
  }

  /** The reservation table after a committed or lost `Reserve`. */
  lemma ReserveMoves(s: C.Ledger, request: C.Request, newId: Id, now: int, commits: bool)
    requires Self(s.reservations)
    ensures var (t, reply) := C.ReserveTx(s, request, newId, now, commits);
            && Grown(s.reservations, t.reservations) && Self(t.reservations)
            && (forall r :: r in t.reservations && r !in s.reservations ==>
                  t.reservations[r].attempt == request.attempt && t.reservations[r].response == C.Decide(s.products, request, newId, now))
            && (reply.Answered? && reply.response.status != C.Failed ==> GrantedTo(t.reservations, request.attempt, reply.response))
  {
  }

  lemma ReserveServes(s: State, p: Id, ttl: int, newId: Id, now: int, commits: bool)
    requires Inv(s) && p in s.creates && s.creates[p].pc.HasCart?
    ensures var pc := s.creates[p].pc;
            var (t, reply) := C.ReserveTx(s.ledger, C.Request(pc.attempt, LinesOf(pc.cart.items), ttl), newId, now, commits);
            Served(s.tables.keys, s.seen, t.reservations)
  {
    var create := s.creates[p];
    var pc := create.pc;
    var request := C.Request(pc.attempt, LinesOf(pc.cart.items), ttl);
    assert CallOk(s.tables.keys, s.seen, s.ledger.reservations, create);
    CartAscends(s.contents, s.seen, create.request.user, pc.cart);
    ReserveMoves(s.ledger, request, newId, now, commits);
    var response := C.Decide(s.ledger.products, request, newId, now);
    if response.status == C.Active {
      DecideMatches(s.ledger.products, request, newId, now, pc.cart.items);
    }
    assert Serves(s.seen, create.request, response);
    NewReservationServes(s.tables.keys, s.seen, s.ledger.reservations, C.ReserveTx(s.ledger, request, newId, now, commits).0.reservations, create.key, response);
  }

  lemma NewReservationServes(keys: Keys, seen: Seen, reservations: Reservations, after: Reservations, key: Id, response: C.Response)
    requires Keyed(keys) && Served(keys, seen, reservations) && Grown(reservations, after)
    requires key in keys && Serves(seen, keys[key].request, response)
    requires forall r :: r in after && r !in reservations ==> after[r].attempt == keys[key].attempt && after[r].response == response
    ensures Served(keys, seen, after)
  {
    forall k, r | k in keys && r in after && after[r].attempt == keys[k].attempt
      ensures Serves(seen, keys[k].request, after[r].response)
    {
      if r !in reservations {
        assert k == key;
      }
    }
  }

  // ------------------------------------------------------------------ One call moves

  lemma MoveKeeps(s: State, p: Id, pc: Pc)
    requires Inv(s) && p in s.creates && Holding(s.creates[p].pc)
    requires CallOk(s.tables.keys, s.seen, s.ledger.reservations, s.creates[p].(pc := pc))
    ensures Inv(Move(s, p, pc))
  {
    MoveIsExclusive(s, p, pc);
  }

  lemma KeysMayGrow(s: State, key: Id, row: O.KeyRow)
    requires Inv(s) && key !in s.tables.keys && Fresh(s, row.attempt) && row.response.None?
    ensures Inv(s.(tables := s.tables.(keys := s.tables.keys[key := row])))
  {
    CallsWithMoreKeys(s.tables.keys, s.seen, s.ledger.reservations, s.creates, key, row);
    OrdersWithMoreKeys(s.tables, s.born, s.ledger.reservations, key, row);
  }

  lemma CallsWithMoreKeys(keys: Keys, seen: Seen, reservations: Reservations, creates: map<Id, Create>, key: Id, row: O.KeyRow)
    requires Calls(keys, seen, reservations, creates) && key !in keys
    ensures Calls(keys[key := row], seen, reservations, creates)
  {
    forall p | p in creates ensures CallOk(keys[key := row], seen, reservations, creates[p]) {
      assert CallOk(keys, seen, reservations, creates[p]);
    }
  }

  lemma OrdersWithMoreKeys(t: O.Tables, born: map<Id, Id>, reservations: Reservations, key: Id, row: O.KeyRow)
    requires Ordered(t, born, reservations) && key !in t.keys
    ensures Ordered(t.(keys := t.keys[key := row]), born, reservations)
  {
    forall o | o in t.orders ensures OrderOk(t.keys[key := row], born, reservations, o, t.orders[o]) {
      assert OrderOk(t.keys, born, reservations, o, t.orders[o]);
    }
  }

  lemma PreparedKeys(s: State, key: Id, request: O.Checkout, newAttempt: Id)
    requires Inv(s) && Fresh(s, newAttempt)
    ensures Inv(s.(tables := O.PrepareTx(s.tables, key, request, newAttempt).0))
  {
    if key !in s.tables.keys {
      KeysMayGrow(s, key, O.KeyRow(request, newAttempt, None));
    }
  }

  /** What `prepareIdempotency` answers, read off the key row it leaves. */
  ghost predicate Tells(keys: Keys, key: Id, request: O.Checkout, prepared: O.Prepared) {
    && key in keys && (prepared.KeyReused? <==> keys[key].request != request)
    && (prepared.Replay? ==> keys[key].response == Some(prepared.order))
    && (prepared.Proceed? ==> keys[key].response.None? && keys[key].attempt == prepared.attempt)
  }

  lemma PrepareTells(t: O.Tables, key: Id, request: O.Checkout, newAttempt: Id)
    ensures Tells(O.PrepareTx(t, key, request, newAttempt).0.keys, key, request, O.PrepareTx(t, key, request, newAttempt).1)
  {
  }

  lemma PrepareKeeps(s: State, p: Id, newAttempt: Id, answer: Answer)
    requires Inv(s) && Enabled(s, Prepare(p, newAttempt, answer))
    ensures Inv(PrepareStep(s, p, newAttempt, answer))
  {
    var (tables, prepared) := O.PrepareTx(s.tables, s.creates[p].key, s.creates[p].request, newAttempt);
    var after := s.(tables := if answer == Aborts then s.tables else tables);
    PreparedKeys(s, s.creates[p].key, s.creates[p].request, newAttempt);
    PrepareTells(s.tables, s.creates[p].key, s.creates[p].request, newAttempt);
    PrepareAnswered(after, p, answer, prepared);
  }

  lemma PrepareAnswered(after: State, p: Id, answer: Answer, prepared: O.Prepared)
    requires Inv(after) && p in after.creates && after.creates[p].pc == Locked
    requires answer == Commits ==> Tells(after.tables.keys, after.creates[p].key, after.creates[p].request, prepared)
    ensures Inv(Move(after, p, AfterPrepare(answer, prepared)))
  {
    MoveKeeps(after, p, AfterPrepare(answer, prepared));
  }

  lemma CallsMayReadMore(keys: Keys, seen: Seen, reservations: Reservations, creates: map<Id, Create>, more: Seen)
    requires Calls(keys, seen, reservations, creates)
    ensures Calls(keys, seen + more, reservations, creates)
  {
    forall p | p in creates ensures CallOk(keys, seen + more, reservations, creates[p]) {
      assert CallOk(keys, seen, reservations, creates[p]);
    }
  }

  lemma ServedMayReadMore(keys: Keys, seen: Seen, reservations: Reservations, more: Seen)
    requires Served(keys, seen, reservations)
    ensures Served(keys, seen + more, reservations)
  {
    forall k, r | k in keys && r in reservations && reservations[r].attempt == keys[k].attempt
      ensures Serves(seen + more, keys[k].request, reservations[r].response)
    {
      assert Serves(seen, keys[k].request, reservations[r].response);
      if reservations[r].response.status == C.Active {
        var cart :| (keys[k].request.user, cart) in seen && cart.version == keys[k].request.cartVersion
                    && Matches(reservations[r].response.items, cart.items);
        assert (keys[k].request.user, cart) in seen + more;
      }
    }
  }

  lemma NotedKeeps(s: State, user: Id, read: Option<Carts.Cart>)
    requires Inv(s) && (read.Some? ==> CartRuns.NotOlder(ContentsOf(s.contents, user), read.value))
    ensures Inv(Noted(s, user, read))
  {
    if read.Some? {
      CallsMayReadMore(s.tables.keys, s.seen, s.ledger.reservations, s.creates, {(user, read.value)});
      ServedMayReadMore(s.tables.keys, s.seen, s.ledger.reservations, {(user, read.value)});
    }
  }

  lemma ReadCartKeeps(s: State, p: Id, read: Option<Carts.Cart>)
    requires Inv(s) && Enabled(s, ReadCart(p, read))
    ensures Inv(Next(s, ReadCart(p, read)))
  {
    var user := s.creates[p].request.user;
    NotedKeeps(s, user, read);
    var after := Noted(s, user, read);
    assert CallOk(after.tables.keys, after.seen, after.ledger.reservations, after.creates[p]);
    MoveKeeps(after, p, AfterCart(s.creates[p].request, s.creates[p].pc.attempt, read));
  }

  lemma ReserveKeeps(s: State, p: Id, ttl: int, newId: Id, now: int, answer: Answer)
    requires Inv(s) && Enabled(s, Reserve(p, ttl, newId, now, answer))
    ensures Inv(ReserveStep(s, p, ttl, newId, now, answer))
  {
    var (ledger, pc) := ReserveOver(s.ledger, s.creates[p].pc, ttl, newId, now, answer);
    assert CallInv(s.creates, s.keyLocks, s.tables.keys, s.seen, s.ledger.reservations);
    ReserveGrants(s.ledger, s.creates[p].pc, ttl, newId, now, answer);
    ReservedLedger(s, p, ttl, newId, now, answer != Aborts);
    ReserveAnswered(s.(ledger := ledger), p, pc);
  }

  lemma ReserveGrants(ledger: C.Ledger, pc: Pc, ttl: int, newId: Id, now: int, answer: Answer)
    requires Self(ledger.reservations) && pc.HasCart?
    ensures var (after, next) := ReserveOver(ledger, pc, ttl, newId, now, answer);
            || next == Finished(Failed) || next == Finished(InsufficientStock)
            || (next.Reserved? && next.attempt == pc.attempt && GrantedTo(after.reservations, next.attempt, next.response))
  {
    ReserveMoves(ledger, C.Request(pc.attempt, LinesOf(pc.cart.items), ttl), newId, now, answer != Aborts);
  }

  lemma ReservedLedger(s: State, p: Id, ttl: int, newId: Id, now: int, commits: bool)
    requires Inv(s) && p in s.creates && s.creates[p].pc.HasCart?
    ensures var request := C.Request(s.creates[p].pc.attempt, LinesOf(s.creates[p].pc.cart.items), ttl);
            Inv(s.(ledger := C.ReserveTx(s.ledger, request, newId, now, commits).0))
  {
    var request := C.Request(s.creates[p].pc.attempt, LinesOf(s.creates[p].pc.cart.items), ttl);
    ReserveMoves(s.ledger, request, newId, now, commits);
    ReserveServes(s, p, ttl, newId, now, commits);
    LedgerMayMove(s, C.ReserveTx(s.ledger, request, newId, now, commits).0);
  }

  lemma ReserveAnswered(after: State, p: Id, pc: Pc)
    requires Inv(after) && p in after.creates && after.creates[p].pc.HasCart?
    requires pc == Finished(Failed) || pc == Finished(InsufficientStock)
             || (pc.Reserved? && pc.attempt == after.creates[p].pc.attempt && GrantedTo(after.ledger.reservations, pc.attempt, pc.response))
    ensures Inv(Move(after, p, pc))
  {
    assert CallOk(after.tables.keys, after.seen, after.ledger.reservations, after.creates[p]);
    MoveKeeps(after, p, pc);
  }

  // ------------------------------------------------------------------ Persist

  /** The key row of a connected call completes; every other call for it is waiting, disconnected or finished. */
  lemma CallsAfterPersist(creates: map<Id, Create>, keyLocks: map<Id, Id>, keys: Keys, seen: Seen, reservations: Reservations, p: Id, order: O.Order)
    requires Exclusive(creates, keyLocks) && Calls(keys, seen, reservations, creates)
    requires p in creates && creates[p].connected && creates[p].pc.MustRelease?
    requires creates[p].key in keys && keys[creates[p].key].response.None?
    ensures Calls(keys[creates[p].key := keys[creates[p].key].(response := Some(order))], seen, reservations, creates)
  {
    var key := creates[p].key;
    forall q | q in creates
      ensures CallOk(keys[key := keys[key].(response := Some(order))], seen, reservations, creates[q])
    {
      assert CallOk(keys, seen, reservations, creates[q]);
      assert keyLocks[key] == p;
    }
  }

  lemma KeysAfterPersist(keys: Keys, seen: Seen, reservations: Reservations, key: Id, order: O.Order)
    requires Keyed(keys) && Served(keys, seen, reservations) && key in keys
    ensures Keyed(keys[key := keys[key].(response := Some(order))])
    ensures Served(keys[key := keys[key].(response := Some(order))], seen, reservations)
  {
  }

  lemma OrdersAfterPersist(t: O.Tables, born: map<Id, Id>, reservations: Reservations, key: Id, order: O.Order, outId: Id)
    requires OrderInv(t, born, reservations) && Persistable(t, reservations, key, order)
    ensures OrderInv(O.AfterPersist(t, key, order, outId), born[order.id := key], reservations)
  {
    var after := t.keys[key := t.keys[key].(response := Some(order))];
    forall o | o in t.orders ensures OrderOk(after, born[order.id := key], reservations, o, t.orders[o]) {
      assert OrderOk(t.keys, born, reservations, o, t.orders[o]);
      assert born[o] != key;
    }
  }

  lemma CancelsAfterPersist(orders: map<Id, O.Order>, reservations: Reservations, cancels: map<Id, Cancel>, rowLocks: map<Id, Id>, order: O.Order)
    requires CancelInv(orders, reservations, cancels, rowLocks) && order.id !in orders && order.status == O.Created
    ensures CancelInv(orders[order.id := order], reservations, cancels, rowLocks)
  {
    forall c | c in cancels ensures CancelOk(orders[order.id := order], reservations, cancels[c]) {
      assert CancelOk(orders, reservations, cancels[c]);
    }
  }

  /** What `persistOrder` is given: an open key row and the reservation granted to its attempt. */
  ghost predicate Persistable(t: O.Tables, reservations: Reservations, key: Id, order: O.Order) {
    && key in t.keys && t.keys[key].response.None? && order.id !in t.orders && order.status == O.Created
    && order.user == t.keys[key].request.user && order.cartVersion == t.keys[key].request.cartVersion
    && order.reservation in reservations && reservations[order.reservation].attempt == t.keys[key].attempt
    && reservations[order.reservation].response.status == C.Active
    && Carries(order, reservations[order.reservation].response)
  }

  lemma PersistedKeeps(s: State, p: Id, order: O.Order, outId: Id)
    requires Inv(s) && p in s.creates && s.creates[p].connected && s.creates[p].pc.MustRelease?
    requires Persistable(s.tables, s.ledger.reservations, s.creates[p].key, order)
    ensures Inv(s.(tables := O.AfterPersist(s.tables, s.creates[p].key, order, outId), born := s.born[order.id := s.creates[p].key]))
  {
    CallsAfterPersist(s.creates, s.keyLocks, s.tables.keys, s.seen, s.ledger.reservations, p, order);
    KeysAfterPersist(s.tables.keys, s.seen, s.ledger.reservations, s.creates[p].key, order);
    OrdersAfterPersist(s.tables, s.born, s.ledger.reservations, s.creates[p].key, order, outId);
    CancelsAfterPersist(s.tables.orders, s.ledger.reservations, s.cancels, s.rowLocks, order);
  }

  lemma PersistKeeps(s: State, p: Id, newId: Id, now: int, outId: Id, answer: Answer)
    requires Inv(s) && Enabled(s, Persist(p, newId, now, outId, answer))
    ensures Inv(PersistStep(s, p, newId, now, outId, answer))
  {
    var create := s.creates[p];
    assert CallOk(s.tables.keys, s.seen, s.ledger.reservations, create);
    var failed := Move(s, p, MustRelease(create.pc.response.reservation));
    MoveKeeps(s, p, MustRelease(create.pc.response.reservation));
    var order := O.NewOrder(newId, create.request, create.pc.response, now);
    var (tables, outcome) := O.PersistTx(s.tables, create.key, create.request, create.pc.response, newId, now, outId, answer != Aborts);
    if create.connected && outcome.Done? {
      PersistDone(failed, p, order, outId, answer);
    }
  }

  lemma PersistDone(s: State, p: Id, order: O.Order, outId: Id, answer: Answer)
    requires Inv(s) && p in s.creates && s.creates[p].connected && s.creates[p].pc == MustRelease(order.reservation)
    requires Persistable(s.tables, s.ledger.reservations, s.creates[p].key, order)
    ensures var after := s.(tables := O.AfterPersist(s.tables, s.creates[p].key, order, outId), born := s.born[order.id := s.creates[p].key]);
            Inv(Move(after, p, AfterPersist(answer, order)))
  {
    var after := s.(tables := O.AfterPersist(s.tables, s.creates[p].key, order, outId), born := s.born[order.id := s.creates[p].key]);
    assert CallOk(s.tables.keys, s.seen, s.ledger.reservations, s.creates[p]);
    PersistedKeeps(s, p, order, outId);
    MoveKeeps(after, p, AfterPersist(answer, order));
  }

  // ------------------------------------------------------------------ Cancel and delivery events

  lemma EndCancelKeeps(s: State, c: Id, outcome: O.Outcome)
    requires Inv(s) && c in s.cancels
    ensures Inv(DropCancel(s, c)) && Inv(EndCancel(s, c, outcome))
  {
    EndCancelRows(s.tables.orders, s.ledger.reservations, s.cancels, s.rowLocks, c);
  }

  lemma EndCancelRows(orders: map<Id, O.Order>, reservations: Reservations, cancels: map<Id, Cancel>, rowLocks: map<Id, Id>, c: Id)
    requires CancelInv(orders, reservations, cancels, rowLocks) && c in cancels
    ensures CancelInv(orders, reservations, cancels - {c}, Unlocked(rowLocks, cancels[c].order, cancels[c].connected))
  {
  }

  lemma OrderMoved(t: O.Tables, after: O.Tables, born: map<Id, Id>, reservations: Reservations, order: Id, next: O.Status)
    requires OrderInv(t, born, reservations) && order in t.orders
    requires after.keys == t.keys && after.orders == t.orders[order := t.orders[order].(status := next)]
    ensures OrderInv(after, born, reservations)
  {
    forall o | o in after.orders ensures OrderOk(after.keys, born, reservations, o, after.orders[o]) {
      assert OrderOk(t.keys, born, reservations, o, t.orders[o]);
    }
  }

  lemma CancelsMoved(orders: map<Id, O.Order>, reservations: Reservations, cancels: map<Id, Cancel>, rowLocks: map<Id, Id>, order: Id, next: O.Status)
    requires CancelInv(orders, reservations, cancels, rowLocks) && order in orders && order !in rowLocks
    requires next == O.Cancelled ==> Inactive(reservations, orders[order].reservation)
    ensures CancelInv(orders[order := orders[order].(status := next)], reservations, cancels, rowLocks)
  {
    var after := orders[order := orders[order].(status := next)];
    forall c | c in cancels ensures CancelOk(after, reservations, cancels[c]) {
      assert CancelOk(orders, reservations, cancels[c]);
    }
  }

  /** One unlocked order changes its status; to cancelled only once its reservation is inactive. */
  lemma OrderMayMove(s: State, after: O.Tables, order: Id, next: O.Status)
    requires Inv(s) && order in s.tables.orders && order !in s.rowLocks
    requires after.keys == s.tables.keys && after.orders == s.tables.orders[order := s.tables.orders[order].(status := next)]
    requires next == O.Cancelled ==> Inactive(s.ledger.reservations, s.tables.orders[order].reservation)
    ensures Inv(s.(tables := after))
  {
    OrderMoved(s.tables, after, s.born, s.ledger.reservations, order, next);
    CancelsMoved(s.tables.orders, s.ledger.reservations, s.cancels, s.rowLocks, order, next);
  }

  lemma SameRowsKeep(s: State, after: O.Tables)
    requires Inv(s) && after.keys == s.tables.keys && after.orders == s.tables.orders
    ensures Inv(s.(tables := after))
  {
    assert Ordered(after, s.born, s.ledger.reservations);
  }

  lemma CancelMoves(t: O.Tables, order: Id, at: int, outId: Id, outId2: Id, commits: bool)
    ensures Moves(t, O.CancelTx(t, order, true, at, outId, outId2, commits).0, order, O.Cancelled)
  {
  }

  lemma CancelCommitKeeps(s: State, c: Id, at: int, outId: Id, outId2: Id, answer: Answer)
    requires Inv(s) && Enabled(s, CancelCommit(c, at, outId, outId2, answer))
    ensures Inv(Next(s, CancelCommit(c, at, outId, outId2, answer)))
  {
    var order := s.cancels[c].order;
    assert CancelOk(s.tables.orders, s.ledger.reservations, s.cancels[c]);
    CancelMoves(s.tables, order, at, outId, outId2, answer != Aborts);
    var (tables, outcome) := O.CancelTx(s.tables, order, true, at, outId, outId2, answer != Aborts);
    EndCancelKeeps(s, c, Told(outcome, answer));
    RowsMoveKeeps(EndCancel(s, c, Told(outcome, answer)), tables, order, O.Cancelled);
  }

  lemma CancelReleaseKeeps(s: State, c: Id, answer: Answer)
    requires Inv(s) && Enabled(s, CancelRelease(c, answer))
    ensures Inv(CancelReleaseStep(s, c, answer))
  {
    var (ledger, fault) := C.ReleaseTx(s.ledger, s.cancels[c].reservation, answer != Aborts);
    var after := s.(ledger := ledger);
    ReleaseKeeps(s, s.cancels[c].reservation, answer != Aborts);
    if answer == Commits && fault.None? {
      ReleasedKeeps(s.tables.orders, ledger.reservations, s.cancels, s.rowLocks, c);
    } else {
      EndCancelKeeps(after, c, O.Faulted(O.ReleaseFailed));
    }
  }

  lemma ReleasedKeeps(orders: map<Id, O.Order>, reservations: Reservations, cancels: map<Id, Cancel>, rowLocks: map<Id, Id>, c: Id)
    requires CancelInv(orders, reservations, cancels, rowLocks) && c in cancels && Inactive(reservations, cancels[c].reservation)
    ensures CancelInv(orders, reservations, cancels[c := cancels[c].(released := true)], rowLocks)
  {
    assert CancelOk(orders, reservations, cancels[c]);
  }

  /** A transaction moved no order, or one order to `next`; key rows stay. */
  ghost predicate Moves(t: O.Tables, after: O.Tables, order: Id, next: O.Status) {
    && after.keys == t.keys
    && (after.orders == t.orders || (order in t.orders && after.orders == t.orders[order := t.orders[order].(status := next)]))
  }

  lemma HandleMoves(t: O.Tables, e: Delivery.Event, at: int, outId: Id, outId2: Id, commits: bool)
    ensures var after := O.HandleTx(t, e, at, outId, outId2, commits).0;
            exists next :: next != O.Cancelled && Moves(t, after, e.order, next)
  {
    var after := O.HandleTx(t, e, at, outId, outId2, commits).0;
    var target := O.TargetOf(e.kind);
    assert Moves(t, after, e.order, if target.To? then target.status else O.Created);
  }

  lemma RowsMoveKeeps(s: State, after: O.Tables, order: Id, next: O.Status)
    requires Inv(s) && order !in s.rowLocks && Moves(s.tables, after, order, next)
    requires next == O.Cancelled && after.orders != s.tables.orders ==> Inactive(s.ledger.reservations, s.tables.orders[order].reservation)
    ensures Inv(s.(tables := after))
  {
    if after.orders == s.tables.orders {
      SameRowsKeep(s, after);
    } else {
      OrderMayMove(s, after, order, next);
    }
  }

  lemma DeliverKeeps(s: State, e: Delivery.Event, at: int, outId: Id, outId2: Id, commits: bool)
    requires Inv(s) && Enabled(s, Deliver(e, at, outId, outId2, commits))
    ensures Inv(Next(s, Deliver(e, at, outId, outId2, commits)))
  {
    HandleMoves(s.tables, e, at, outId, outId2, commits);
    var after := O.HandleTx(s.tables, e, at, outId, outId2, commits).0;
    var next :| next != O.Cancelled && Moves(s.tables, after, e.order, next);
    RowsMoveKeeps(s, after, e.order, next);
  }

  // ------------------------------------------------------------------ Small steps

  lemma WriteCartKeeps(s: State, user: Id, items: map<Id, int>)
    requires Inv(s)
    ensures Inv(Next(s, WriteCart(user, items)))
  {
    var after := s.contents[user := ContentsOf(s.contents, user) + [items]];
    forall x | x in s.seen ensures CartRuns.NotOlder(ContentsOf(after, x.0), x.1) {
      assert ContentsOf(s.contents, x.0) <= ContentsOf(after, x.0);
      CartRuns.NotOlderStays(ContentsOf(s.contents, x.0), ContentsOf(after, x.0), x.1);
    }
  }

  lemma DisconnectKeeps(s: State, p: Id)
    requires Inv(s) && Enabled(s, Disconnect(p))
    ensures Inv(Next(s, Disconnect(p)))
  {
    assert CallOk(s.tables.keys, s.seen, s.ledger.reservations, s.creates[p]);
  }

  lemma StartKeeps(s: State, p: Id, key: Id, request: O.Checkout)
    requires Inv(s) && Enabled(s, Start(p, key, request))
    ensures Inv(Next(s, Start(p, key, request)))
  {
    StartedCalls(s.creates, s.keyLocks, s.tables.keys, s.seen, s.ledger.reservations, p, key, request);
  }

  lemma StartedCalls(creates: map<Id, Create>, keyLocks: map<Id, Id>, keys: Keys, seen: Seen, reservations: Reservations, p: Id, key: Id, request: O.Checkout)
    requires CallInv(creates, keyLocks, keys, seen, reservations)
    ensures CallInv(creates[p := Create(key, request, true, Waiting)], keyLocks, keys, seen, reservations)
  {
  }

  lemma LockKeeps(s: State, p: Id)
    requires Inv(s) && Enabled(s, Lock(p))
    ensures Inv(Next(s, Lock(p)))
  {
  }

  lemma CrashKeeps(s: State, p: Id)
    requires Inv(s) && Enabled(s, Crash(p))
    ensures Inv(Next(s, Crash(p)))
  {
  }

  lemma StartCancelKeeps(s: State, c: Id, order: Id)
    requires Inv(s) && Enabled(s, StartCancel(c, order))
    ensures Inv(Next(s, StartCancel(c, order)))
  {
    StartedRows(s.tables.orders, s.ledger.reservations, s.cancels, s.rowLocks, c, order);
  }

  lemma StartedRows(orders: map<Id, O.Order>, reservations: Reservations, cancels: map<Id, Cancel>, rowLocks: map<Id, Id>, c: Id, order: Id)
    requires CancelInv(orders, reservations, cancels, rowLocks) && c !in cancels && order in orders && order !in rowLocks
    requires O.CanCancel(orders[order].status)
    ensures CancelInv(orders, reservations, cancels[c := Cancel(order, orders[order].reservation, true, false)], rowLocks[order := c])
  {
  }

  lemma CancelDisconnectKeeps(s: State, c: Id)
    requires Inv(s) && Enabled(s, CancelDisconnect(c))
    ensures Inv(Next(s, CancelDisconnect(c)))
  {
    DisconnectedRows(s.tables.orders, s.ledger.reservations, s.cancels, s.rowLocks, c);
  }

  lemma DisconnectedRows(orders: map<Id, O.Order>, reservations: Reservations, cancels: map<Id, Cancel>, rowLocks: map<Id, Id>, c: Id)
    requires CancelInv(orders, reservations, cancels, rowLocks) && c in cancels && cancels[c].connected
    ensures CancelInv(orders, reservations, cancels[c := cancels[c].(connected := false)], rowLocks - {cancels[c].order})
  {
    assert CancelOk(orders, reservations, cancels[c]);
  }

  lemma CompensateKeeps(s: State, p: Id, commits: bool)
    requires Inv(s) && Enabled(s, Compensate(p, commits))
    ensures Inv(Next(s, Compensate(p, commits)))
  {
    var r := s.creates[p].pc.reservation;
    ReleaseKeeps(s, r, commits);
    MoveKeeps(s.(ledger := C.ReleaseTx(s.ledger, r, commits).0), p, Finished(Failed));
  }

  lemma CreateStepKeeps(s: State, step: Step)
    requires Inv(s) && Enabled(s, step)
    requires step.Start? || step.Lock? || step.Prepare? || step.ReadCart? || step.Reserve? || step.Persist? || step.Compensate? || step.Disconnect? || step.Crash?
    ensures Inv(Next(s, step))
  {
    match step
    case Start(p, key, request) => StartKeeps(s, p, key, request);
    case Lock(p) => LockKeeps(s, p);
    case Prepare(p, newAttempt, answer) => PrepareKeeps(s, p, newAttempt, answer);
    case ReadCart(p, read) => ReadCartKeeps(s, p, read);
    case Reserve(p, ttl, newId, now, answer) => ReserveKeeps(s, p, ttl, newId, now, answer);
    case Persist(p, newId, now, outId, answer) => PersistKeeps(s, p, newId, now, outId, answer);
    case Compensate(p, commits) => CompensateKeeps(s, p, commits);
    case Disconnect(p) => DisconnectKeeps(s, p);
    case Crash(p) => CrashKeeps(s, p);
  }

  lemma StepKeeps(s: State, step: Step)
    requires Inv(s)
    ensures Inv(Next(s, step))
  {
    if Enabled(s, step) {
      match step
      case WriteCart(user, items) => WriteCartKeeps(s, user, items);
      case StartCancel(c, order) => StartCancelKeeps(s, c, order);
      case CancelRelease(c, answer) => CancelReleaseKeeps(s, c, answer);
      case CancelCommit(c, at, outId, outId2, answer) => CancelCommitKeeps(s, c, at, outId, outId2, answer);
      case CancelDisconnect(c) => CancelDisconnectKeeps(s, c);
      case CancelCrash(c) => EndCancelKeeps(s, c, O.Done);
      case Deliver(e, at, outId, outId2, commits) => DeliverKeeps(s, e, at, outId, outId2, commits);
      case _ => CreateStepKeeps(s, step);
    }
  }

  lemma {:induction false} RunKeeps(s: State, steps: seq<Step>)
    requires Inv(s)
    ensures Inv(Run(s, steps))
  {
    if steps != [] {
      RunKeeps(s, steps[..|steps| - 1]);
      StepKeeps(Run(s, steps[..|steps| - 1]), steps[|steps| - 1]);
    }
  }

  lemma Reachable(products: map<Id, C.Product>, steps: seq<Step>)
    ensures Inv(Run(Opening(products), steps))
  {
    RunKeeps(Opening(products), steps);
  }

  // ------------------------------------------------------------------ One order per key

  /** Every order is the stored response of the key it was created under, so a key has at most one order. */
  lemma {:induction false} OneOrderPerKey(products: map<Id, C.Product>, steps: seq<Step>, o1: Id, o2: Id)
    requires o1 in Run(Opening(products), steps).tables.orders && o2 in Run(Opening(products), steps).tables.orders
    ensures var s := Run(Opening(products), steps);
            && o1 in s.born && o2 in s.born && s.born[o1] in s.tables.keys
            && s.tables.keys[s.born[o1]].response == Some(s.tables.orders[o1].(status := O.Created))
            && (s.born[o1] == s.born[o2] ==> o1 == o2)
  {
    Reachable(products, steps);
    var s := Run(Opening(products), steps);
    assert OrderOk(s.tables.keys, s.born, s.ledger.reservations, o1, s.tables.orders[o1]);
    assert OrderOk(s.tables.keys, s.born, s.ledger.reservations, o2, s.tables.orders[o2]);
  }

  /** Key rows stay; once completed, a row never changes again. */
  ghost predicate KeysStay(keys: Keys, after: Keys) {
    forall k :: k in keys ==>
                  && k in after && after[k].request == keys[k].request && after[k].attempt == keys[k].attempt
                  && (keys[k].response.Some? ==> after[k].response == keys[k].response)
  }

  lemma PersistTxStays(t: O.Tables, key: Id, request: O.Checkout, response: C.Response, newId: Id, now: int, outId: Id, commits: bool)
    requires key in t.keys ==> t.keys[key].response.None?
    ensures KeysStay(t.keys, O.PersistTx(t, key, request, response, newId, now, outId, commits).0.keys)
  {
  }

  lemma PersistStays(s: State, p: Id, newId: Id, now: int, outId: Id, answer: Answer)
    requires Inv(s) && Enabled(s, Persist(p, newId, now, outId, answer))
    ensures KeysStay(s.tables.keys, PersistStep(s, p, newId, now, outId, answer).tables.keys)
  {
    SagaLedgers.PersistFollows(s, p, newId, now, outId, answer);
    if s.creates[p].connected {
      assert CallOk(s.tables.keys, s.seen, s.ledger.reservations, s.creates[p]);
      PersistTxStays(s.tables, s.creates[p].key, s.creates[p].request, s.creates[p].pc.response, newId, now, outId, answer != Aborts);
    }
  }

  lemma PrepareStays(s: State, p: Id, newAttempt: Id, answer: Answer)
    requires p in s.creates
    ensures KeysStay(s.tables.keys, PrepareStep(s, p, newAttempt, answer).tables.keys)
  {
  }

  lemma StepStays(s: State, step: Step)
    requires Inv(s)
    ensures KeysStay(s.tables.keys, Next(s, step).tables.keys)
  {
    if Enabled(s, step) {
      if SagaLedgers.Acting(step) {
        ActingStays(s, step);
      } else {
        SagaLedgers.QuietForOrders(s, step);
      }
    }
  }

  lemma ActingStays(s: State, step: Step)
    requires Inv(s) && Enabled(s, step) && SagaLedgers.Acting(step)
    ensures KeysStay(s.tables.keys, Next(s, step).tables.keys)
  {
    match step
    case Prepare(p, newAttempt, answer) => PrepareStays(s, p, newAttempt, answer);
    case Persist(p, newId, now, outId, answer) => PersistStays(s, p, newId, now, outId, answer);
    case CancelCommit(c, at, outId, outId2, answer) =>
      CancelMoves(s.tables, s.cancels[c].order, at, outId, outId2, answer != Aborts);
    case Deliver(e, at, outId, outId2, commits) => HandleMoves(s.tables, e, at, outId, outId2, commits);
  }

  lemma {:induction false} RunStays(s: State, steps: seq<Step>)
    requires Inv(s)
    ensures KeysStay(s.tables.keys, Run(s, steps).tables.keys)
  {
    if steps != [] {
      RunStays(s, steps[..|steps| - 1]);
      RunKeeps(s, steps[..|steps| - 1]);
      StepStays(Run(s, steps[..|steps| - 1]), steps[|steps| - 1]);
    }
  }

  /** What a call returned is the stored order of its key, whatever runs afterwards. */
  lemma {:induction false} ReturnedOrdersAreStored(products: map<Id, C.Product>, steps: seq<Step>, more: seq<Step>, p: Id, order: O.Order)
    requires IsAt(Run(Opening(products), steps), p, Finished(Returned(order)))
    ensures var s, t := Run(Opening(products), steps), Run(Run(Opening(products), steps), more);
            var create := s.creates[p];
            && order.id in s.tables.orders
            && create.key in t.tables.keys && t.tables.keys[create.key].request == create.request
            && t.tables.keys[create.key].response == Some(order)
  {
    Reachable(products, steps);
    var s := Run(Opening(products), steps);
    assert CallOk(s.tables.keys, s.seen, s.ledger.reservations, s.creates[p]);
    RunStays(s, more);
  }

  /** Two calls for one key that both return an order return the same one. */
  lemma {:induction false} RetriesAgree(products: map<Id, C.Product>, steps: seq<Step>, p: Id, q: Id, o1: O.Order, o2: O.Order)
    requires IsAt(Run(Opening(products), steps), p, Finished(Returned(o1))) && IsAt(Run(Opening(products), steps), q, Finished(Returned(o2)))
    requires Run(Opening(products), steps).creates[p].key == Run(Opening(products), steps).creates[q].key
    ensures o1 == o2 && Run(Opening(products), steps).creates[p].request == Run(Opening(products), steps).creates[q].request
  {
    ReturnedOrdersAreStored(products, steps, [], p, o1);
    ReturnedOrdersAreStored(products, steps, [], q, o2);
  }

  /** A call that reaches a completed key returns the stored order for the same payload and is refused for another;
      either way no table changes. */
  lemma CompletedKeysAnswer(s: State, p: Id, newAttempt: Id)
    requires Enabled(s, Prepare(p, newAttempt, Commits))
    requires s.creates[p].key in s.tables.keys && s.tables.keys[s.creates[p].key].response.Some?
    ensures var t := Next(s, Prepare(p, newAttempt, Commits));
            var row := s.tables.keys[s.creates[p].key];
            && t.tables == s.tables && t.ledger == s.ledger
            && t.creates[p].pc == Finished(if row.request == s.creates[p].request then Returned(row.response.value) else KeyReused)
  {
  }

  function CallOf(step: Step): Option<Id> {
    match step
    case Start(p, _, _) => Some(p)
    case Lock(p) => Some(p)
    case Prepare(p, _, _) => Some(p)
    case ReadCart(p, _) => Some(p)
    case Reserve(p, _, _, _, _) => Some(p)
    case Persist(p, _, _, _, _) => Some(p)
    case Compensate(p, _) => Some(p)
    case Disconnect(p) => Some(p)
    case Crash(p) => Some(p)
    case _ => None
  }

  /** A call whose payload differs from the one stored under its key changes no order, key, reservation or stock row,
      at whatever point and however it fails. */
  lemma {:induction false} OtherPayloadsChangeNothing(products: map<Id, C.Product>, steps: seq<Step>, p: Id, step: Step)
    requires p in Run(Opening(products), steps).creates && CallOf(step) == Some(p)
    requires var s := Run(Opening(products), steps);
             s.creates[p].key in s.tables.keys && s.tables.keys[s.creates[p].key].request != s.creates[p].request
    ensures var s, t := Run(Opening(products), steps), Next(Run(Opening(products), steps), step);
            t.tables == s.tables && t.ledger == s.ledger && t.born == s.born
  {
    Reachable(products, steps);
    var s := Run(Opening(products), steps);
    assert CallOk(s.tables.keys, s.seen, s.ledger.reservations, s.creates[p]);
  }

  // ------------------------------------------------------------------ An order takes the cart

  /** The products and quantities of an order are, one for one, those of a cart that a checkout of its user read at its
      version; names, prices, total and currency are those its reservation was granted with. */
  lemma {:induction false} OrdersTakeAReadCart(products: map<Id, C.Product>, steps: seq<Step>, o: Id)
    requires o in Run(Opening(products), steps).tables.orders
    ensures var s := Run(Opening(products), steps);
            var order := s.tables.orders[o];
            && FromRead(s.seen, O.Checkout(order.user, order.cartVersion), order.items)
            && order.reservation in s.ledger.reservations
            && Carries(order, s.ledger.reservations[order.reservation].response)
  {
    Reachable(products, steps);
    var s := Run(Opening(products), steps);
    assert OrderOk(s.tables.keys, s.born, s.ledger.reservations, o, s.tables.orders[o]);
    var order := s.tables.orders[o];
    assert Serves(s.seen, s.tables.keys[s.born[o]].request, s.ledger.reservations[order.reservation].response);
  }

  /** They are what the cart held at that version or at a later one, whatever was torn. */
  lemma {:induction false} OrdersTakeTheCartOrALaterOne(products: map<Id, C.Product>, steps: seq<Step>, o: Id)
    requires o in Run(Opening(products), steps).tables.orders
    ensures var s := Run(Opening(products), steps);
            var order := s.tables.orders[o];
            exists w :: order.cartVersion <= w < |ContentsOf(s.contents, order.user)| && 0 <= w
                        && Matches(order.items, Carts.Listing(ContentsOf(s.contents, order.user)[w]))
  {
    OrdersTakeAReadCart(products, steps, o);
    Reachable(products, steps);
    var s := Run(Opening(products), steps);
    var order := s.tables.orders[o];
    var cart :| (order.user, cart) in s.seen && cart.version == order.cartVersion && Matches(order.items, cart.items);
    var x := (order.user, cart);
    assert CartRuns.NotOlder(ContentsOf(s.contents, x.0), x.1);
    var w :| cart.version <= w < |ContentsOf(s.contents, order.user)| && cart.items == Carts.Listing(ContentsOf(s.contents, order.user)[w]);
  }

  /** Every cart a checkout of this user read is what the cart held at its version: no torn read among them. */
  ghost predicate ReadsAreTrue(s: State, user: Id) {
    forall x :: x in s.seen && x.0 == user ==> CartRuns.True(ContentsOf(s.contents, user), x.1)
  }

  /** Where no cart read for the user was torn, the products and quantities of an order are exactly what the cart held
      at the order's version. */
  lemma {:induction false} OrdersTakeTheCart(products: map<Id, C.Product>, steps: seq<Step>, o: Id)
    requires o in Run(Opening(products), steps).tables.orders
    requires ReadsAreTrue(Run(Opening(products), steps), Run(Opening(products), steps).tables.orders[o].user)
    ensures var s := Run(Opening(products), steps);
            var order := s.tables.orders[o];
            && 0 <= order.cartVersion < |ContentsOf(s.contents, order.user)|
            && Matches(order.items, Carts.Listing(ContentsOf(s.contents, order.user)[order.cartVersion]))
  {
    OrdersTakeAReadCart(products, steps, o);
    var s := Run(Opening(products), steps);
    var order := s.tables.orders[o];
    var cart :| (order.user, cart) in s.seen && cart.version == order.cartVersion && Matches(order.items, cart.items);
    var x := (order.user, cart);
    assert CartRuns.True(ContentsOf(s.contents, x.0), x.1);
  }

  // ------------------------------------------------------------------ Cancellation

  /** In every reachable state the reservation of a cancelled order exists and is not active. */
  lemma {:induction false} CancelledOrdersHoldNothing(products: map<Id, C.Product>, steps: seq<Step>, o: Id)
    requires o in Run(Opening(products), steps).tables.orders && Run(Opening(products), steps).tables.orders[o].status == O.Cancelled
    ensures var s := Run(Opening(products), steps);
            s.tables.orders[o].reservation in s.ledger.reservations
            && s.ledger.reservations[s.tables.orders[o].reservation].status != C.Active
  {
    Reachable(products, steps);
  }

  /** While `Cancel` keeps its session, delivery events cannot overtake it: once the release is answered, a commit
      with fresh event ids does cancel the order. */
  lemma {:induction false} ReleasedOrdersGetCancelled(products: map<Id, C.Product>, steps: seq<Step>, c: Id, at: int, outId: Id, outId2: Id)
    requires Enabled(Run(Opening(products), steps), CancelCommit(c, at, outId, outId2, Commits)) && outId != outId2
    requires !O.Used(Run(Opening(products), steps).tables.outbox, outId) && !O.Used(Run(Opening(products), steps).tables.outbox, outId2)
    ensures var s := Run(Opening(products), steps);
            var t := Next(s, CancelCommit(c, at, outId, outId2, Commits));
            var order := s.cancels[c].order;
            && order in s.tables.orders && O.CanCancel(s.tables.orders[order].status)
            && t.tables == O.AfterCancel(s.tables, order, at, outId, outId2)
  {
    Reachable(products, steps);
  }

  /** What the saga does not promise: when the commit of `persistOrder` succeeds but its answer is lost, the
      compensation takes the stock back from under an order that lives on. */
  lemma LostCommitAnswerReleasesALiveOrder(s: State, p: Id, newId: Id, now: int, outId: Id)
    requires Inv(s) && Enabled(s, Persist(p, newId, now, outId, CommitUnknown)) && s.creates[p].connected
    requires O.PersistTx(s.tables, s.creates[p].key, s.creates[p].request, s.creates[p].pc.response, newId, now, outId, true).1.Done?
    ensures var t := Next(Next(s, Persist(p, newId, now, outId, CommitUnknown)), Compensate(p, true));
            && newId in t.tables.orders && t.tables.orders[newId].status == O.Created
            && Inactive(t.ledger.reservations, t.tables.orders[newId].reservation)
  {
    LostCommitLeavesADebt(s, p, newId, now, outId);
    CompensationReleases(Next(s, Persist(p, newId, now, outId, CommitUnknown)), p);
  }

  lemma LostCommitLeavesADebt(s: State, p: Id, newId: Id, now: int, outId: Id)
    requires Inv(s) && Enabled(s, Persist(p, newId, now, outId, CommitUnknown)) && s.creates[p].connected
    requires O.PersistTx(s.tables, s.creates[p].key, s.creates[p].request, s.creates[p].pc.response, newId, now, outId, true).1.Done?
    ensures var t := Next(s, Persist(p, newId, now, outId, CommitUnknown));
            && newId in t.tables.orders && t.tables.orders[newId].status == O.Created
            && IsAt(t, p, MustRelease(t.tables.orders[newId].reservation))
            && t.tables.orders[newId].reservation in t.ledger.reservations
  {
    assert CallOk(s.tables.keys, s.seen, s.ledger.reservations, s.creates[p]);
  }

  lemma CompensationReleases(s: State, p: Id)
    requires p in s.creates && s.creates[p].pc.MustRelease? && s.creates[p].pc.reservation in s.ledger.reservations
    ensures Next(s, Compensate(p, true)).tables == s.tables
    ensures Inactive(Next(s, Compensate(p, true)).ledger.reservations, s.creates[p].pc.reservation)
  {
  }
}
