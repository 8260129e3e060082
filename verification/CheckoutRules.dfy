/**
 What one uninterrupted checkout or cancellation does, in the terms of its caller: which orders can be cancelled, what
 a key answers, and when a checkout ends in an order, a refusal or a shortage.
 */
module CheckoutRules {
  import opened Prelude
  import opened Saga
  import opened CheckoutService
  import C = Catalog
  import Carts
  import L = Ledgers
  import O = Orders
  import Rules = OrderRules

  // ------------------------------------------------------------------ Cancel

  /** The reservation is given back if the release is applied and it is still active. */
  ghost predicate Releases(ledger: C.Ledger, after: C.Ledger, reservation: Id, applied: bool) {
    if applied && reservation in ledger.reservations && ledger.reservations[reservation].status == C.Active
    then L.GaveBack(ledger, after, reservation)
    else after == ledger
  }

  /** A created or confirmed order is cancelled, and its stock given back, when both answers arrive. */
  ghost predicate CancelsOrder(t: O.Tables, u: O.Tables, o: Id, at: int, outId: Id, outId2: Id) {
    && Rules.Moved(t, u, o, O.Cancelled, at) && u.inbox == t.inbox
    && Rules.AnnouncesTwo(t.outbox, u.outbox, o, outId, O.OrderCancelled(t.orders[o].status), outId2, O.StatusChanged(t.orders[o].status, O.Cancelled))
  }

  /** Which orders a call to `Cancel` cancels and what it does to their stock, status by status. An order past confirmed is
      refused with tables and ledger unchanged; a cancelled one is answered and left alone; a created or confirmed one is
      released first, and cancelled only when the release was answered and the commit goes through. */
  lemma {:induction false} CancellationDecides(t: O.Tables, ledger: C.Ledger, o: Id, release: Answer, at: int, outId: Id, outId2: Id, commit: Answer)
    ensures var (outcome, u, after) := Cancelled(t, ledger, o, release, at, outId, outId2, commit);
            if o !in t.orders then outcome == O.Faulted(O.NotFound) && u == t && after == ledger
            else if t.orders[o].status in {O.Assembling, O.Delivering, O.Delivered} then
              outcome == O.Faulted(O.NotCancellable) && u == t && after == ledger
            else if t.orders[o].status == O.Cancelled then
              u == t && after == ledger && outcome == if commit == Commits then O.Done else O.Faulted(O.CommitFailed)
            else
              && Releases(ledger, after, t.orders[o].reservation, release != Aborts)
              && if release != Commits || t.orders[o].reservation !in ledger.reservations then outcome == O.Faulted(O.ReleaseFailed) && u == t
                 else if !Rules.FreshPair(t.outbox, outId, outId2) then outcome == O.Faulted(O.ConstraintViolated) && u == t
                 else
                   && (outcome == O.Done <==> commit == Commits) && (outcome == O.Faulted(O.CommitFailed) <==> commit != Commits)
                   && if commit == Aborts then u == t else CancelsOrder(t, u, o, at, outId, outId2)
  {
    if o in t.orders {
      var answered := release == Commits && t.orders[o].reservation in ledger.reservations;
      Rules.CancelDecides(t, o, answered, at, outId, outId2, commit != Aborts);
      Rules.CancelDecides(t, o, false, at, outId, outId2, commit != Aborts);
      L.ReleaseGivesBack(ledger, t.orders[o].reservation, release != Aborts);
    }
  }

  // ------------------------------------------------------------------ Create: keys and carts

  /** What a key that has been used answers, whatever the cart and the stock: another payload is refused, the same payload
      is given the stored order; nothing is written. */
  lemma UsedKeysAnswer(t: O.Tables, ledger: C.Ledger, key: Id, request: O.Checkout, read: Option<Carts.Cart>, f: Fate)
    requires key in t.keys && f.prepare == Commits
    ensures var o := Created(t, ledger, key, request, read, f);
            && (t.keys[key].request != request ==> o == Outcome(t, ledger, KeyReused))
            && (t.keys[key].request == request && t.keys[key].response.Some? ==> o == Outcome(t, ledger, Returned(t.keys[key].response.value)))
  {
  }

  /** The key is new, or in progress for this payload, and stands for the attempt. */
  ghost predicate Opens(t: O.Tables, key: Id, request: O.Checkout, newAttempt: Id, attempt: Id) {
    if key in t.keys then t.keys[key] == O.KeyRow(request, attempt, None) else attempt == newAttempt
  }

  ghost function KeyRows(t: O.Tables, key: Id, request: O.Checkout, attempt: Id): O.Tables {
    t.(keys := t.keys[key := O.KeyRow(request, attempt, None)])
  }

  /** When the cart is refused: it cannot be read, is empty, or is not at the version the caller saw. Nothing is reserved. */
  lemma CartDecides(t: O.Tables, ledger: C.Ledger, key: Id, request: O.Checkout, read: Option<Carts.Cart>, attempt: Id, f: Fate)
    requires Opens(t, key, request, f.newAttempt, attempt) && f.prepare == Commits
    ensures var o := Created(t, ledger, key, request, read, f);
            if read == None || read.value.version != request.cartVersion || read.value.items == [] then
              o == Outcome(KeyRows(t, key, request, attempt), ledger, Refused)
            else o == CheckedOut(KeyRows(t, key, request, attempt), ledger, key, request, attempt, read.value, f)
  {
    if key in t.keys {
      assert t.keys[key := t.keys[key]] == t.keys;
    }
  }

  /** Which cart a checkout reads: none for an unknown user, an unreachable cart service or a database that does not
      answer; a usable cache entry before the rows. */
  lemma CartReadDecides(carts: Carts.Store, user: Id, f: Fate)
    ensures var read := CartSeen(carts, user, f);
            if !f.known || !f.cartUp then read == None
            else if f.readable && user in carts.cache then read == Some(carts.cache[user])
            else read == if f.cartAnswers then Some(Carts.CartOf(carts.Row(user))) else None
  {
  }

  // ------------------------------------------------------------------ Create: stock and order

  /** What the cart sends can be asked for: 1 to 100 products, each once, 1 to 99 of it. */
  ghost predicate Askable(items: seq<Carts.Item>, ttl: int) {
    && 1 <= |items| <= 100 && 60 <= ttl <= 1800
    && (forall i :: 0 <= i < |items| ==> 1 <= items[i].quantity <= 99)
    && (forall i, j :: 0 <= i < j < |items| ==> items[i].product != items[j].product)
  }

  ghost predicate InStock(products: map<Id, C.Product>, item: Carts.Item) {
    item.product in products && products[item.product].active && products[item.product].available >= item.quantity
  }

  ghost predicate OneCurrency(products: map<Id, C.Product>, items: seq<Carts.Item>) {
    forall i, j :: 0 <= i < |items| && 0 <= j < |items| && InStock(products, items[i]) && InStock(products, items[j]) ==>
                     products[items[i].product].currency == products[items[j].product].currency
  }

  ghost predicate Unreserved(ledger: C.Ledger, attempt: Id, newId: Id) {
    newId !in ledger.reservations && forall r :: r in ledger.reservations ==> ledger.reservations[r].attempt != attempt
  }

  function AskFor(attempt: Id, items: seq<Carts.Item>, ttl: int): C.Request {
    C.Request(attempt, LinesOf(items), ttl)
  }

  lemma AskableIsValid(attempt: Id, items: seq<Carts.Item>, ttl: int)
    requires Askable(items, ttl)
    ensures C.Valid(AskFor(attempt, items, ttl)) && L.Canonical(LinesOf(items)) && !L.SameRow(LinesOf(items))
  {
    var lines := LinesOf(items);
    forall i, j | 0 <= i < j < |lines| ensures lines[i].product != lines[j].product {
      assert items[i].product != items[j].product;
    }
  }

  lemma StockByLine(products: map<Id, C.Product>, items: seq<Carts.Item>)
    ensures L.AllServed(products, LinesOf(items)) <==> forall i :: 0 <= i < |items| ==> InStock(products, items[i])
    ensures OneCurrency(products, items) ==> !L.MixedCurrency(products, LinesOf(items))
  {
    var lines := LinesOf(items);
    forall i | 0 <= i < |items| ensures lines[i] in lines && (L.Served(products, lines[i]) <==> InStock(products, items[i])) {
    }
  }

  lemma ServedCartIsGranted(ledger: C.Ledger, attempt: Id, cart: Carts.Cart, ttl: int, newId: Id, now: int)
    requires Askable(cart.items, ttl) && OneCurrency(ledger.products, cart.items) && Unreserved(ledger, attempt, newId)
    requires forall i :: 0 <= i < |cart.items| ==> InStock(ledger.products, cart.items[i])
    ensures var (after, reply) := C.ReserveTx(ledger, AskFor(attempt, cart.items, ttl), newId, now, true);
            && reply.Answered? && reply.response.status == C.Active
            && L.AnswersActive(ledger.products, AskFor(attempt, cart.items, ttl), newId, now, reply.response)
            && L.TookTheLines(ledger, after, LinesOf(cart.items), newId)
  {
    var request := AskFor(attempt, cart.items, ttl);
    AskableIsValid(attempt, cart.items, ttl);
    StockByLine(ledger.products, cart.items);
    L.ReserveDecides(ledger, request, newId, now);
    L.ActiveAnswersTheLines(ledger, request, newId, now);
    L.ActiveTakesTheLines(ledger, request, newId, now);
  }

  lemma ShortCartIsReported(ledger: C.Ledger, attempt: Id, cart: Carts.Cart, ttl: int, newId: Id, now: int)
    requires Askable(cart.items, ttl) && OneCurrency(ledger.products, cart.items) && Unreserved(ledger, attempt, newId)
    requires exists i :: 0 <= i < |cart.items| && !InStock(ledger.products, cart.items[i])
    ensures var (after, reply) := C.ReserveTx(ledger, AskFor(attempt, cart.items, ttl), newId, now, true);
            reply.Answered? && reply.response.status == C.Failed && after.products == ledger.products
  {
    var request := AskFor(attempt, cart.items, ttl);
    AskableIsValid(attempt, cart.items, ttl);
    StockByLine(ledger.products, cart.items);
    L.ReserveDecides(ledger, request, newId, now);
    L.FailedReportsTheFailingLines(ledger, request, newId, now);
  }

  /** The reservation call of a checkout: a shortage when a product is missing, not for sale or short; else the grant. */
  lemma ReserveCallDecides(ledger: C.Ledger, attempt: Id, cart: Carts.Cart, ttl: int, newId: Id, now: int)
    requires Askable(cart.items, ttl) && OneCurrency(ledger.products, cart.items) && Unreserved(ledger, attempt, newId)
    ensures var (after, pc) := ReserveOver(ledger, HasCart(attempt, cart), ttl, newId, now, Commits);
            if forall i :: 0 <= i < |cart.items| ==> InStock(ledger.products, cart.items[i]) then
              && pc.Reserved? && pc.attempt == attempt
              && L.AnswersActive(ledger.products, AskFor(attempt, cart.items, ttl), newId, now, pc.response)
              && L.TookTheLines(ledger, after, LinesOf(cart.items), newId)
            else pc == Finished(InsufficientStock) && after.products == ledger.products
  {
    AskableIsValid(attempt, cart.items, ttl);
    if forall i :: 0 <= i < |cart.items| ==> InStock(ledger.products, cart.items[i]) {
      ServedCartIsGranted(ledger, attempt, cart, ttl, newId, now);
    } else {
      ShortCartIsReported(ledger, attempt, cart, ttl, newId, now);
    }
  }

  /** A checkout whose calls are all answered: it ends in a shortage, with no stock moved and no order, exactly when a
      product of the cart is missing, not for sale or short; otherwise the stock is taken line by line, and what the
      persist makes of the grant is the outcome. */
  lemma {:induction false} CheckoutDecides(t: O.Tables, ledger: C.Ledger, key: Id, request: O.Checkout, cart: Carts.Cart, attempt: Id, f: Fate)
    requires Opens(t, key, request, f.newAttempt, attempt) && f.prepare == Commits && f.reserve == Commits
    requires cart.version == request.cartVersion && Askable(cart.items, f.ttl)
    requires OneCurrency(ledger.products, cart.items) && Unreserved(ledger, attempt, f.newReservation)
    ensures var o := Created(t, ledger, key, request, Some(cart), f);
            if exists i :: 0 <= i < |cart.items| && !InStock(ledger.products, cart.items[i]) then
              && o.result == InsufficientStock && o.ledger.products == ledger.products
              && o.tables == KeyRows(t, key, request, attempt)
            else
              exists granted, after ::
                && L.AnswersActive(ledger.products, AskFor(attempt, cart.items, f.ttl), f.newReservation, f.reservedAt, granted)
                && L.TookTheLines(ledger, after, LinesOf(cart.items), f.newReservation)
                && o == Settled(KeyRows(t, key, request, attempt), after, key, request, granted, f)
  {
    CartDecides(t, ledger, key, request, Some(cart), attempt, f);
    ReserveCallDecides(ledger, attempt, cart, f.ttl, f.newReservation, f.reservedAt);
  }

  /** What the persist makes of a grant: committed and answered, the caller gets the stored order, which carries the
      request's user and version and the grant's items, total and currency; otherwise the call fails and the grant is
      released if that release is applied. */
  lemma {:induction false} SettlingDecides(t: O.Tables, ledger: C.Ledger, key: Id, request: O.Checkout, granted: C.Response, f: Fate)
    ensures var o := Settled(t, ledger, key, request, granted, f);
            if Rules.Fits(t, granted, f.newOrder, f.outId) && f.persist == Commits then
              && o.result.Returned? && Rules.IsNewOrder(o.result.order, f.newOrder, request, granted, f.now)
              && f.newOrder in o.tables.orders && o.tables.orders[f.newOrder] == o.result.order && o.ledger == ledger
              && (key in t.keys ==> o.tables.keys[key].response == Some(o.result.order))
            else
              && o.result == Failed && Releases(ledger, o.ledger, granted.reservation, f.released)
              && (!Rules.Fits(t, granted, f.newOrder, f.outId) || f.persist == Aborts ==> o.tables == t)
  {
    Rules.PersistDecides(t, key, request, granted, f.newOrder, f.now, f.outId, f.persist != Aborts);
    L.ReleaseGivesBack(ledger, granted.reservation, f.released);
  }

  /** An unanswered or failed call before the order is stored leaves no order: a lost key transaction, a lost reservation. */
  lemma LostAnswersFail(t: O.Tables, ledger: C.Ledger, key: Id, request: O.Checkout, read: Option<Carts.Cart>, f: Fate)
    requires f.prepare != Commits
    ensures var o := Created(t, ledger, key, request, read, f);
            o.result == Failed && o.ledger == ledger && o.tables.orders == t.orders && (f.prepare == Aborts ==> o.tables == t)
  {
  }

  lemma LostReservationFails(ledger: C.Ledger, attempt: Id, cart: Carts.Cart, ttl: int, newId: Id, now: int, answer: Answer)
    requires answer != Commits
    ensures var (after, pc) := ReserveOver(ledger, HasCart(attempt, cart), ttl, newId, now, answer);
            pc == Finished(Failed) && (answer == Aborts ==> after == ledger)
  {
  }

  /** A cart that cannot be asked for, or whose products in stock have more than one currency, fails with nothing moved. */
  lemma {:induction false} UnservableCartsFail(ledger: C.Ledger, attempt: Id, cart: Carts.Cart, ttl: int, newId: Id, now: int)
    requires Unreserved(ledger, attempt, newId) && (!Askable(cart.items, ttl) || !OneCurrency(ledger.products, cart.items))
    ensures ReserveOver(ledger, HasCart(attempt, cart), ttl, newId, now, Commits) == (ledger, Finished(Failed))
  {
    var request := AskFor(attempt, cart.items, ttl);
    if Askable(cart.items, ttl) {
      AskableIsValid(attempt, cart.items, ttl);
      SomeMixedLines(ledger.products, cart.items);
      L.ReserveDecides(ledger, request, newId, now);
    } else if C.Valid(request) {
      forall i | 0 <= i < |cart.items| ensures 1 <= cart.items[i].quantity <= 99 {
        assert 1 <= request.lines[i].quantity;
      }
      forall i, j | 0 <= i < j < |cart.items| ensures cart.items[i].product != cart.items[j].product {
        assert request.lines[i].spelling != request.lines[j].spelling;
      }
      assert false;
    }
  }

  lemma SomeMixedLines(products: map<Id, C.Product>, items: seq<Carts.Item>)
    requires !OneCurrency(products, items)
    ensures L.MixedCurrency(products, LinesOf(items))
  {
    var lines := LinesOf(items);
    var i, j :| 0 <= i < |items| && 0 <= j < |items| && InStock(products, items[i]) && InStock(products, items[j])
                && products[items[i].product].currency != products[items[j].product].currency;
    assert lines[i] in lines && lines[j] in lines && L.Served(products, lines[i]) && L.Served(products, lines[j]);
  }
}
