/** Three runs from the opening stock that end with a live order on released stock, each for another reason. */
module LostStock {
  import opened Prelude
  import opened Saga
  import C = Catalog
  import Carts
  import CartRuns
  import CS = CheckoutService
  import L = Ledgers
  import O = Orders
  import SagaRuns

  /** An order that is not cancelled, on a reservation that is not active. */
  ghost predicate LivesWithoutStock(s: State, o: Id) {
    o in s.tables.orders && s.tables.orders[o].status == O.Created
    && SagaRuns.Inactive(s.ledger.reservations, s.tables.orders[o].reservation)
  }

  // ------------------------------------------------------------------ One line, one reservation, one order

  const REQUEST := O.Checkout(0, 1)

  ghost predicate Stocked(products: map<Id, C.Product>, x: Id) {
    x in products && products[x].active && products[x].available >= 1 && 0 <= products[x].price < 0x8000_0000_0000_0000
  }

  function TheCart(x: Id): Carts.Cart { Carts.Cart(1, [Carts.Item(x, 1)]) }

  function TheRequest(x: Id): C.Request { C.Request(0, [C.Line(x, x, 1)], 60) }

  function Grant(products: map<Id, C.Product>, x: Id): C.Response
    requires x in products
  {
    C.Response(0, C.Active, [C.ItemOf(products, C.Line(x, x, 1))], [], products[x].price, Some(products[x].currency), Some(60))
  }

  function Held(products: map<Id, C.Product>, x: Id): C.Ledger
    requires x in products
  {
    C.Recorded(C.Ledger(products, map[], map[], []), TheRequest(x), Grant(products, x))
  }

  function GivenBack(products: map<Id, C.Product>, x: Id): C.Ledger
    requires x in products
  {
    C.ReleaseTx(Held(products, x), 0, true).0
  }

  lemma OneLine(products: map<Id, C.Product>, x: Id)
    requires Stocked(products, x)
    ensures C.SortLines([C.Line(x, x, 1)]) == [C.Line(x, x, 1)]
    ensures C.Picked(products, [C.Line(x, x, 1)]) == [C.ItemOf(products, C.Line(x, x, 1))]
    ensures C.Shortages(products, [C.Line(x, x, 1)]) == []
  {
    var lines := [C.Line(x, x, 1)];
    assert lines[..0] == [] && lines[1..] == [];
  }

  lemma OnePrice(products: map<Id, C.Product>, x: Id)
    requires Stocked(products, x)
    ensures C.Total64([C.ItemOf(products, C.Line(x, x, 1))]) == products[x].price
  {
    var items := [C.ItemOf(products, C.Line(x, x, 1))];
    assert items[..0] == [];
  }

  lemma FirstReserve(products: map<Id, C.Product>, x: Id)
    requires Stocked(products, x)
    ensures C.Valid(TheRequest(x))
    ensures C.ReserveTx(C.Ledger(products, map[], map[], []), TheRequest(x), 0, 0, true) == (Held(products, x), C.Answered(Grant(products, x)))
  {
    OneLine(products, x);
    OnePrice(products, x);
    assert C.Decide(products, TheRequest(x), 0, 0) == Grant(products, x);
  }

  /** The released reservation keeps its stored answer, and a retry is handed it. */
  lemma RetriedReserve(products: map<Id, C.Product>, x: Id, newId: Id, now: int)
    requires x in products
    ensures var ledger := GivenBack(products, x);
            && ledger.reservations == map[0 := C.Reservation(0, C.Released, Grant(products, x))]
            && C.ReserveTx(ledger, TheRequest(x), newId, now, true) == (ledger, C.Answered(Grant(products, x)))
  {
    var ledger := GivenBack(products, x);
    assert Held(products, x).reservations == map[0 := C.Reservation(0, C.Active, Grant(products, x))];
    assert ledger.reservations[0].attempt == 0;
  }

  const NO_ORDERS := O.Tables(map[], map[], [], {}, [])
  const KEYED := NO_ORDERS.(keys := map[0 := O.KeyRow(REQUEST, 0, None)])

  function TheOrder(products: map<Id, C.Product>, x: Id): O.Order
    requires x in products
  {
    O.NewOrder(0, REQUEST, Grant(products, x), 0)
  }

  function Placed(products: map<Id, C.Product>, x: Id): O.Tables
    requires x in products
  {
    O.AfterPersist(KEYED, 0, TheOrder(products, x), 0)
  }

  lemma FirstPersist(products: map<Id, C.Product>, x: Id)
    requires Stocked(products, x)
    ensures O.PersistTx(KEYED, 0, REQUEST, Grant(products, x), 0, 0, 0, true) == (Placed(products, x), O.Done)
    ensures O.PersistTx(KEYED, 0, REQUEST, Grant(products, x), 0, 0, 0, false).0 == KEYED
    ensures !O.PersistTx(KEYED, 0, REQUEST, Grant(products, x), 0, 0, 0, false).1.Done?
  {
    assert O.ItemsFit(Grant(products, x).items);
  }

  // ------------------------------------------------------------------ The calls

  /** A call whose persist ends in the given way; everything else succeeds, compensation included. */
  function Persisting(attempt: Id, persist: Answer): CS.Fate {
    CS.Fate(attempt, Commits, true, true, true, true, true, 60, attempt, 0, Commits, 0, 0, 0, persist, true)
  }

  lemma LinesOfTheCart(x: Id)
    ensures LinesOf(TheCart(x).items) == [C.Line(x, x, 1)]
  {
  }

  lemma Settles(products: map<Id, C.Product>, x: Id, ledger: C.Ledger, attempt: Id, persist: Answer)
    requires Stocked(products, x)
    ensures CS.Settled(KEYED, ledger, 0, REQUEST, Grant(products, x), Persisting(attempt, persist))
            == match persist
               case Commits => CS.Outcome(Placed(products, x), ledger, Returned(TheOrder(products, x)))
               case CommitUnknown => CS.Outcome(Placed(products, x), C.ReleaseTx(ledger, 0, true).0, Failed)
               case Aborts => CS.Outcome(KEYED, C.ReleaseTx(ledger, 0, true).0, Failed)
  {
    FirstPersist(products, x);
  }

  lemma FirstCheckOut(products: map<Id, C.Product>, x: Id, persist: Answer)
    requires Stocked(products, x)
    ensures CS.CheckedOut(KEYED, C.Ledger(products, map[], map[], []), 0, REQUEST, 0, TheCart(x), Persisting(0, persist))
            == CS.Settled(KEYED, Held(products, x), 0, REQUEST, Grant(products, x), Persisting(0, persist))
  {
    FirstReserveOver(products, x);
  }

  lemma FirstReserveOver(products: map<Id, C.Product>, x: Id)
    requires Stocked(products, x)
    ensures ReserveOver(C.Ledger(products, map[], map[], []), HasCart(0, TheCart(x)), 60, 0, 0, Commits)
            == (Held(products, x), Reserved(0, Grant(products, x)))
  {
    LinesOfTheCart(x);
    FirstReserve(products, x);
  }

  lemma RetriedCheckOut(products: map<Id, C.Product>, x: Id)
    requires Stocked(products, x)
    ensures CS.CheckedOut(KEYED, GivenBack(products, x), 0, REQUEST, 0, TheCart(x), Persisting(1, Commits))
            == CS.Settled(KEYED, GivenBack(products, x), 0, REQUEST, Grant(products, x), Persisting(1, Commits))
  {
    RetriedReserveOver(products, x);
  }

  lemma RetriedReserveOver(products: map<Id, C.Product>, x: Id)
    requires Stocked(products, x)
    ensures ReserveOver(GivenBack(products, x), HasCart(0, TheCart(x)), 60, 1, 0, Commits)
            == (GivenBack(products, x), Reserved(0, Grant(products, x)))
  {
    FirstReserve(products, x);
    RetriedReserve(products, x, 1, 0);
    AnswerGoesOn(GivenBack(products, x), x, Grant(products, x));
  }

  lemma AnswerGoesOn(ledger: C.Ledger, x: Id, response: C.Response)
    requires C.Valid(TheRequest(x)) && response.status == C.Active
    requires C.ReserveTx(ledger, TheRequest(x), 1, 0, true) == (ledger, C.Answered(response))
    ensures ReserveOver(ledger, HasCart(0, TheCart(x)), 60, 1, 0, Commits) == (ledger, Reserved(0, response))
  {
    LinesOfTheCart(x);
  }

  lemma Keys(ledger: C.Ledger, x: Id, attempt: Id, persist: Answer)
    ensures CS.Created(KEYED, ledger, 0, REQUEST, Some(TheCart(x)), Persisting(attempt, persist))
            == CS.CheckedOut(KEYED, ledger, 0, REQUEST, 0, TheCart(x), Persisting(attempt, persist))
    ensures CS.Created(NO_ORDERS, ledger, 0, REQUEST, Some(TheCart(x)), Persisting(0, persist))
            == CS.CheckedOut(KEYED, ledger, 0, REQUEST, 0, TheCart(x), Persisting(0, persist))
  {
    assert O.PrepareTx(NO_ORDERS, 0, REQUEST, 0) == (KEYED, O.Proceed(0));
    assert O.PrepareTx(KEYED, 0, REQUEST, attempt) == (KEYED, O.Proceed(0));
  }

  lemma FirstCall(products: map<Id, C.Product>, x: Id, persist: Answer)
    requires Stocked(products, x)
    ensures CS.Created(NO_ORDERS, C.Ledger(products, map[], map[], []), 0, REQUEST, Some(TheCart(x)), Persisting(0, persist))
            == match persist
               case Commits => CS.Outcome(Placed(products, x), Held(products, x), Returned(TheOrder(products, x)))
               case CommitUnknown => CS.Outcome(Placed(products, x), GivenBack(products, x), Failed)
               case Aborts => CS.Outcome(KEYED, GivenBack(products, x), Failed)
  {
    Keys(C.Ledger(products, map[], map[], []), x, 0, persist);
    FirstCheckOut(products, x, persist);
    Settles(products, x, Held(products, x), 0, persist);
  }

  lemma RetriedCall(products: map<Id, C.Product>, x: Id)
    requires Stocked(products, x)
    ensures CS.Created(KEYED, GivenBack(products, x), 0, REQUEST, Some(TheCart(x)), Persisting(1, Commits))
            == CS.Outcome(Placed(products, x), GivenBack(products, x), Returned(TheOrder(products, x)))
  {
    Keys(GivenBack(products, x), x, 1, Commits);
    RetriedCheckOut(products, x);
    Settles(products, x, GivenBack(products, x), 1, Commits);
  }

  lemma AbortedCancel(products: map<Id, C.Product>, x: Id)
    requires Stocked(products, x)
    ensures CS.Cancelled(Placed(products, x), Held(products, x), 0, Commits, 0, 1, 2, Aborts)
            == (O.Faulted(O.CommitFailed), Placed(products, x), GivenBack(products, x))
  {
    assert Placed(products, x).orders[0] == TheOrder(products, x);
    assert Placed(products, x).outbox[0].id == 0;
    assert Held(products, x).reservations == map[0 := C.Reservation(0, C.Active, Grant(products, x))];
  }

  // ------------------------------------------------------------------ The runs

  function Filled(x: Id): seq<Step> { [WriteCart(0, map[x := 1])] }

  lemma OneItemListing(x: Id)
    ensures Carts.Listing(map[x := 1]) == [Carts.Item(x, 1)]
  {
    var m: map<Id, int> := map[x := 1];
    assert x in m;
    Carts.LeastExists(m);
    var k :| Carts.Least(m, k) && Carts.Listing(m) == [Carts.Item(k, m[k])] + Carts.Listing(m - {k});
    assert m - {k} == map[];
  }

  lemma CartIsFilled(products: map<Id, C.Product>, x: Id)
    ensures Run(Opening(products), Filled(x)) == Opening(products).(contents := map[0 := [map[], map[x := 1]]])
    ensures CartRuns.NotOlder([map[], map[x := 1]], TheCart(x))
  {
    CS.RunNext(Opening(products), [], WriteCart(0, map[x := 1]));
    assert [] + [WriteCart(0, map[x := 1])] == Filled(x);
    assert ContentsOf(map[], 0) + [map[x := 1]] == [map[], map[x := 1]];
    OneItemListing(x);
    var contents: seq<map<Id, int>> := [map[], map[x := 1]];
    assert TheCart(x).items == Carts.Listing(contents[1]);
  }

  /** An order placed on the reservation that was given back. */
  lemma ReleasedUnderTheOrder(products: map<Id, C.Product>, x: Id, s: State)
    requires x in products && s.tables == Placed(products, x) && s.ledger == GivenBack(products, x)
    ensures LivesWithoutStock(s, 0)
  {
    RetriedReserve(products, x, 0, 0);
    assert s.tables.orders[0] == TheOrder(products, x);
  }

  /** The first call for key 0. */
  function FirstSteps(x: Id, persist: Answer): seq<Step> {
    Filled(x) + CS.StepsOf(0, 0, REQUEST, Some(TheCart(x)), Persisting(0, persist))
  }

  lemma FirstCallRuns(products: map<Id, C.Product>, x: Id, persist: Answer)
    requires Stocked(products, x)
    ensures var s := Run(Opening(products), FirstSteps(x, persist));
            var o := CS.Created(NO_ORDERS, C.Ledger(products, map[], map[], []), 0, REQUEST, Some(TheCart(x)), Persisting(0, persist));
            && s.tables == o.tables && s.ledger == o.ledger && IsAt(s, 0, Finished(o.result))
            && s.creates.Keys == {0} && 0 !in s.keyLocks && s.cancels == map[] && s.rowLocks == map[]
            && s.contents == map[0 := [map[], map[x := 1]]]
  {
    CartIsFilled(products, x);
    CS.CreateIsASagaRun(Opening(products), Filled(x), 0, 0, REQUEST, Some(TheCart(x)), Persisting(0, persist));
  }

  /** The commit succeeds, its answer is lost, and the compensation takes the stock from under the order. */
  lemma {:induction false} LostCommitAnswerLosesStock(products: map<Id, C.Product>, x: Id)
    requires Stocked(products, x)
    ensures exists steps: seq<Step>, o: Id :: LivesWithoutStock(Run(Opening(products), steps), o)
                               && forall st :: st in steps ==> !st.StartCancel?
  {
    FirstCallRuns(products, x, CommitUnknown);
    FirstCall(products, x, CommitUnknown);
    var steps := FirstSteps(x, CommitUnknown);
    ReleasedUnderTheOrder(products, x, Run(Opening(products), steps));
    FirstStepsAreCheckouts(x, CommitUnknown);
  }

  lemma FirstStepsAreCheckouts(x: Id, persist: Answer)
    ensures forall st :: st in FirstSteps(x, persist) ==>
              !st.StartCancel? && (st.Persist? ==> st.answer == persist) && (persist != CommitUnknown ==> !LosesAnAnswer(st))
  {
  }

  ghost predicate LosesAnAnswer(st: Step) {
    || (st.Prepare? && st.answer == CommitUnknown) || (st.Reserve? && st.answer == CommitUnknown)
    || (st.Persist? && st.answer == CommitUnknown)
  }

  function RetrySteps(x: Id): seq<Step> {
    FirstSteps(x, Aborts) + CS.StepsOf(1, 0, REQUEST, Some(TheCart(x)), Persisting(1, Commits))
  }

  lemma RetryRuns(products: map<Id, C.Product>, x: Id)
    requires Stocked(products, x)
    ensures var s := Run(Opening(products), RetrySteps(x));
            s.tables == Placed(products, x) && s.ledger == GivenBack(products, x) && IsAt(s, 1, Finished(Returned(TheOrder(products, x))))
  {
    FirstCallRuns(products, x, Aborts);
    FirstCall(products, x, Aborts);
    CartIsFilled(products, x);
    RetriedReserve(products, x, 0, 0);
    RetriedCall(products, x);
    CS.CreateIsASagaRun(Opening(products), FirstSteps(x, Aborts), 1, 0, REQUEST, Some(TheCart(x)), Persisting(1, Commits));
  }

  /** The persist aborts, the compensation gives the stock back, and the retry of the key is handed the stored answer:
      it returns a live order on released stock, with no answer lost anywhere. */
  lemma {:induction false} RetryOfAnAbortedPersistLosesStock(products: map<Id, C.Product>, x: Id)
    requires Stocked(products, x)
    ensures exists steps: seq<Step>, o: Id, p: Id, order: O.Order :: LivesWithoutStock(Run(Opening(products), steps), o)
                                         && IsAt(Run(Opening(products), steps), p, Finished(Returned(order))) && order.id == o
                                         && forall st :: st in steps ==> !LosesAnAnswer(st) && !st.StartCancel?
  {
    RetryRuns(products, x);
    var steps := RetrySteps(x);
    ReleasedUnderTheOrder(products, x, Run(Opening(products), steps));
    RetryStepsLoseNoAnswer(x);
    assert IsAt(Run(Opening(products), steps), 1, Finished(Returned(TheOrder(products, x))));
  }

  lemma RetryStepsLoseNoAnswer(x: Id)
    ensures forall st :: st in RetrySteps(x) ==> !LosesAnAnswer(st) && !st.StartCancel?
  {
    FirstStepsAreCheckouts(x, Aborts);
    forall st | st in CS.StepsOf(1, 0, REQUEST, Some(TheCart(x)), Persisting(1, Commits)) ensures !LosesAnAnswer(st) && !st.StartCancel? {
    }
  }

  function CancelSteps(x: Id): seq<Step> {
    FirstSteps(x, Commits) + [StartCancel(0, 0), CancelRelease(0, Commits), CancelCommit(0, 0, 1, 2, Aborts)]
  }

  /** The catalog releases the reservation, and the commit that was to cancel the order aborts. */
  lemma {:induction false} AbortedCancelLosesStock(products: map<Id, C.Product>, x: Id)
    requires Stocked(products, x)
    ensures exists steps: seq<Step>, o: Id :: LivesWithoutStock(Run(Opening(products), steps), o)
                               && forall st :: st in steps && st.Persist? ==> st.answer == Commits
  {
    CancelRuns(products, x);
    var steps := CancelSteps(x);
    ReleasedUnderTheOrder(products, x, Run(Opening(products), steps));
    FirstStepsAreCheckouts(x, Commits);
    CancelStepsPersistNothing(x);
  }

  lemma CancelStepsPersistNothing(x: Id)
    requires forall st :: st in FirstSteps(x, Commits) && st.Persist? ==> st.answer == Commits
    ensures forall st :: st in CancelSteps(x) && st.Persist? ==> st.answer == Commits
  {
  }

  lemma CancelRuns(products: map<Id, C.Product>, x: Id)
    requires Stocked(products, x)
    ensures var s := Run(Opening(products), CancelSteps(x)); s.tables == Placed(products, x) && s.ledger == GivenBack(products, x)
  {
    FirstCallRuns(products, x, Commits);
    FirstCall(products, x, Commits);
    AbortedCancel(products, x);
    assert Placed(products, x).orders[0] == TheOrder(products, x);
    CS.CancelIsASagaRun(Opening(products), FirstSteps(x, Commits), 0, 0, Commits, 0, 1, 2, Aborts);
  }
}
