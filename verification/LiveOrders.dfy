/**
 When an order holds its stock.

 "A live order has an active reservation" is not what the code promises: stock can be given back from under an order
 that lives on (`LostStock` gives the runs). For every run the reservation of an order is inactive exactly when a
 compensation or a cancellation has released it.
 */
module LiveOrders {
  import opened Prelude
  import opened Saga
  import opened SagaRuns
  import C = Catalog
  import L = Ledgers
  import Carts
  import CartRuns
  import CheckoutService
  import O = Orders
  import R = OrderRuns
  import SagaLedgers

  // ------------------------------------------------------------------ What releases a reservation

  /** The step is a compensation of reservation `r` that the catalog applies. */
  ghost predicate Compensates(s: State, step: Step, r: Id) {
    step.Compensate? && Enabled(s, step) && step.commits && r in s.ledger.reservations && s.creates[step.p].pc.reservation == r
  }

  /** The step is the release of reservation `r` by a `Cancel` call, and the catalog applies it. */
  ghost predicate CancelReleases(s: State, step: Step, r: Id) {
    step.CancelRelease? && Enabled(s, step) && step.answer != Aborts && r in s.ledger.reservations && s.cancels[step.c].reservation == r
  }

  ghost function Compensation(r: Id): (State, Step) -> bool {
    (s, step) => Compensates(s, step, r)
  }

  ghost function CancelRelease(r: Id): (State, Step) -> bool {
    (s, step) => CancelReleases(s, step, r)
  }

  /** A step of the run, taken where it stands, is of the given kind. */
  ghost predicate Happened(s: State, steps: seq<Step>, kind: (State, Step) -> bool) {
    exists i :: 0 <= i < |steps| && kind(Run(s, steps[..i]), steps[i])
  }

  ghost predicate Compensated(s: State, steps: seq<Step>, r: Id) {
    Happened(s, steps, Compensation(r))
  }

  ghost predicate CancelReleased(s: State, steps: seq<Step>, r: Id) {
    Happened(s, steps, CancelRelease(r))
  }

  lemma HappenedInPrefix(s: State, steps: seq<Step>, n: nat, kind: (State, Step) -> bool)
    requires n <= |steps| && Happened(s, steps[..n], kind)
    ensures Happened(s, steps, kind)
  {
    var i :| 0 <= i < n && kind(Run(s, steps[..n][..i]), steps[..n][i]);
    assert steps[..n][..i] == steps[..i];
  }

  /** With one more step, what happened before and what the step is. */
  lemma HappenedLast(s: State, steps: seq<Step>, kind: (State, Step) -> bool)
    requires steps != []
    ensures var n := |steps| - 1;
            Happened(s, steps, kind) <==> Happened(s, steps[..n], kind) || kind(Run(s, steps[..n]), steps[n])
  {
    var n := |steps| - 1;
    if Happened(s, steps[..n], kind) {
      HappenedInPrefix(s, steps, n, kind);
    }
    if Happened(s, steps, kind) {
      var i :| 0 <= i < |steps| && kind(Run(s, steps[..i]), steps[i]);
      if i < n {
        assert steps[..n][..i] == steps[..i] && steps[..n][i] == steps[i];
      }
    }
  }

  lemma ReleasingCalls(s: State, step: Step, r: Id)
    requires r in s.ledger.reservations
    ensures SagaLedgers.CallsOf(s, step) == [L.ReleaseCall(r, true)] <==> Compensates(s, step, r) || CancelReleases(s, step, r)
  {
  }

  lemma StepReleases(s: State, step: Step, r: Id)
    requires r in s.ledger.reservations && s.ledger.reservations[r].status != C.Failed
    ensures L.IsReleased(Next(s, step).ledger, r) <==>
              L.IsReleased(s.ledger, r) || Compensates(s, step, r) || CancelReleases(s, step, r)
  {
    SagaLedgers.StepFollows(s, step);
    ReleasingCalls(s, step, r);
    var calls := SagaLedgers.CallsOf(s, step);
    if calls != [] {
      L.OnlyGiveBacksRelease(s.ledger, calls[0], r);
      L.StepEvolves(s.ledger, calls[0]);
    }
  }

  /** A reservation granted active is never failed. */
  ghost predicate NotFailed(reservations: Reservations) {
    forall r :: r in reservations && reservations[r].response.status == C.Active ==> reservations[r].status != C.Failed
  }

  lemma CallKeepsNotFailed(s: C.Ledger, call: L.Call)
    requires NotFailed(s.reservations)
    ensures NotFailed(L.Step(s, call).reservations)
  {
  }

  lemma CallLeavesNewUnreleased(s: C.Ledger, call: L.Call, r: Id)
    requires r !in s.reservations && r in L.Step(s, call).reservations
    ensures !L.IsReleased(L.Step(s, call), r)
  {
  }

  lemma StepNotFailed(s: State, step: Step)
    requires NotFailed(s.ledger.reservations)
    ensures NotFailed(Next(s, step).ledger.reservations)
    ensures forall r :: r in s.ledger.reservations ==> r in Next(s, step).ledger.reservations
    ensures forall r :: r in Next(s, step).ledger.reservations && r !in s.ledger.reservations ==> !L.IsReleased(Next(s, step).ledger, r)
  {
    SagaLedgers.StepFollows(s, step);
    var calls := SagaLedgers.CallsOf(s, step);
    if calls != [] {
      CallKeepsNotFailed(s.ledger, calls[0]);
      L.StepEvolves(s.ledger, calls[0]);
      forall r | r in L.Step(s.ledger, calls[0]).reservations && r !in s.ledger.reservations
        ensures !L.IsReleased(L.Step(s.ledger, calls[0]), r)
      {
        CallLeavesNewUnreleased(s.ledger, calls[0], r);
      }
    }
  }

  lemma {:induction false} RunNotFailed(products: map<Id, C.Product>, steps: seq<Step>)
    ensures NotFailed(Run(Opening(products), steps).ledger.reservations)
  {
    if steps != [] {
      RunNotFailed(products, steps[..|steps| - 1]);
      StepNotFailed(Run(Opening(products), steps[..|steps| - 1]), steps[|steps| - 1]);
    }
  }

  /** What a run released was there to release. */
  lemma {:induction false} ReleasedWasThere(products: map<Id, C.Product>, steps: seq<Step>, r: Id, i: nat)
    requires i <= |steps| && r in Run(Opening(products), steps[..i]).ledger.reservations
    ensures r in Run(Opening(products), steps).ledger.reservations
  {
    if i == |steps| {
      assert steps[..i] == steps;
    } else {
      var front := steps[..|steps| - 1];
      assert front[..i] == steps[..i];
      ReleasedWasThere(products, front, r, i);
      RunNotFailed(products, front);
      StepNotFailed(Run(Opening(products), front), steps[|steps| - 1]);
    }
  }

  ghost predicate ReleasedInRun(s: State, steps: seq<Step>, r: Id) {
    Compensated(s, steps, r) || CancelReleased(s, steps, r)
  }

  lemma UnknownIsNotReleased(products: map<Id, C.Product>, steps: seq<Step>, r: Id)
    requires r !in Run(Opening(products), steps).ledger.reservations
    ensures !ReleasedInRun(Opening(products), steps, r)
  {
    var s := Opening(products);
    forall i | 0 <= i < |steps| ensures !Compensates(Run(s, steps[..i]), steps[i], r) && !CancelReleases(Run(s, steps[..i]), steps[i], r) {
      if r in Run(s, steps[..i]).ledger.reservations {
        ReleasedWasThere(products, steps, r, i);
      }
    }
  }

  lemma {:induction false} ReleasedIffRunReleased(products: map<Id, C.Product>, steps: seq<Step>, r: Id)
    requires r in Run(Opening(products), steps).ledger.reservations
    requires Run(Opening(products), steps).ledger.reservations[r].response.status == C.Active
    ensures L.IsReleased(Run(Opening(products), steps).ledger, r) <==> ReleasedInRun(Opening(products), steps, r)
  {
    if steps != [] {
      var s, front, last := Opening(products), steps[..|steps| - 1], steps[|steps| - 1];
      RunNotFailed(products, front);
      HappenedLast(s, steps, Compensation(r));
      HappenedLast(s, steps, CancelRelease(r));
      if r in Run(s, front).ledger.reservations {
        StayedActive(Run(s, front), last, r);
        ReleasedIffRunReleased(products, front, r);
        StepReleases(Run(s, front), last, r);
      } else {
        UnknownIsNotReleased(products, front, r);
        StepNotFailed(Run(s, front), last);
      }
    }
  }

  /** Answers never change. */
  lemma StayedActive(s: State, step: Step, r: Id)
    requires r in s.ledger.reservations
    ensures r in Next(s, step).ledger.reservations
    ensures Next(s, step).ledger.reservations[r].response == s.ledger.reservations[r].response
    ensures Next(s, step).ledger.reservations[r].attempt == s.ledger.reservations[r].attempt
  {
    SagaLedgers.StepFollows(s, step);
    var calls := SagaLedgers.CallsOf(s, step);
    if calls != [] {
      L.StepEvolves(s.ledger, calls[0]);
    }
  }

  /** For every reachable state: the reservation of an order is inactive if and only if the run holds an applied
      compensation of it or an applied release of it by a `Cancel` call. */
  lemma {:induction false} OrdersLoseTheirStockExactlyWhenReleased(products: map<Id, C.Product>, steps: seq<Step>, o: Id)
    requires o in Run(Opening(products), steps).tables.orders
    ensures var s := Run(Opening(products), steps);
            var r := s.tables.orders[o].reservation;
            Inactive(s.ledger.reservations, r) <==>
              Compensated(Opening(products), steps, r) || CancelReleased(Opening(products), steps, r)
  {
    Reachable(products, steps);
    var s := Run(Opening(products), steps);
    assert OrderOk(s.tables.keys, s.born, s.ledger.reservations, o, s.tables.orders[o]);
    RunNotFailed(products, steps);
    ReleasedIffRunReleased(products, steps, s.tables.orders[o].reservation);
  }

  // ------------------------------------------------------------------ Where compensations come from

  /** A persist that commits, is answered, and keeps its session. */
  ghost predicate PersistsWell(s: State, step: Step)
    requires step.Persist? && Enabled(s, step)
  {
    var c := s.creates[step.p];
    && c.connected && step.answer == Commits
    && O.PersistTx(s.tables, c.key, c.request, c.pc.response, step.newId, step.now, step.outId, true).1.Done?
  }

  ghost predicate FailsToPersist(s: State, step: Step, key: Id) {
    step.Persist? && Enabled(s, step) && s.creates[step.p].key == key && !PersistsWell(s, step)
  }

  ghost function PersistFailure(key: Id): (State, Step) -> bool {
    (s, step) => FailsToPersist(s, step, key)
  }

  ghost predicate FailedPersist(s: State, steps: seq<Step>, key: Id) {
    Happened(s, steps, PersistFailure(key))
  }

  lemma PersistOwes(s: State, step: Step)
    requires step.Persist? && Enabled(s, step)
    ensures var t := Next(s, step);
            && step.p in t.creates && t.creates[step.p].key == s.creates[step.p].key
            && (t.creates[step.p].pc.MustRelease? <==> !PersistsWell(s, step))
            && (forall p :: p in t.creates && p != step.p ==> p in s.creates && t.creates[p] == s.creates[p])
  {
  }

  lemma CancelReleaseKeepsCalls(s: State, c: Id, answer: Answer)
    requires c in s.cancels
    ensures CancelReleaseStep(s, c, answer).creates == s.creates
  {
  }

  lemma ForeignStepsKeepCalls(s: State, step: Step)
    requires CallOf(step).None?
    ensures Next(s, step).creates == s.creates
  {
    if step.CancelRelease? && Enabled(s, step) {
      CancelReleaseKeepsCalls(s, step.c, step.answer);
    }
  }

  /** Moving one call to anything but a debt creates none. */
  lemma MoveOwesNothing(s: State, q: Id, pc: Pc, p: Id)
    requires q in s.creates && !pc.MustRelease? && p in Move(s, q, pc).creates && Move(s, q, pc).creates[p].pc.MustRelease?
    ensures p in s.creates && p != q && s.creates[p] == Move(s, q, pc).creates[p]
  {
  }

  lemma CallStepsOweNothingNew(s: State, step: Step, p: Id)
    requires step.Prepare? || step.ReadCart? || step.Reserve?
    requires Enabled(s, step) && p in Next(s, step).creates && Next(s, step).creates[p].pc.MustRelease?
    ensures p in s.creates && s.creates[p].pc.MustRelease? && s.creates[p].key == Next(s, step).creates[p].key
  {
    match step
    case Prepare(q, newAttempt, answer) =>
      var (tables, prepared) := O.PrepareTx(s.tables, s.creates[q].key, s.creates[q].request, newAttempt);
      MoveOwesNothing(s.(tables := if answer == Aborts then s.tables else tables), q, AfterPrepare(answer, prepared), p);
    case ReadCart(q, read) =>
      MoveOwesNothing(Noted(s, s.creates[q].request.user, read), q, AfterCart(s.creates[q].request, s.creates[q].pc.attempt, read), p);
    case Reserve(q, ttl, newId, now, answer) =>
      var (ledger, pc) := ReserveOver(s.ledger, s.creates[q].pc, ttl, newId, now, answer);
      MoveOwesNothing(s.(ledger := ledger), q, pc, p);
  }

  lemma PlainStepsOweNothingNew(s: State, step: Step, p: Id)
    requires step.Start? || step.Lock? || step.Compensate? || step.Disconnect? || step.Crash?
    requires p in Next(s, step).creates && Next(s, step).creates[p].pc.MustRelease?
    ensures p in s.creates && s.creates[p].pc.MustRelease? && s.creates[p].key == Next(s, step).creates[p].key
  {
  }

  lemma OtherStepsOweNothingNew(s: State, step: Step, p: Id)
    requires !step.Persist? && p in Next(s, step).creates && Next(s, step).creates[p].pc.MustRelease?
    ensures p in s.creates && s.creates[p].pc.MustRelease? && s.creates[p].key == Next(s, step).creates[p].key
  {
    if CallOf(step).None? {
      ForeignStepsKeepCalls(s, step);
    } else if step.Prepare? || step.ReadCart? || step.Reserve? {
      if Enabled(s, step) {
        CallStepsOweNothingNew(s, step, p);
      }
    } else {
      PlainStepsOweNothingNew(s, step, p);
    }
  }

  lemma {:induction false} DebtsComeFromFailedPersists(products: map<Id, C.Product>, steps: seq<Step>, p: Id)
    requires p in Run(Opening(products), steps).creates && Run(Opening(products), steps).creates[p].pc.MustRelease?
    ensures FailedPersist(Opening(products), steps, Run(Opening(products), steps).creates[p].key)
  {
    var s0, n := Opening(products), |steps| - 1;
    assert steps != [];
    var s, last := Run(s0, steps[..n]), steps[n];
    if last.Persist? && Enabled(s, last) {
      PersistOwes(s, last);
      if p == last.p {
        assert PersistFailure(s.creates[p].key)(Run(s0, steps[..n]), steps[n]);
      } else {
        DebtsComeFromFailedPersists(products, steps[..n], p);
        HappenedInPrefix(s0, steps, n, PersistFailure(s.creates[p].key));
      }
    } else {
      if !last.Persist? {
        OtherStepsOweNothingNew(s, last, p);
      }
      DebtsComeFromFailedPersists(products, steps[..n], p);
      HappenedInPrefix(s0, steps, n, PersistFailure(s.creates[p].key));
    }
  }

  // ------------------------------------------------------------------ What stays over a run

  lemma {:induction false} Splits(s: State, steps: seq<Step>, n: nat)
    requires n <= |steps|
    ensures Run(Run(s, steps[..n]), steps[n..]) == Run(s, steps)
  {
    if n == |steps| {
      assert steps[..n] == steps && steps[n..] == [];
    } else {
      var front := steps[..|steps| - 1];
      assert front[..n] == steps[..n] && front[n..] == steps[n..][..|steps| - n - 1];
      Splits(s, front, n);
    }
  }

  lemma {:induction false} AnswersStay(s: State, steps: seq<Step>, r: Id)
    requires r in s.ledger.reservations
    ensures r in Run(s, steps).ledger.reservations
    ensures Run(s, steps).ledger.reservations[r].attempt == s.ledger.reservations[r].attempt
  {
    if steps != [] {
      AnswersStay(s, steps[..|steps| - 1], r);
      StayedActive(Run(s, steps[..|steps| - 1]), steps[|steps| - 1], r);
    }
  }

  /** A compensation of an order's reservation is owed by a call for the order's own key. */
  lemma CompensationsAreTheKeysOwn(products: map<Id, C.Product>, steps: seq<Step>, o: Id)
    requires o in Run(Opening(products), steps).tables.orders
    requires Compensated(Opening(products), steps, Run(Opening(products), steps).tables.orders[o].reservation)
    ensures o in Run(Opening(products), steps).born
    ensures FailedPersist(Opening(products), steps, Run(Opening(products), steps).born[o])
  {
    var s0 := Opening(products);
    var t := Run(s0, steps);
    var r := t.tables.orders[o].reservation;
    var i :| 0 <= i < |steps| && Compensates(Run(s0, steps[..i]), steps[i], r);
    var s := Run(s0, steps[..i]);
    var p := steps[i].p;
    Reachable(products, steps[..i]);
    Reachable(products, steps);
    assert CallOk(s.tables.keys, s.seen, s.ledger.reservations, s.creates[p]);
    DebtsComeFromFailedPersists(products, steps[..i], p);
    HappenedInPrefix(s0, steps, i, PersistFailure(s.creates[p].key));
    Splits(s0, steps, i);
    AnswersStay(s, steps[i..], r);
    RunStays(s, steps[i..]);
    assert OrderOk(t.tables.keys, t.born, t.ledger.reservations, o, t.tables.orders[o]);
    assert t.born[o] == s.creates[p].key;
  }

  /** After the release at place `i` the order has been cancelled by a commit. */
  ghost predicate CancelledAfter(s: State, steps: seq<Step>, i: int, o: Id) {
    exists j :: 0 <= i < j < |steps| && steps[j].CancelCommit? && IsCancelled(Next(Run(s, steps[..j]), steps[j]), o)
  }

  ghost predicate IsCancelled(s: State, o: Id) {
    o in s.tables.orders && s.tables.orders[o].status == O.Cancelled
  }

  lemma {:induction false} CancelledStays(s: State, steps: seq<Step>, o: Id)
    requires IsCancelled(s, o)
    ensures IsCancelled(Run(s, steps), o)
  {
    SagaLedgers.TablesFollow(s, steps);
    R.OrdersStay(s.tables, SagaLedgers.Acts(s, steps), o);
  }

  /** What a caller can rely on: an order that is not cancelled holds its stock when no persist of its key ended other
      than committed and answered with its session kept, and no release for it was left without its cancellation. */
  lemma {:induction false} UndisturbedOrdersHoldTheirStock(products: map<Id, C.Product>, steps: seq<Step>, o: Id)
    requires o in Run(Opening(products), steps).tables.orders && !IsCancelled(Run(Opening(products), steps), o)
    requires o in Run(Opening(products), steps).born ==> !FailedPersist(Opening(products), steps, Run(Opening(products), steps).born[o])
    requires forall i: nat :: i < |steps|
                              && CancelReleases(Run(Opening(products), steps[..i]), steps[i], Run(Opening(products), steps).tables.orders[o].reservation)
                              ==> CancelledAfter(Opening(products), steps, i, o)
    ensures var s := Run(Opening(products), steps);
            && s.tables.orders[o].reservation in s.ledger.reservations
            && s.ledger.reservations[s.tables.orders[o].reservation].status == C.Active
  {
    var s0 := Opening(products);
    var s := Run(s0, steps);
    var r := s.tables.orders[o].reservation;
    Reachable(products, steps);
    assert OrderOk(s.tables.keys, s.born, s.ledger.reservations, o, s.tables.orders[o]);
    OrdersLoseTheirStockExactlyWhenReleased(products, steps, o);
    if Compensated(s0, steps, r) {
      CompensationsAreTheKeysOwn(products, steps, o);
    }
    NotCancelledMeansNoCommit(s0, steps, o);
  }

  lemma NotCancelledMeansNoCommit(s: State, steps: seq<Step>, o: Id)
    requires !IsCancelled(Run(s, steps), o)
    ensures forall i :: !CancelledAfter(s, steps, i, o)
  {
    forall j | 0 <= j < |steps| ensures !IsCancelled(Next(Run(s, steps[..j]), steps[j]), o) {
      assert steps[..j + 1][..j] == steps[..j];
      Splits(s, steps, j + 1);
      if IsCancelled(Run(s, steps[..j + 1]), o) {
        CancelledStays(Run(s, steps[..j + 1]), steps[j + 1..], o);
      }
    }
  }
}
