/** The sagas drive the ledger and the order tables only through their transactions, so what those keep, the sagas keep. */
module SagaLedgers {
  import opened Prelude
  import opened Saga
  import C = Catalog
  import L = Ledgers
  import O = Orders
  import R = OrderRuns

  /** One saga step is at most one catalog call. */
  ghost function CallsOf(s: State, step: Step): seq<L.Call> {
    if !Enabled(s, step) then []
    else
      match step
      case Reserve(p, ttl, newId, now, answer) =>
        var request := C.Request(s.creates[p].pc.attempt, LinesOf(s.creates[p].pc.cart.items), ttl);
        if C.Valid(request) then [L.ReserveCall(request, newId, now, answer != Aborts)] else []
      case Compensate(p, commits) => [L.ReleaseCall(s.creates[p].pc.reservation, commits)]
      case CancelRelease(c, answer) => [L.ReleaseCall(s.cancels[c].reservation, answer != Aborts)]
      case _ => []
  }

  ghost function Calls(s: State, steps: seq<Step>): seq<L.Call> {
    if steps == [] then []
    else Calls(s, steps[..|steps| - 1]) + CallsOf(Run(s, steps[..|steps| - 1]), steps[|steps| - 1])
  }

  predicate Calling(step: Step) {
    step.Reserve? || step.Compensate? || step.CancelRelease?
  }

  lemma QuietForCatalog(s: State, step: Step)
    requires !Calling(step) && Enabled(s, step)
    ensures CallsOf(s, step) == [] && Next(s, step).ledger == s.ledger
  {
  }

  lemma ReserveFollows(s: State, p: Id, ttl: int, newId: Id, now: int, answer: Answer)
    requires p in s.creates && s.creates[p].pc.HasCart?
    ensures var request := C.Request(s.creates[p].pc.attempt, LinesOf(s.creates[p].pc.cart.items), ttl);
            ReserveStep(s, p, ttl, newId, now, answer).ledger
            == if C.Valid(request) then C.ReserveTx(s.ledger, request, newId, now, answer != Aborts).0 else s.ledger
  {
  }

  lemma StepFollows(s: State, step: Step)
    ensures |CallsOf(s, step)| <= 1
    ensures Next(s, step).ledger == if CallsOf(s, step) == [] then s.ledger else L.Step(s.ledger, CallsOf(s, step)[0])
  {
    if Enabled(s, step) {
      match step
      case Reserve(p, ttl, newId, now, answer) => ReserveFollows(s, p, ttl, newId, now, answer);
      case Compensate(p, commits) => CompensateFollows(s, p, commits);
      case CancelRelease(c, answer) => CancelFollows(s, c, answer);
      case _ => QuietForCatalog(s, step);
    }
  }

  lemma CompensateFollows(s: State, p: Id, commits: bool)
    requires Enabled(s, Compensate(p, commits))
    ensures Next(s, Compensate(p, commits)).ledger == C.ReleaseTx(s.ledger, s.creates[p].pc.reservation, commits).0
  {
  }

  lemma CancelFollows(s: State, c: Id, answer: Answer)
    requires c in s.cancels
    ensures CancelReleaseStep(s, c, answer).ledger == C.ReleaseTx(s.ledger, s.cancels[c].reservation, answer != Aborts).0
  {
  }

  lemma {:induction false} LedgerFollows(s: State, steps: seq<Step>)
    ensures Run(s, steps).ledger == L.Run(s.ledger, Calls(s, steps))
  {
    if steps != [] {
      var front, last := steps[..|steps| - 1], steps[|steps| - 1];
      LedgerFollows(s, front);
      StepFollows(Run(s, front), last);
      var calls, more := Calls(s, front), CallsOf(Run(s, front), last);
      if more == [] {
        assert calls + more == calls;
      } else {
        assert (calls + more)[..|calls + more| - 1] == calls;
        assert (calls + more)[|calls + more| - 1] == more[0];
      }
    }
  }

  /** Under any interleaving of checkouts and cancellations, crashes and lost answers included: stock on the shelf
      plus stock held by active reservations is the opening stock, no reservation becomes active again, and each
      gives its stock back at most once over the whole run. */
  lemma {:induction false} SagasConserveStock(products: map<Id, C.Product>, steps: seq<Step>, more: seq<Step>, p: Id, r: Id)
    requires p in products && forall q :: q in products ==> products[q].available >= 0
    ensures var s, t := Run(Opening(products), steps), Run(Run(Opening(products), steps), more);
            && p in s.ledger.products && s.ledger.products[p].available >= 0
            && s.ledger.products[p].available + L.Held(s.ledger, p) == products[p].available
            && (r in s.ledger.reservations && s.ledger.reservations[r].status != C.Active ==>
                  r in t.ledger.reservations && t.ledger.reservations[r].status == s.ledger.reservations[r].status)
    ensures L.GiveBacks(L.Opening(products), Calls(Opening(products), steps), r) <= 1
  {
    LedgerFollows(Opening(products), steps);
    L.StockConservedFromOpening(products, Calls(Opening(products), steps), p);
    L.GivenBackAtMostOnce(L.Opening(products), Calls(Opening(products), steps), r);
    var s := Run(Opening(products), steps);
    LedgerFollows(s, more);
    L.RunEvolves(s.ledger, Calls(s, more));
  }

  /** One saga step is at most one transaction of the order service. */
  ghost function ActsOf(s: State, step: Step): seq<R.Act> {
    if !Enabled(s, step) then []
    else
      match step
      case Prepare(p, newAttempt, answer) =>
        if answer == Aborts then [] else [R.Prepare(s.creates[p].key, s.creates[p].request, newAttempt)]
      case Persist(p, newId, now, outId, answer) =>
        if !s.creates[p].connected then []
        else [R.Persist(s.creates[p].key, s.creates[p].request, s.creates[p].pc.response, newId, now, outId, answer != Aborts)]
      case CancelCommit(c, at, outId, outId2, answer) => [R.Cancel(s.cancels[c].order, true, at, outId, outId2, answer != Aborts)]
      case Deliver(e, at, outId, outId2, commits) => [R.Handle(e, at, outId, outId2, commits)]
      case _ => []
  }

  ghost function Acts(s: State, steps: seq<Step>): seq<R.Act> {
    if steps == [] then []
    else Acts(s, steps[..|steps| - 1]) + ActsOf(Run(s, steps[..|steps| - 1]), steps[|steps| - 1])
  }

  predicate Acting(step: Step) {
    step.Prepare? || step.Persist? || step.CancelCommit? || step.Deliver?
  }

  lemma QuietForOrders(s: State, step: Step)
    requires !Acting(step) && Enabled(s, step)
    ensures ActsOf(s, step) == [] && Next(s, step).tables == s.tables
  {
  }

  lemma PrepareFollows(s: State, p: Id, newAttempt: Id, answer: Answer)
    requires p in s.creates
    ensures PrepareStep(s, p, newAttempt, answer).tables
            == if answer == Aborts then s.tables else O.PrepareTx(s.tables, s.creates[p].key, s.creates[p].request, newAttempt).0
  {
  }

  lemma PersistFollows(s: State, p: Id, newId: Id, now: int, outId: Id, answer: Answer)
    requires Enabled(s, Persist(p, newId, now, outId, answer))
    ensures PersistStep(s, p, newId, now, outId, answer).tables
            == if !s.creates[p].connected then s.tables
               else O.PersistTx(s.tables, s.creates[p].key, s.creates[p].request, s.creates[p].pc.response, newId, now, outId, answer != Aborts).0
  {
  }

  lemma StepActs(s: State, step: Step)
    ensures |ActsOf(s, step)| <= 1
    ensures Next(s, step).tables == if ActsOf(s, step) == [] then s.tables else R.Apply(s.tables, ActsOf(s, step)[0])
  {
    if Enabled(s, step) {
      match step
      case Prepare(p, newAttempt, answer) => PrepareFollows(s, p, newAttempt, answer);
      case Persist(p, newId, now, outId, answer) => PersistFollows(s, p, newId, now, outId, answer);
      case CancelCommit(c, at, outId, outId2, answer) =>
      case Deliver(e, at, outId, outId2, commits) =>
      case _ => QuietForOrders(s, step);
    }
  }

  lemma {:induction false} TablesFollow(s: State, steps: seq<Step>)
    ensures Run(s, steps).tables == R.Run(s.tables, Acts(s, steps))
  {
    if steps != [] {
      var front, last := steps[..|steps| - 1], steps[|steps| - 1];
      TablesFollow(s, front);
      StepActs(Run(s, front), last);
      var acts, more := Acts(s, front), ActsOf(Run(s, front), last);
      if more == [] {
        assert acts + more == acts;
      } else {
        assert (acts + more)[..|acts + more| - 1] == acts;
        assert (acts + more)[|acts + more| - 1] == more[0];
      }
    }
  }

  /** Under the same interleavings every order's history is a path of allowed edges from created to its status,
      and the outbox tells exactly that path. */
  lemma {:induction false} SagasKeepHistories(products: map<Id, C.Product>, steps: seq<Step>, o: Id)
    requires o in Run(Opening(products), steps).tables.orders
    ensures var t := Run(Opening(products), steps).tables;
            var rows := R.HistoryOf(t.history, o);
            && |rows| <= 4 && R.Path(rows, t.orders[o].status)
            && R.KindsOf(t.outbox, o) == [O.OrderCreated(t.orders[o].(status := O.Created))] + R.Echo(rows)
  {
    TablesFollow(Opening(products), steps);
    R.HistoryIsAFaithfulPath(Acts(Opening(products), steps), o);
    forall q ensures R.FaithfulOrder(R.EMPTY, q) {
    }
    R.RunIsFaithful(R.EMPTY, Acts(Opening(products), steps));
    assert R.FaithfulOrder(Run(Opening(products), steps).tables, o);
  }
}
