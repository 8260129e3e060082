/** No lock of the checkout and cancellation sagas is ever left behind: whoever returns, crashes or loses its session frees it. */
module SagaLocks {
  import opened Prelude
  import opened Saga
  import opened SagaRuns
  import C = Catalog
  import O = Orders

  /** Every key lock belongs to a connected call for that key that is on its way, every row lock to a connected cancellation
      of that order. */
  ghost predicate KeysOwned(creates: map<Id, Create>, keyLocks: map<Id, Id>) {
    forall k :: k in keyLocks ==>
                  && keyLocks[k] in creates && creates[keyLocks[k]].key == k
                  && creates[keyLocks[k]].connected && Holding(creates[keyLocks[k]].pc)
  }

  ghost predicate RowsOwned(cancels: map<Id, Cancel>, rowLocks: map<Id, Id>) {
    forall o :: o in rowLocks ==> rowLocks[o] in cancels && cancels[rowLocks[o]].order == o && cancels[rowLocks[o]].connected
  }

  ghost predicate Owned(s: State) {
    KeysOwned(s.creates, s.keyLocks) && RowsOwned(s.cancels, s.rowLocks)
  }

  lemma MoveKeepsOwners(s: State, p: Id, pc: Pc)
    requires p in s.creates && KeysOwned(s.creates, s.keyLocks) && (Holding(pc) || pc.Finished?)
    ensures KeysOwned(Move(s, p, pc).creates, Move(s, p, pc).keyLocks)
  {
  }

  /** What call `p` stands at after its step. */
  lemma CallStepKeepsOwners(s: State, step: Step)
    requires Owned(s) && Enabled(s, step)
    requires step.Prepare? || step.ReadCart? || step.Reserve? || step.Persist? || step.Compensate?
    ensures Owned(Next(s, step))
  {
    match step
    case Prepare(p, newAttempt, answer) =>
      var (tables, prepared) := O.PrepareTx(s.tables, s.creates[p].key, s.creates[p].request, newAttempt);
      MoveKeepsOwners(s.(tables := if answer == Aborts then s.tables else tables), p, AfterPrepare(answer, prepared));
    case ReadCart(p, read) =>
      MoveKeepsOwners(Noted(s, s.creates[p].request.user, read), p, AfterCart(s.creates[p].request, s.creates[p].pc.attempt, read));
    case Reserve(p, ttl, newId, now, answer) =>
      var (ledger, pc) := ReserveOver(s.ledger, s.creates[p].pc, ttl, newId, now, answer);
      MoveKeepsOwners(s.(ledger := ledger), p, pc);
    case Persist(p, newId, now, outId, answer) => PersistKeepsOwners(s, p, newId, now, outId, answer);
    case Compensate(p, commits) =>
      MoveKeepsOwners(s.(ledger := C.ReleaseTx(s.ledger, s.creates[p].pc.reservation, commits).0), p, Finished(Failed));
  }

  lemma PersistKeepsOwners(s: State, p: Id, newId: Id, now: int, outId: Id, answer: Answer)
    requires Owned(s) && p in s.creates && s.creates[p].pc.Reserved?
    ensures Owned(PersistStep(s, p, newId, now, outId, answer))
  {
    var create := s.creates[p];
    var failed := Move(s, p, MustRelease(create.pc.response.reservation));
    var tables := O.PersistTx(s.tables, create.key, create.request, create.pc.response, newId, now, outId, answer != Aborts).0;
    MoveKeepsOwners(s, p, MustRelease(create.pc.response.reservation));
    MoveKeepsOwners(failed.(tables := tables, born := s.born[newId := create.key]), p,
                    AfterPersist(answer, O.NewOrder(newId, create.request, create.pc.response, now)));
  }

  lemma SessionStepKeepsOwners(s: State, step: Step)
    requires Owned(s) && Enabled(s, step) && (step.Start? || step.Lock? || step.Disconnect? || step.Crash?)
    ensures Owned(Next(s, step))
  {
  }

  lemma CancelReleaseKeepsOwners(s: State, c: Id, answer: Answer)
    requires Owned(s) && c in s.cancels
    ensures Owned(CancelReleaseStep(s, c, answer))
  {
    var ledger := C.ReleaseTx(s.ledger, s.cancels[c].reservation, answer != Aborts).0;
    EndKeepsOwners(s.(ledger := ledger), c, O.Faulted(O.ReleaseFailed));
  }

  lemma EndKeepsOwners(s: State, c: Id, outcome: O.Outcome)
    requires Owned(s) && c in s.cancels
    ensures Owned(DropCancel(s, c)) && Owned(EndCancel(s, c, outcome))
  {
  }

  lemma CancelStepKeepsOwners(s: State, step: Step)
    requires Owned(s) && Enabled(s, step)
    requires step.StartCancel? || step.CancelRelease? || step.CancelCommit? || step.CancelDisconnect? || step.CancelCrash?
    ensures Owned(Next(s, step))
  {
    match step
    case StartCancel(c, order) =>
    case CancelRelease(c, answer) => CancelReleaseKeepsOwners(s, c, answer);
    case CancelCommit(c, at, outId, outId2, answer) =>
      var outcome := O.CancelTx(s.tables, s.cancels[c].order, true, at, outId, outId2, answer != Aborts).1;
      EndKeepsOwners(s, c, Told(outcome, answer));
    case CancelDisconnect(c) =>
    case CancelCrash(c) => EndKeepsOwners(s, c, O.Done);
  }

  lemma StepKeepsOwners(s: State, step: Step)
    requires Owned(s)
    ensures Owned(Next(s, step))
  {
    if Enabled(s, step) {
      if step.Prepare? || step.ReadCart? || step.Reserve? || step.Persist? || step.Compensate? {
        CallStepKeepsOwners(s, step);
      } else if step.Start? || step.Lock? || step.Disconnect? || step.Crash? {
        SessionStepKeepsOwners(s, step);
      } else if !step.WriteCart? && !step.Deliver? {
        CancelStepKeepsOwners(s, step);
      }
    }
  }

  lemma {:induction false} RunKeepsOwners(products: map<Id, C.Product>, steps: seq<Step>)
    ensures Owned(Run(Opening(products), steps))
  {
    if steps != [] {
      RunKeepsOwners(products, steps[..|steps| - 1]);
      StepKeepsOwners(Run(Opening(products), steps[..|steps| - 1]), steps[|steps| - 1]);
    }
  }

  /** In every reachable state a key is locked exactly while one connected call for it is on its way, and that call holds
      the lock; so a call that returned, crashed or lost its session leaves none behind, and the next one can go on. */
  lemma {:induction false} KeysAreLockedExactlyByCallsOnTheirWay(products: map<Id, C.Product>, steps: seq<Step>, key: Id)
    ensures var s := Run(Opening(products), steps);
            && (key in s.keyLocks <==>
                  exists p :: p in s.creates && s.creates[p].key == key && s.creates[p].connected && Holding(s.creates[p].pc))
            && (forall p :: p in s.creates && s.creates[p].key == key && s.creates[p].connected && Holding(s.creates[p].pc) ==>
                              key in s.keyLocks && s.keyLocks[key] == p)
            && (forall p :: key !in s.keyLocks && IsAt(s, p, Waiting) && s.creates[p].key == key && s.creates[p].connected ==>
                              Enabled(s, Lock(p)))
  {
    RunKeepsOwners(products, steps);
    Reachable(products, steps);
  }

  /** Likewise an order's row is locked exactly while one connected cancellation of it is on its way; otherwise delivery
      events and the next cancellation can go on. */
  lemma {:induction false} RowsAreLockedExactlyByCancellations(products: map<Id, C.Product>, steps: seq<Step>, o: Id)
    ensures var s := Run(Opening(products), steps);
            && (o in s.rowLocks <==> exists c :: c in s.cancels && s.cancels[c].order == o && s.cancels[c].connected)
            && (forall c :: c in s.cancels && s.cancels[c].order == o && s.cancels[c].connected ==> o in s.rowLocks && s.rowLocks[o] == c)
  {
    RunKeepsOwners(products, steps);
    Reachable(products, steps);
  }
}
