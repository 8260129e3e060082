/**
 Checkout and cancellation across the order, cart and catalog services.

 Any number of `Create` and `Cancel` calls run at once, together with cart writes and delivery events. Every HTTP call
 and every committed transaction is one step; each may fail, or be applied and lose its answer. A process may crash or
 lose its database session (and with it its advisory lock or its row lock) between any two steps.
 */
module Saga {
  import opened Prelude
  import Catalog
  import Carts
  import CartRuns
  import Delivery
  import Orders

  type Contents = map<Id, seq<map<Id, int>>>

  datatype Result =
    | Returned(order: Orders.Order)
    | KeyReused
    | Refused                // unknown user, cart unreadable, another version, or empty
    | InsufficientStock
    | Failed

  datatype Pc =
    | Waiting
    | Locked
    | Prepared(attempt: Id)
    | HasCart(attempt: Id, cart: Carts.Cart)
    | Reserved(attempt: Id, response: Catalog.Response)
    | MustRelease(reservation: Id)
    | Finished(result: Result)

  /** One `Create` call; `connected` is false once its database session is gone. */
  datatype Create = Create(key: Id, request: Orders.Checkout, connected: bool, pc: Pc)

  /** One `Cancel` call that found a cancellable order and locked its row. */
  datatype Cancel = Cancel(order: Id, reservation: Id, connected: bool, released: bool)

  type Seen = set<(Id, Carts.Cart)>

  /** `contents[user][v]` is what the cart held at version v. History: `seen` are the carts that calls have read,
      `born` is the key an order was created under, `ended` is what a `Cancel` call returned. */
  datatype State = State(
    ledger: Catalog.Ledger, contents: Contents, seen: Seen, tables: Orders.Tables,
    creates: map<Id, Create>, keyLocks: map<Id, Id>,
    cancels: map<Id, Cancel>, rowLocks: map<Id, Id>,
    born: map<Id, Id>, ended: map<Id, Orders.Outcome>)

  datatype Step =
    | WriteCart(user: Id, items: map<Id, int>)
    | Start(p: Id, key: Id, request: Orders.Checkout)
    | Lock(p: Id)
    | Prepare(p: Id, newAttempt: Id, answer: Answer)
    | ReadCart(p: Id, read: Option<Carts.Cart>)
    | Reserve(p: Id, ttl: int, newId: Id, now: int, answer: Answer)
    | Persist(p: Id, newId: Id, now: int, outId: Id, answer: Answer)
    | Compensate(p: Id, commits: bool)
    | Disconnect(p: Id)
    | Crash(p: Id)
    | StartCancel(c: Id, order: Id)
    | CancelRelease(c: Id, answer: Answer)
    | CancelCommit(c: Id, at: int, outId: Id, outId2: Id, answer: Answer)
    | CancelDisconnect(c: Id)
    | CancelCrash(c: Id)
    | Deliver(event: Delivery.Event, at: int, outId: Id, outId2: Id, commits: bool)

  function ContentsOf(contents: Contents, user: Id): (s: seq<map<Id, int>>)
  {
    if user in contents then contents[user] else [map[]]
  }

  /** The cart's product ids are canonical UUID texts, so text order is row order. */
  function LinesOf(items: seq<Carts.Item>): (lines: seq<Catalog.Line>)
    ensures |lines| == |items|
    ensures forall i :: 0 <= i < |items| ==> lines[i] == Catalog.Line(items[i].product, items[i].product, items[i].quantity)
  {
    seq(|items|, i requires 0 <= i < |items| => Catalog.Line(items[i].product, items[i].product, items[i].quantity))
  }

  predicate HasAttempt(pc: Pc) {
    pc.Prepared? || pc.HasCart? || pc.Reserved?
  }

  // ------------------------------------------------------------------ Moving one process

  function Unlocked(locks: map<Id, Id>, name: Id, held: bool): map<Id, Id> {
    if held then locks - {name} else locks
  }

  /** One call moves on; when it returns, its advisory lock is freed. */
  function Move(s: State, p: Id, pc: Pc): State
    requires p in s.creates
  {
    s.(creates := s.creates[p := s.creates[p].(pc := pc)],
       keyLocks := Unlocked(s.keyLocks, s.creates[p].key, pc.Finished? && s.creates[p].connected))
  }

  function DropCancel(s: State, c: Id): State
    requires c in s.cancels
  {
    s.(cancels := s.cancels - {c}, rowLocks := Unlocked(s.rowLocks, s.cancels[c].order, s.cancels[c].connected))
  }

  function EndCancel(s: State, c: Id, outcome: Orders.Outcome): State
    requires c in s.cancels
  {
    DropCancel(s, c).(ended := s.ended[c := outcome])
  }

  // ------------------------------------------------------------------ Steps

  ghost predicate Fresh(s: State, attempt: Id) {
    && (forall k :: k in s.tables.keys ==> s.tables.keys[k].attempt != attempt)
    && (forall r :: r in s.ledger.reservations ==> s.ledger.reservations[r].attempt != attempt)
  }

  predicate IsAt(s: State, p: Id, pc: Pc) {
    p in s.creates && s.creates[p].pc == pc
  }

  ghost predicate Enabled(s: State, step: Step) {
    match step
    case WriteCart(user, items) => true
    case Start(p, key, request) => p !in s.creates
    case Lock(p) => IsAt(s, p, Waiting) && s.creates[p].connected && s.creates[p].key !in s.keyLocks
    case Prepare(p, newAttempt, answer) => IsAt(s, p, Locked) && s.creates[p].connected && Fresh(s, newAttempt)
    case ReadCart(p, read) =>
      && p in s.creates && s.creates[p].pc.Prepared?
      && (read.Some? ==> CartRuns.NotOlder(ContentsOf(s.contents, s.creates[p].request.user), read.value))
    case Reserve(p, ttl, newId, now, answer) => p in s.creates && s.creates[p].pc.HasCart?
    case Persist(p, newId, now, outId, answer) => p in s.creates && s.creates[p].pc.Reserved?
    case Compensate(p, commits) => p in s.creates && s.creates[p].pc.MustRelease?
    case Disconnect(p) => p in s.creates && s.creates[p].connected
    case Crash(p) => p in s.creates && !s.creates[p].pc.Finished?
    case StartCancel(c, order) =>
      && c !in s.cancels && order in s.tables.orders && order !in s.rowLocks
      && Orders.CanCancel(s.tables.orders[order].status)
    case CancelRelease(c, answer) => c in s.cancels && !s.cancels[c].released
    case CancelCommit(c, at, outId, outId2, answer) => c in s.cancels && s.cancels[c].released && s.cancels[c].connected
    case CancelDisconnect(c) => c in s.cancels && s.cancels[c].connected
    case CancelCrash(c) => c in s.cancels
    case Deliver(e, at, outId, outId2, commits) => e.order !in s.rowLocks
  }

  function AfterPrepare(answer: Answer, prepared: Orders.Prepared): Pc {
    if answer != Commits then Finished(Failed)
    else
      match prepared
      case KeyReused => Finished(KeyReused)
      case Replay(order) => Finished(Returned(order))
      case Proceed(attempt) => Prepared(attempt)
  }

  ghost function PrepareStep(s: State, p: Id, newAttempt: Id, answer: Answer): State
    requires p in s.creates
  {
    var (tables, prepared) := Orders.PrepareTx(s.tables, s.creates[p].key, s.creates[p].request, newAttempt);
    Move(s.(tables := if answer == Aborts then s.tables else tables), p, AfterPrepare(answer, prepared))
  }

  function AfterCart(request: Orders.Checkout, attempt: Id, read: Option<Carts.Cart>): Pc {
    if read.None? || read.value.version != request.cartVersion || read.value.items == [] then Finished(Refused)
    else HasCart(attempt, read.value)
  }

  function Noted(s: State, user: Id, read: Option<Carts.Cart>): State {
    if read.None? then s else s.(seen := s.seen + {(user, read.value)})
  }

  function AfterReserve(attempt: Id, answer: Answer, reply: Catalog.Reply): Pc {
    if answer != Commits || reply.Faulted? then Finished(Failed)
    else if reply.response.status == Catalog.Failed then Finished(InsufficientStock)
    else Reserved(attempt, reply.response)
  }

  /** The HTTP call to the catalog: validation, then the transaction. */
  ghost function ReserveOver(ledger: Catalog.Ledger, pc: Pc, ttl: int, newId: Id, now: int, answer: Answer): (Catalog.Ledger, Pc)
    requires pc.HasCart?
  {
    var request := Catalog.Request(pc.attempt, LinesOf(pc.cart.items), ttl);
    if !Catalog.Valid(request) then (ledger, Finished(Failed))
    else
      var (after, reply) := Catalog.ReserveTx(ledger, request, newId, now, answer != Aborts);
      (after, AfterReserve(pc.attempt, answer, reply))
  }

  ghost function ReserveStep(s: State, p: Id, ttl: int, newId: Id, now: int, answer: Answer): State
    requires p in s.creates && s.creates[p].pc.HasCart?
  {
    var (ledger, pc) := ReserveOver(s.ledger, s.creates[p].pc, ttl, newId, now, answer);
    Move(s.(ledger := ledger), p, pc)
  }

  function AfterPersist(answer: Answer, order: Orders.Order): Pc {
    if answer == Commits then Finished(Returned(order)) else MustRelease(order.reservation)
  }

  /** Without its session, or when the transaction fails, the call must compensate. */
  ghost function PersistStep(s: State, p: Id, newId: Id, now: int, outId: Id, answer: Answer): State
    requires p in s.creates && s.creates[p].pc.Reserved?
  {
    var create := s.creates[p];
    var failed := Move(s, p, MustRelease(create.pc.response.reservation));
    var (tables, outcome) := Orders.PersistTx(s.tables, create.key, create.request, create.pc.response, newId, now, outId, answer != Aborts);
    if !create.connected || !outcome.Done? then failed
    else
      Move(failed.(tables := tables, born := s.born[newId := create.key]), p,
           AfterPersist(answer, Orders.NewOrder(newId, create.request, create.pc.response, now)))
  }

  ghost function CancelReleaseStep(s: State, c: Id, answer: Answer): State
    requires c in s.cancels
  {
    var (ledger, fault) := Catalog.ReleaseTx(s.ledger, s.cancels[c].reservation, answer != Aborts);
    var after := s.(ledger := ledger);
    if answer == Commits && fault.None? then after.(cancels := s.cancels[c := s.cancels[c].(released := true)])
    else EndCancel(after, c, Orders.Faulted(Orders.ReleaseFailed))
  }

  /** What the caller of a transaction is told when the answer to its commit may be lost. */
  function Told(outcome: Orders.Outcome, answer: Answer): Orders.Outcome {
    if outcome.Done? && answer == CommitUnknown then Orders.Faulted(Orders.CommitFailed) else outcome
  }

  ghost function Next(s: State, step: Step): State {
    if !Enabled(s, step) then s
    else
      match step
      case WriteCart(user, items) => s.(contents := s.contents[user := ContentsOf(s.contents, user) + [items]])
      case Start(p, key, request) => s.(creates := s.creates[p := Create(key, request, true, Waiting)])
      case Lock(p) => Move(s, p, Locked).(keyLocks := s.keyLocks[s.creates[p].key := p])
      case Prepare(p, newAttempt, answer) => PrepareStep(s, p, newAttempt, answer)
      case ReadCart(p, read) => Move(Noted(s, s.creates[p].request.user, read), p, AfterCart(s.creates[p].request, s.creates[p].pc.attempt, read))
      case Reserve(p, ttl, newId, now, answer) => ReserveStep(s, p, ttl, newId, now, answer)
      case Persist(p, newId, now, outId, answer) => PersistStep(s, p, newId, now, outId, answer)
      case Compensate(p, commits) =>
        Move(s.(ledger := Catalog.ReleaseTx(s.ledger, s.creates[p].pc.reservation, commits).0), p, Finished(Failed))
      case Disconnect(p) =>
        s.(creates := s.creates[p := s.creates[p].(connected := false)],
           keyLocks := Unlocked(s.keyLocks, s.creates[p].key, s.creates[p].pc != Waiting && !s.creates[p].pc.Finished?))
      case Crash(p) =>
        s.(creates := s.creates - {p},
           keyLocks := Unlocked(s.keyLocks, s.creates[p].key, s.creates[p].connected && s.creates[p].pc != Waiting))
      case StartCancel(c, order) =>
        s.(cancels := s.cancels[c := Cancel(order, s.tables.orders[order].reservation, true, false)],
           rowLocks := s.rowLocks[order := c])
      case CancelRelease(c, answer) => CancelReleaseStep(s, c, answer)
      case CancelCommit(c, at, outId, outId2, answer) =>
        var (tables, outcome) := Orders.CancelTx(s.tables, s.cancels[c].order, true, at, outId, outId2, answer != Aborts);
        EndCancel(s, c, Told(outcome, answer)).(tables := tables)
      case CancelDisconnect(c) =>
        s.(cancels := s.cancels[c := s.cancels[c].(connected := false)], rowLocks := s.rowLocks - {s.cancels[c].order})
      case CancelCrash(c) => DropCancel(s, c)
      case Deliver(e, at, outId, outId2, commits) => s.(tables := Orders.HandleTx(s.tables, e, at, outId, outId2, commits).0)
  }

  ghost function Run(s: State, steps: seq<Step>): State {
    if steps == [] then s else Next(Run(s, steps[..|steps| - 1]), steps[|steps| - 1])
  }

  /** Stock on the shelf, no order, no call. */
  function Opening(products: map<Id, Catalog.Product>): State {
    State(Catalog.Ledger(products, map[], map[], []), map[], {}, Orders.Tables(map[], map[], [], {}, []),
          map[], map[], map[], map[], map[], map[])
  }
}
