/**
 From an outbox row to its effect: relay, log, a worker with bounded retries, dead letters, replay.

 The topic's log is kept in arrival order; a record's key decides its partition, and the offsets of a partition are
 the places of its records. Any number of worker instances may hold a partition at once (rebalances, zombies); each
 starts from the committed offset and takes that partition's records in order. Produce, handler transaction, DLQ
 produce and offset commit are separate steps, each of which may fail or lose its answer, and a crash is a missing
 next step followed by Start.
 */
module Pipeline {
  import opened Prelude
  import opened Outbox
  import opened Notifications
  import D = DeadLetters
  import O = OutboxRuns

  const TOPIC := "freshflow.order.events.v1"

  /** JSON decoding, as far as this worker can tell: any function will do. */
  type Decoder = Bytes -> Option<Envelope>

  /** How values decode and which partition a key goes to. */
  datatype Setup = Setup(decode: Decoder, partition: Bytes -> nat)

  datatype Entry = Entry(key: Bytes, value: Bytes)

  /** The partition held, the place it is to go on from, and how often the next handler call has failed in a row. */
  datatype Worker = Worker(partition: nat, position: nat, failures: nat)

  /** `processed` is history: offset to the number of the handler call that succeeded. */
  datatype State = State(
    out: O.State, log: seq<Entry>, db: Tables, dlq: seq<D.Posted>,
    processed: map<nat, nat>, workers: map<Id, Worker>, committed: map<nat, nat>)

  datatype Step =
    | Insert(id: Id, row: Row)
    | Batch(sel: seq<Id>, tries: seq<Try>, commits: bool)
    | Start(worker: Id, partition: nat)
    | Attempt(worker: Id, answer: Answer)
    | Bury(worker: Id, publish: D.Publish, reason: string, failedAt: int)
    | Commit(worker: Id)
    | Replay(letter: nat)

  const EMPTY := State(O.EMPTY, [], Tables({}, []), [], map[], map[], map[])

  function EntryOf(r: Record): Entry {
    Entry(r.key, r.value)
  }

  function Entries(rs: seq<Record>): (es: seq<Entry>)
    ensures |es| == |rs| && forall i :: 0 <= i < |rs| ==> es[i] == EntryOf(rs[i])
  {
    seq(|rs|, i requires 0 <= i < |rs| => EntryOf(rs[i]))
  }

  function MessageAt(u: Setup, log: seq<Entry>, k: nat): D.Message
    requires k < |log|
  {
    D.Message(TOPIC, u.partition(log[k].key), k, log[k].key, log[k].value)
  }

  function CommittedOf(committed: map<nat, nat>, partition: nat): nat {
    if partition in committed then committed[partition] else 0
  }

  /** The place of the partition's next record, or the end of the log. */
  function Upcoming(u: Setup, log: seq<Entry>, partition: nat, from: nat): (k: nat)
    requires from <= |log|
    ensures from <= k <= |log|
    ensures forall i :: from <= i < k ==> u.partition(log[i].key) != partition
    ensures k < |log| ==> u.partition(log[k].key) == partition
    decreases |log| - from
  {
    if from == |log| || u.partition(log[from].key) == partition then from else Upcoming(u, log, partition, from + 1)
  }

  predicate Fetched(u: Setup, s: State, w: Id) {
    && w in s.workers && s.workers[w].position <= |s.log|
    && Upcoming(u, s.log, s.workers[w].partition, s.workers[w].position) < |s.log|
  }

  function Place(u: Setup, s: State, w: Id): (k: nat)
    requires Fetched(u, s, w)
    ensures k < |s.log|
  {
    Upcoming(u, s.log, s.workers[w].partition, s.workers[w].position)
  }

  /** A domain transaction writes an envelope that carries the row's own id and names its aggregate. */
  ghost predicate Wellformed(decode: Decoder, id: Id, row: Row) {
    var e := decode(row.envelope);
    e.Some? && e.value.eventId == Some(id) && Complete(e.value)
  }

  ghost predicate Enabled(u: Setup, s: State, step: Step) {
    match step
    case Insert(id, row) => O.Insertable(s.out.rows, id, row) && Wellformed(u.decode, id, row)
    case Batch(sel, tries, commits) => Selectable(s.out.rows, sel) && |tries| == |sel|
    case Start(w, q) => true
    case Attempt(w, answer) => Fetched(u, s, w) && s.workers[w].failures < D.MAX_ATTEMPTS
    case Bury(w, publish, reason, failedAt) => Fetched(u, s, w) && s.workers[w].failures == D.MAX_ATTEMPTS
    case Commit(w) => w in s.workers
    case Replay(k) => k < |s.dlq| && D.DecodeLetter(s.dlq[k].letter).Restored? && D.DecodeLetter(s.dlq[k].letter).topic == TOPIC
  }

  ghost function Produced(s: State, sel: seq<Id>, tries: seq<Try>, commits: bool): State
    requires Selectable(s.out.rows, sel) && |tries| == |sel|
  {
    s.(out := O.Next(s.out, O.Batch(sel, tries, commits)),
       log := s.log + Entries(Records(s.out.rows, sel[..Reached(tries)])))
  }

  /** The worker goes on after place `k`. */
  function Passed(s: State, w: Id, k: nat): map<Id, Worker>
    requires w in s.workers
  {
    s.workers[w := Worker(s.workers[w].partition, k + 1, 0)]
  }

  ghost function Attempted(u: Setup, s: State, w: Id, answer: Answer): State
    requires Fetched(u, s, w)
  {
    var worker, k := s.workers[w], Place(u, s, w);
    var decoded := u.decode(s.log[k].value);
    var after := s.(db := HandleTx(s.db, decoded, answer));
    if HandleOk(decoded, answer) then
      after.(processed := s.processed[k := worker.failures + 1], workers := Passed(s, w, k))
    else after.(workers := s.workers[w := worker.(failures := worker.failures + 1)])
  }

  ghost function Buried(u: Setup, s: State, w: Id, publish: D.Publish, reason: string, failedAt: int): State
    requires Fetched(u, s, w)
  {
    var k := Place(u, s, w);
    var letters := s.dlq + [D.Post(MessageAt(u, s.log, k), "notification-worker", reason, failedAt)];
    match publish
    case NotSent => s
    case AckLost => s.(dlq := letters)
    case Acked => s.(dlq := letters, workers := Passed(s, w, k))
  }

  ghost function Next(u: Setup, s: State, step: Step): State {
    if !Enabled(u, s, step) then s
    else
      match step
      case Insert(id, row) => s.(out := O.Next(s.out, O.Insert(id, row)))
      case Batch(sel, tries, commits) => Produced(s, sel, tries, commits)
      case Start(w, q) => s.(workers := s.workers[w := Worker(q, CommittedOf(s.committed, q), 0)])
      case Attempt(w, answer) => Attempted(u, s, w, answer)
      case Bury(w, publish, reason, failedAt) => Buried(u, s, w, publish, reason, failedAt)
      case Commit(w) => s.(committed := s.committed[s.workers[w].partition := s.workers[w].position])
      case Replay(k) => s.(log := s.log + [Entry(s.dlq[k].key, D.DecodeLetter(s.dlq[k].letter).value)])
  }

  /** The steps taken one after the other. */
  ghost function Fold<S, A>(s: S, steps: seq<A>, next: (S, A) -> S): S {
    if steps == [] then s else next(Fold(s, steps[..|steps| - 1], next), steps[|steps| - 1])
  }

  ghost function Stepper(u: Setup): (State, Step) -> State {
    (s, step) => Next(u, s, step)
  }

  ghost function From(u: Setup, s: State, steps: seq<Step>): State {
    Fold(s, steps, Stepper(u))
  }

  ghost function Run(u: Setup, steps: seq<Step>): State {
    From(u, EMPTY, steps)
  }

  // ------------------------------------------------------------------ Invariants

  ghost predicate Known(decode: Decoder, rows: map<Id, Row>) {
    forall id :: id in rows ==> Wellformed(decode, id, rows[id])
  }

  ghost predicate FromRow(rows: map<Id, Row>, e: Entry) {
    exists id :: id in rows && rows[id].key == e.key && rows[id].envelope == e.value
  }

  ghost predicate Sourced(rows: map<Id, Row>, log: seq<Entry>) {
    forall k :: 0 <= k < |log| ==> FromRow(rows, log[k])
  }

  ghost predicate Carried(records: seq<Record>, log: seq<Entry>) {
    forall i :: 0 <= i < |records| ==> EntryOf(records[i]) in log
  }

  /** One log row per inbox row, each telling of a committed outbox row. */
  ghost predicate Noted(decode: Decoder, rows: map<Id, Row>, db: Tables) {
    && (forall i :: 0 <= i < |db.notes| ==> Tells(decode, rows, db.notes[i]) && db.notes[i].eventId in db.inbox)
    && (forall i, j :: 0 <= i < j < |db.notes| ==> db.notes[i].eventId != db.notes[j].eventId)
    && (forall id :: id in db.inbox ==> Booked(db, id))
  }

  ghost predicate Tells(decode: Decoder, rows: map<Id, Row>, n: Note) {
    && n.eventId in rows
    && var e := decode(rows[n.eventId].envelope); e.Some? && Supported(e.value) && n == NoteFor(e.value)
  }

  /** A processed offset had its effect, at the latest at the third call. */
  ghost predicate Effective(decode: Decoder, log: seq<Entry>, inbox: set<Id>, processed: map<nat, nat>) {
    forall k :: k in processed ==> k < |log| && 1 <= processed[k] <= D.MAX_ATTEMPTS && Done(decode, log[k], inbox)
  }

  ghost predicate Done(decode: Decoder, e: Entry, inbox: set<Id>) {
    var d := decode(e.value);
    d.Some? && Complete(d.value) && (Supported(d.value) ==> d.value.eventId.value in inbox)
  }

  ghost predicate LetterOf(u: Setup, log: seq<Entry>, p: D.Posted, k: nat) {
    && k < |log| && p.letter.sourceOffset == k
    && p == D.Post(MessageAt(u, log, k), p.letter.consumer, p.letter.reason, p.letter.failedAt)
  }

  ghost predicate Lettered(u: Setup, log: seq<Entry>, dlq: seq<D.Posted>) {
    forall i :: 0 <= i < |dlq| ==> LetterOf(u, log, dlq[i], dlq[i].letter.sourceOffset)
  }

  ghost predicate Settled(processed: map<nat, nat>, dlq: seq<D.Posted>, k: nat) {
    k in processed || exists i :: 0 <= i < |dlq| && dlq[i].letter.sourceOffset == k
  }

  /** Every record of the partition before place `n` is settled. */
  ghost predicate SettledBelow(u: Setup, log: seq<Entry>, processed: map<nat, nat>, dlq: seq<D.Posted>, q: nat, n: nat) {
    n <= |log| && forall k :: 0 <= k < n && u.partition(log[k].key) == q ==> Settled(processed, dlq, k)
  }

  ghost predicate Owned(u: Setup, log: seq<Entry>, processed: map<nat, nat>, dlq: seq<D.Posted>, workers: map<Id, Worker>, committed: map<nat, nat>) {
    && (forall q :: q in committed ==> SettledBelow(u, log, processed, dlq, q, committed[q]))
    && (forall w :: w in workers ==>
                      && workers[w].failures <= D.MAX_ATTEMPTS
                      && SettledBelow(u, log, processed, dlq, workers[w].partition, workers[w].position))
  }

  ghost predicate Inv(u: Setup, s: State) {
    && O.Relayed(s.out) && Known(u.decode, s.out.rows) && Sourced(s.out.rows, s.log) && Carried(s.out.log, s.log)
    && Noted(u.decode, s.out.rows, s.db) && Effective(u.decode, s.log, s.db.inbox, s.processed) && Lettered(u, s.log, s.dlq)
    && Owned(u, s.log, s.processed, s.dlq, s.workers, s.committed)
  }

  // ------------------------------------------------------------------ Rows and log

  /** The rows keep their contents; new ones may come. */
  ghost predicate Extends(rows: map<Id, Row>, after: map<Id, Row>) {
    forall id :: id in rows ==> id in after && after[id].key == rows[id].key && after[id].envelope == rows[id].envelope
  }

  lemma RowsMayGrow(decode: Decoder, rows: map<Id, Row>, after: map<Id, Row>, log: seq<Entry>, db: Tables)
    requires Extends(rows, after) && Sourced(rows, log) && Noted(decode, rows, db)
    ensures Sourced(after, log) && Noted(decode, after, db)
  {
    forall k | 0 <= k < |log| ensures FromRow(after, log[k]) {
      assert FromRow(rows, log[k]);
      var id :| id in rows && rows[id].key == log[k].key && rows[id].envelope == log[k].value;
      assert id in after;
    }
    forall i | 0 <= i < |db.notes| ensures Tells(decode, after, db.notes[i]) {
      assert Tells(decode, rows, db.notes[i]);
    }
  }

  lemma OwnedInLongerLog(u: Setup, s: State, more: seq<Entry>)
    requires Owned(u, s.log, s.processed, s.dlq, s.workers, s.committed)
    ensures Owned(u, s.log + more, s.processed, s.dlq, s.workers, s.committed)
  {
    forall q | q in s.committed ensures SettledBelow(u, s.log + more, s.processed, s.dlq, q, s.committed[q]) {
      assert SettledBelow(u, s.log, s.processed, s.dlq, q, s.committed[q]);
    }
    forall w | w in s.workers ensures SettledBelow(u, s.log + more, s.processed, s.dlq, s.workers[w].partition, s.workers[w].position) {
      assert SettledBelow(u, s.log, s.processed, s.dlq, s.workers[w].partition, s.workers[w].position);
    }
  }

  lemma LogMayGrow(u: Setup, s: State, more: seq<Entry>)
    requires Inv(u, s)
    ensures Effective(u.decode, s.log + more, s.db.inbox, s.processed) && Lettered(u, s.log + more, s.dlq)
    ensures Carried(s.out.log, s.log + more)
    ensures Owned(u, s.log + more, s.processed, s.dlq, s.workers, s.committed)
  {
    OwnedInLongerLog(u, s, more);
    forall i | 0 <= i < |s.dlq| ensures LetterOf(u, s.log + more, s.dlq[i], s.dlq[i].letter.sourceOffset) {
      assert LetterOf(u, s.log, s.dlq[i], s.dlq[i].letter.sourceOffset);
    }
  }

  lemma InsertKeeps(u: Setup, s: State, id: Id, row: Row)
    requires Inv(u, s) && Enabled(u, s, Insert(id, row))
    ensures Inv(u, Next(u, s, Insert(id, row)))
  {
    O.InsertIsRelayed(s.out, id, row);
    RowsMayGrow(u.decode, s.out.rows, s.out.rows[id := row], s.log, s.db);
  }

  lemma SelectedAreSourced(rows: map<Id, Row>, ids: seq<Id>)
    requires forall i :: 0 <= i < |ids| ==> ids[i] in rows
    ensures Sourced(rows, Entries(Records(rows, ids)))
  {
  }

  lemma CarriedBoth(r1: seq<Record>, r2: seq<Record>, log: seq<Entry>)
    requires Carried(r1, log)
    ensures Carried(r1 + r2, log + Entries(r2))
  {
    forall i | 0 <= i < |r1 + r2| ensures EntryOf((r1 + r2)[i]) in log + Entries(r2) {
      if i >= |r1| {
        assert Entries(r2)[i - |r1|] == EntryOf(r2[i - |r1|]);
      }
    }
  }

  lemma BatchKeeps(u: Setup, s: State, sel: seq<Id>, tries: seq<Try>, commits: bool)
    requires Inv(u, s) && Enabled(u, s, Batch(sel, tries, commits))
    ensures Inv(u, Next(u, s, Batch(sel, tries, commits)))
  {
    var records := Records(s.out.rows, sel[..Reached(tries)]);
    var after := BatchRows(s.out.rows, sel, tries, commits);
    O.BatchIsRelayed(s.out, sel, tries, commits);
    O.BatchKeepsContents(s.out.rows, sel, tries, commits);
    BatchExtends(s.out.rows, after);
    LogMayGrow(u, s, Entries(records));
    CarriedBoth(s.out.log, records, s.log);
    SelectedAreSourced(s.out.rows, sel[..Reached(tries)]);
    RowsMayGrow(u.decode, s.out.rows, after, s.log + Entries(records), s.db);
    KnownStays(u.decode, s.out.rows, after);
  }

  lemma BatchExtends(rows: map<Id, Row>, after: map<Id, Row>)
    requires after.Keys == rows.Keys
    requires forall e :: e in rows ==> after[e].(published := rows[e].published, attempts := rows[e].attempts) == rows[e]
    ensures Extends(rows, after)
  {
  }

  lemma KnownStays(decode: Decoder, rows: map<Id, Row>, after: map<Id, Row>)
    requires Known(decode, rows) && Extends(rows, after) && after.Keys == rows.Keys
    ensures Known(decode, after)
  {
  }

  lemma ReplayKeeps(u: Setup, s: State, k: nat)
    requires Inv(u, s) && Enabled(u, s, Replay(k))
    ensures Inv(u, Next(u, s, Replay(k)))
  {
    var p := s.dlq[k];
    var offset := p.letter.sourceOffset;
    assert LetterOf(u, s.log, p, offset);
    D.DeadLettersAreLossless(MessageAt(u, s.log, offset), p.letter.consumer, p.letter.reason, p.letter.failedAt);
    TopicIsPlain();
    var entry := Entry(p.key, D.DecodeLetter(p.letter).value);
    assert entry == s.log[offset];
    LogMayGrow(u, s, [entry]);
  }

  lemma TopicIsPlain()
    ensures !D.IsBlank(TOPIC) && !D.IsDlq(TOPIC)
  {
    assert !D.IsSpace(TOPIC[0]);
    assert TOPIC[|TOPIC| - 1] == '1';
  }

  // ------------------------------------------------------------------ The worker

  lemma HandleIsNoted(u: Setup, s: State, k: nat, answer: Answer)
    requires Inv(u, s) && k < |s.log|
    ensures Noted(u.decode, s.out.rows, HandleTx(s.db, u.decode(s.log[k].value), answer))
  {
    var d := u.decode(s.log[k].value);
    var after := HandleTx(s.db, d, answer);
    if after != s.db {
      assert FromRow(s.out.rows, s.log[k]);
      var id :| id in s.out.rows && s.out.rows[id].key == s.log[k].key && s.out.rows[id].envelope == s.log[k].value;
      assert Wellformed(u.decode, id, s.out.rows[id]);
      NoteIsNew(u.decode, s.out.rows, s.db, d.value);
    }
  }

  lemma NoteIsNew(decode: Decoder, rows: map<Id, Row>, db: Tables, e: Envelope)
    requires Noted(decode, rows, db) && Supported(e) && e.eventId.value !in db.inbox
    requires Tells(decode, rows, NoteFor(e))
    ensures Noted(decode, rows, Tables(db.inbox + {e.eventId.value}, db.notes + [NoteFor(e)]))
  {
    var after := Tables(db.inbox + {e.eventId.value}, db.notes + [NoteFor(e)]);
    forall id | id in after.inbox ensures Booked(after, id) {
      if id in db.inbox {
        var i :| 0 <= i < |db.notes| && db.notes[i].eventId == id;
        assert after.notes[i].eventId == id;
      } else {
        assert after.notes[|db.notes|].eventId == id;
      }
    }
  }

  lemma HandleIsEffective(u: Setup, s: State, k: nat, answer: Answer, call: nat)
    requires Inv(u, s) && k < |s.log| && 1 <= call <= D.MAX_ATTEMPTS
    ensures var d := u.decode(s.log[k].value);
            && var inbox := HandleTx(s.db, d, answer).inbox;
            && Effective(u.decode, s.log, inbox, s.processed)
            && (HandleOk(d, answer) ==> Effective(u.decode, s.log, inbox, s.processed[k := call]))
  {
    var inbox := HandleTx(s.db, u.decode(s.log[k].value), answer).inbox;
    forall i | i in s.processed ensures Done(u.decode, s.log[i], inbox) {
      assert Done(u.decode, s.log[i], s.db.inbox);
    }
  }

  lemma SettledStays(u: Setup, log: seq<Entry>, processed: map<nat, nat>, dlq: seq<D.Posted>, after: map<nat, nat>, letters: seq<D.Posted>, q: nat, n: nat)
    requires SettledBelow(u, log, processed, dlq, q, n)
    requires (forall k :: k in processed ==> k in after) && dlq <= letters
    ensures SettledBelow(u, log, after, letters, q, n)
  {
    forall k | 0 <= k < n && u.partition(log[k].key) == q ensures Settled(after, letters, k) {
      assert Settled(processed, dlq, k);
      if k !in processed {
        var i :| 0 <= i < |dlq| && dlq[i].letter.sourceOffset == k;
        assert letters[i] == dlq[i];
      }
    }
  }

  lemma OwnedGrows(u: Setup, s: State, after: map<nat, nat>, letters: seq<D.Posted>)
    requires Owned(u, s.log, s.processed, s.dlq, s.workers, s.committed)
    requires (forall k :: k in s.processed ==> k in after) && s.dlq <= letters
    ensures Owned(u, s.log, after, letters, s.workers, s.committed)
  {
    forall q | q in s.committed ensures SettledBelow(u, s.log, after, letters, q, s.committed[q]) {
      SettledStays(u, s.log, s.processed, s.dlq, after, letters, q, s.committed[q]);
    }
    forall w | w in s.workers ensures SettledBelow(u, s.log, after, letters, s.workers[w].partition, s.workers[w].position) {
      SettledStays(u, s.log, s.processed, s.dlq, after, letters, s.workers[w].partition, s.workers[w].position);
    }
  }

  /** A worker may pass its next record once that is settled: the records between are not of its partition. */
  lemma PassedIsOwned(u: Setup, s: State, w: Id, after: map<nat, nat>, letters: seq<D.Posted>)
    requires Fetched(u, s, w) && Owned(u, s.log, after, letters, s.workers, s.committed) && Settled(after, letters, Place(u, s, w))
    ensures Owned(u, s.log, after, letters, Passed(s, w, Place(u, s, w)), s.committed)
  {
    var k := Place(u, s, w);
    assert SettledBelow(u, s.log, after, letters, s.workers[w].partition, s.workers[w].position);
    assert SettledBelow(u, s.log, after, letters, s.workers[w].partition, k + 1);
  }

  lemma AttemptKeeps(u: Setup, s: State, w: Id, answer: Answer)
    requires Inv(u, s) && Enabled(u, s, Attempt(w, answer))
    ensures Inv(u, Next(u, s, Attempt(w, answer)))
  {
    HandleIsNoted(u, s, Place(u, s, w), answer);
    HandleIsEffective(u, s, Place(u, s, w), answer, s.workers[w].failures + 1);
    AttemptIsOwned(u, s, w, answer);
  }

  lemma AttemptIsOwned(u: Setup, s: State, w: Id, answer: Answer)
    requires Owned(u, s.log, s.processed, s.dlq, s.workers, s.committed) && Enabled(u, s, Attempt(w, answer))
    ensures var t := Attempted(u, s, w, answer); Owned(u, s.log, t.processed, s.dlq, t.workers, s.committed)
  {
    var t := Attempted(u, s, w, answer);
    OwnedGrows(u, s, t.processed, s.dlq);
    if HandleOk(u.decode(s.log[Place(u, s, w)].value), answer) {
      PassedIsOwned(u, s, w, t.processed, s.dlq);
    }
  }

  lemma BuryKeeps(u: Setup, s: State, w: Id, publish: D.Publish, reason: string, failedAt: int)
    requires Inv(u, s) && Enabled(u, s, Bury(w, publish, reason, failedAt))
    ensures Inv(u, Next(u, s, Bury(w, publish, reason, failedAt)))
  {
    var k := Place(u, s, w);
    var p := D.Post(MessageAt(u, s.log, k), "notification-worker", reason, failedAt);
    var letters := s.dlq + [p];
    assert LetterOf(u, s.log, p, k);
    assert letters[|s.dlq|].letter.sourceOffset == k;
    OwnedGrows(u, s, s.processed, letters);
    PassedIsOwned(u, s, w, s.processed, letters);
  }

  lemma StepKeeps(u: Setup, s: State, step: Step)
    requires Inv(u, s)
    ensures Inv(u, Next(u, s, step))
  {
    if Enabled(u, s, step) {
      match step
      case Insert(id, row) => InsertKeeps(u, s, id, row);
      case Batch(sel, tries, commits) => BatchKeeps(u, s, sel, tries, commits);
      case Attempt(w, answer) => AttemptKeeps(u, s, w, answer);
      case Bury(w, publish, reason, failedAt) => BuryKeeps(u, s, w, publish, reason, failedAt);
      case Replay(k) => ReplayKeeps(u, s, k);
      case Start(w, q) =>
      case Commit(w) =>
    }
  }

  lemma {:induction false} RunKeeps(u: Setup, steps: seq<Step>)
    ensures Inv(u, Run(u, steps))
  {
    if steps != [] {
      RunKeeps(u, steps[..|steps| - 1]);
      StepKeeps(u, Run(u, steps[..|steps| - 1]), steps[|steps| - 1]);
    }
  }

  // ------------------------------------------------------------------ Effectively once

  ghost predicate OneNote(db: Tables, n: Note) {
    exists i :: 0 <= i < |db.notes| && db.notes[i] == n
                && forall j :: 0 <= j < |db.notes| && db.notes[j].eventId == n.eventId ==> j == i
  }

  /** No event has two notifications, and none has one without a committed outbox row that says the same. */
  lemma {:induction false} AtMostOnce(u: Setup, steps: seq<Step>, i: nat, j: nat)
    requires i < |Run(u, steps).db.notes| && j < |Run(u, steps).db.notes|
    ensures var s := Run(u, steps);
            && (s.db.notes[i].eventId == s.db.notes[j].eventId ==> i == j)
            && Tells(u.decode, s.out.rows, s.db.notes[i])
  {
    RunKeeps(u, steps);
  }

  /** A record whose handling ended as processed carries the envelope of a committed row; when its type is
      supported, that event has exactly one notification, and it says what the envelope says. */
  lemma {:induction false} ExactlyOnceWhenProcessed(u: Setup, steps: seq<Step>, k: nat)
    requires k in Run(u, steps).processed
    ensures var s := Run(u, steps);
            && k < |s.log| && FromRow(s.out.rows, s.log[k]) && 1 <= s.processed[k] <= D.MAX_ATTEMPTS
            && var e := u.decode(s.log[k].value);
            && e.Some? && Complete(e.value) && (Supported(e.value) ==> OneNote(s.db, NoteFor(e.value)))
  {
    RunKeeps(u, steps);
    var s := Run(u, steps);
    var e := u.decode(s.log[k].value);
    assert Done(u.decode, s.log[k], s.db.inbox);
    if Supported(e.value) {
      NotedOnce(u, s, k);
    }
  }

  lemma NotedOnce(u: Setup, s: State, k: nat)
    requires Inv(u, s) && k < |s.log| && u.decode(s.log[k].value).Some? && Supported(u.decode(s.log[k].value).value)
    requires u.decode(s.log[k].value).value.eventId.value in s.db.inbox
    ensures OneNote(s.db, NoteFor(u.decode(s.log[k].value).value))
  {
    var e := u.decode(s.log[k].value).value;
    assert FromRow(s.out.rows, s.log[k]);
    var id :| id in s.out.rows && s.out.rows[id].key == s.log[k].key && s.out.rows[id].envelope == s.log[k].value;
    assert Wellformed(u.decode, id, s.out.rows[id]);
    assert Booked(s.db, id);
    var i :| 0 <= i < |s.db.notes| && s.db.notes[i].eventId == id;
    assert Tells(u.decode, s.out.rows, s.db.notes[i]);
    assert s.db.notes[i] == NoteFor(e);
  }

  /** In the DLQ, decoding to the record's own topic and value, under its own key. */
  ghost predicate Recoverable(s: State, k: nat)
    requires k < |s.log|
  {
    exists i :: 0 <= i < |s.dlq| && s.dlq[i].topic == D.DLQTopic(TOPIC) && s.dlq[i].key == s.log[k].key
                && D.DecodeLetter(s.dlq[i].letter) == D.Restored(TOPIC, s.log[k].value)
  }

  /** The committed offset of the record's own partition has passed it. */
  predicate Committed(u: Setup, s: State, k: nat) {
    k < |s.log| && k < CommittedOf(s.committed, u.partition(s.log[k].key))
  }

  /** Every record below the committed offset of its partition was handled within three calls, or its dead letter
      restores it. */
  lemma {:induction false} NothingIsDropped(u: Setup, steps: seq<Step>, k: nat)
    requires Committed(u, Run(u, steps), k)
    ensures var s := Run(u, steps);
            (k in s.processed && 1 <= s.processed[k] <= D.MAX_ATTEMPTS) || Recoverable(s, k)
  {
    RunKeeps(u, steps);
    var s := Run(u, steps);
    var q := u.partition(s.log[k].key);
    assert SettledBelow(u, s.log, s.processed, s.dlq, q, s.committed[q]);
    assert Settled(s.processed, s.dlq, k);
    if k !in s.processed {
      var i :| 0 <= i < |s.dlq| && s.dlq[i].letter.sourceOffset == k;
      var letter := s.dlq[i].letter;
      assert LetterOf(u, s.log, s.dlq[i], k);
      D.DeadLettersAreLossless(MessageAt(u, s.log, k), letter.consumer, letter.reason, letter.failedAt);
      TopicIsPlain();
    }
  }

  /** End to end: once every partition is drained, every published event of a supported type has exactly one
      notification, unless a dead letter that restores its record waits in the DLQ. */
  lemma {:induction false} EffectivelyOnce(u: Setup, steps: seq<Step>, id: Id)
    requires id in Run(u, steps).out.rows && Run(u, steps).out.rows[id].published
    requires forall k :: 0 <= k < |Run(u, steps).log| ==> Committed(u, Run(u, steps), k)
    ensures var s := Run(u, steps);
            var e := u.decode(s.out.rows[id].envelope);
            && e.Some? && e.value.eventId == Some(id)
            && (Supported(e.value) ==>
                  || OneNote(s.db, NoteFor(e.value))
                  || exists k :: 0 <= k < |s.log| && s.log[k] == Entry(s.out.rows[id].key, s.out.rows[id].envelope) && Recoverable(s, k))
  {
    RunKeeps(u, steps);
    var s := Run(u, steps);
    assert Wellformed(u.decode, id, s.out.rows[id]);
    var k := PublishedIsLogged(u, s, id);
    NothingIsDropped(u, steps, k);
    if k in s.processed {
      ExactlyOnceWhenProcessed(u, steps, k);
    }
  }

  lemma PublishedIsLogged(u: Setup, s: State, id: Id) returns (k: nat)
    requires Inv(u, s) && id in s.out.rows && s.out.rows[id].published
    ensures k < |s.log| && s.log[k] == Entry(s.out.rows[id].key, s.out.rows[id].envelope)
  {
    var i :| 0 <= i < |s.out.log| && s.out.log[i].id == id;
    assert s.out.log[i] == RecordOf(s.out.rows, id);
    assert EntryOf(s.out.log[i]) in s.log;
    k :| 0 <= k < |s.log| && s.log[k] == EntryOf(s.out.log[i]);
  }

  // ------------------------------------------------------------------ Replays and progress

  /** Replaying a dead letter appends the very record it was written for, and every letter can be replayed. */
  lemma {:induction false} ReplayRepeatsTheRecord(u: Setup, steps: seq<Step>, i: nat)
    requires i < |Run(u, steps).dlq|
    ensures var s := Run(u, steps);
            var k := s.dlq[i].letter.sourceOffset;
            k < |s.log| && Enabled(u, s, Replay(i)) && Next(u, s, Replay(i)).log == s.log + [s.log[k]]
  {
    RunKeeps(u, steps);
    var s := Run(u, steps);
    var letter := s.dlq[i].letter;
    assert LetterOf(u, s.log, s.dlq[i], letter.sourceOffset);
    D.DeadLettersAreLossless(MessageAt(u, s.log, letter.sourceOffset), letter.consumer, letter.reason, letter.failedAt);
    TopicIsPlain();
  }

  lemma FromNext(u: Setup, s: State, steps: seq<Step>, step: Step)
    ensures From(u, s, steps + [step]) == Next(u, From(u, s, steps), step)
  {
    assert (steps + [step])[..|steps|] == steps;
  }

  /** Worker `w` stands at place `n` of partition `q` in an unchanged log, with no failed call. */
  ghost predicate Stands(s: State, t: State, w: Id, q: nat, n: nat) {
    t.log == s.log && t.out == s.out && w in t.workers && t.workers[w] == Worker(q, n, 0)
  }

  /** One record is got past: handled, or, if its handling fails, buried after the third call. */
  lemma {:induction false} OneRecordIsPassed(u: Setup, s: State, w: Id) returns (steps: seq<Step>)
    requires Fetched(u, s, w) && s.workers[w].failures == 0
    ensures Stands(s, From(u, s, steps), w, s.workers[w].partition, Place(u, s, w) + 1)
  {
    var go := Attempt(w, Commits);
    var k := Place(u, s, w);
    if HandleOk(u.decode(s.log[k].value), Commits) {
      steps := [go];
      FromNext(u, s, [], go);
      assert [] + [go] == [go];
    } else {
      var bury := Bury(w, D.Acked, "", 0);
      steps := [go, go, go, bury];
      ThreeFailures(u, s, w);
      FromNext(u, s, [go, go, go], bury);
      assert [go, go, go] + [bury] == steps;
    }
  }

  /** The worker with `n` failed calls behind it. */
  function Failing(s: State, w: Id, n: nat): State
    requires w in s.workers
  {
    s.(workers := s.workers[w := s.workers[w].(failures := n)])
  }

  lemma FailureCounts(u: Setup, s: State, w: Id, n: nat)
    requires Fetched(u, s, w) && n < 3 && !HandleOk(u.decode(s.log[Place(u, s, w)].value), Commits)
    ensures Next(u, Failing(s, w, n), Attempt(w, Commits)) == Failing(s, w, n + 1)
  {
    var t := Failing(s, w, n);
    assert Fetched(u, t, w) && Place(u, t, w) == Place(u, s, w);
    assert t.workers[w := t.workers[w].(failures := n + 1)] == Failing(s, w, n + 1).workers;
  }

  lemma ThreeFailures(u: Setup, s: State, w: Id)
    requires Fetched(u, s, w) && s.workers[w].failures == 0
    requires !HandleOk(u.decode(s.log[Place(u, s, w)].value), Commits)
    ensures From(u, s, [Attempt(w, Commits), Attempt(w, Commits), Attempt(w, Commits)]) == Failing(s, w, 3)
  {
    assert Failing(s, w, 0) == s;
    FailureCounts(u, s, w, 0);
    FailureCounts(u, s, w, 1);
    FailureCounts(u, s, w, 2);
    FromThree(u, s, Attempt(w, Commits), Failing(s, w, 1), Failing(s, w, 2), Failing(s, w, 3));
  }

  lemma FromThree(u: Setup, s: State, go: Step, s1: State, s2: State, s3: State)
    requires Next(u, s, go) == s1 && Next(u, s1, go) == s2 && Next(u, s2, go) == s3
    ensures From(u, s, [go, go, go]) == s3
  {
    assert [] + [go] == [go] && [go] + [go] == [go, go] && [go, go] + [go] == [go, go, go];
    FromNext(u, s, [], go);
    FromNext(u, s, [go], go);
    FromNext(u, s, [go, go], go);
  }

  lemma {:induction false} FoldJoins<S, A>(s: S, steps: seq<A>, more: seq<A>, next: (S, A) -> S)
    ensures Fold(s, steps + more, next) == Fold(Fold(s, steps, next), more, next)
  {
    if more == [] {
      assert steps + more == steps;
    } else {
      var n := |more| - 1;
      assert (steps + more)[..|steps| + n] == steps + more[..n];
      FoldJoins(s, steps, more[..n], next);
    }
  }

  /** The worker gets past every record of its partition. */
  lemma {:induction false} AllRecordsArePassed(u: Setup, s: State, w: Id) returns (steps: seq<Step>, n: nat)
    requires w in s.workers && s.workers[w].position <= |s.log| && s.workers[w].failures == 0
    ensures Stands(s, From(u, s, steps), w, s.workers[w].partition, n) && n <= |s.log|
    ensures Upcoming(u, s.log, s.workers[w].partition, n) == |s.log|
    decreases |s.log| - s.workers[w].position
  {
    if Fetched(u, s, w) {
      var first := OneRecordIsPassed(u, s, w);
      var rest;
      rest, n := AllRecordsArePassed(u, From(u, s, first), w);
      FoldJoins(s, first, rest, Stepper(u));
      steps := first + rest;
    } else {
      steps, n := [], s.workers[w].position;
    }
  }

  /** No reachable state is stuck: from every one, a worker that takes a partition can go on until the committed offset of
      that partition has passed each of its records. */
  lemma {:induction false} PartitionsCanAlwaysBeDrained(u: Setup, steps: seq<Step>, q: nat)
    ensures exists more :: var t := Run(u, steps + more);
                           && t.log == Run(u, steps).log
                           && forall k :: 0 <= k < |t.log| && u.partition(t.log[k].key) == q ==> k < CommittedOf(t.committed, q)
  {
    RunKeeps(u, steps);
    var s := Run(u, steps);
    var begun := Next(u, s, Start(0, q));
    CommittedIsInTheLog(u, s, q);
    var rest, n := AllRecordsArePassed(u, begun, 0);
    var more := [Start(0, q)] + rest + [Commit(0)];
    StartGoCommit(u, s, q, rest);
    FoldJoins(EMPTY, steps, more, Stepper(u));
    var t := Run(u, steps + more);
    assert t.committed == From(u, begun, rest).committed[q := n];
  }

  lemma CommittedIsInTheLog(u: Setup, s: State, q: nat)
    requires Inv(u, s)
    ensures CommittedOf(s.committed, q) <= |s.log|
  {
    assert q in s.committed ==> SettledBelow(u, s.log, s.processed, s.dlq, q, s.committed[q]);
  }

  lemma StartGoCommit(u: Setup, s: State, q: nat, rest: seq<Step>)
    ensures From(u, s, [Start(0, q)] + rest + [Commit(0)]) == Next(u, From(u, Next(u, s, Start(0, q)), rest), Commit(0))
  {
    FromNext(u, s, [], Start(0, q));
    assert [] + [Start(0, q)] == [Start(0, q)];
    FoldJoins(s, [Start(0, q)], rest, Stepper(u));
    FromNext(u, s, [Start(0, q)] + rest, Commit(0));
  }
}
