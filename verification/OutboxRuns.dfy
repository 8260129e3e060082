/** What every run of inserts and relay batches keeps. */
module OutboxRuns {
  import opened Prelude
  import opened Outbox

  datatype State = State(rows: map<Id, Row>, log: seq<Record>)

  datatype Step =
    | Insert(id: Id, row: Row)
    | Batch(sel: seq<Id>, tries: seq<Try>, commits: bool)

  /** Event ids are fresh, and the clock of one aggregate is strictly monotone. */
  ghost predicate Insertable(rows: map<Id, Row>, id: Id, row: Row) {
    && id !in rows && !row.published
    && forall e :: e in rows && rows[e].aggregate == row.aggregate ==> rows[e].occurredAt < row.occurredAt
  }

  ghost function Next(s: State, step: Step): State {
    match step
    case Insert(id, row) => if Insertable(s.rows, id, row) then s.(rows := s.rows[id := row]) else s
    case Batch(sel, tries, commits) =>
      if Selectable(s.rows, sel) && |tries| == |sel| then
        State(BatchRows(s.rows, sel, tries, commits), s.log + Records(s.rows, sel[..Reached(tries)]))
      else s
  }

  ghost function Run(s: State, steps: seq<Step>): State {
    if steps == [] then s else Next(Run(s, steps[..|steps| - 1]), steps[|steps| - 1])
  }

  const EMPTY := State(map[], [])

  ghost predicate Logged(log: seq<Record>, id: Id) {
    exists i :: 0 <= i < |log| && log[i].id == id
  }

  ghost predicate Earlier(rows: map<Id, Row>, e: Id, f: Id) {
    e in rows && f in rows && rows[e].aggregate == rows[f].aggregate && rows[e].occurredAt < rows[f].occurredAt
  }

  // ------------------------------------------------------------------ A batch

  /** A batch marks a prefix of its selection: nothing, or exactly the accepted streak. */
  lemma BatchMarksAPrefix(rows: map<Id, Row>, sel: seq<Id>, tries: seq<Try>, commits: bool)
    requires Selectable(rows, sel) && |tries| == |sel|
    ensures var after := BatchRows(rows, sel, tries, commits);
            exists k :: 0 <= k <= Reached(tries) && (forall i :: 0 <= i < k ==> tries[i] == Accepted)
                        && after.Keys == rows.Keys
                        && (forall e :: e in rows ==> (after[e].published <==> rows[e].published || e in sel[..k]))
  {
    var n := Streak(tries);
    if !commits || (n < |tries| && tries[n] == MarkFailed) {
      assert sel[..0] == [];
      assert BatchRows(rows, sel, tries, commits) == rows;
    } else {
      assert n <= Reached(tries);
      assert forall e :: e in rows ==> (BatchRows(rows, sel, tries, commits)[e].published <==> rows[e].published || e in sel[..n]);
    }
  }

  /** What a batch takes: at most fifty unpublished rows, oldest first; a shorter batch takes all of them, and a full one
      leaves none that is older than one it takes. */
  lemma BatchTakesTheOldestFifty(rows: map<Id, Row>, sel: seq<Id>)
    requires Selectable(rows, sel)
    ensures |sel| <= 50 && (forall i :: 0 <= i < |sel| ==> sel[i] in rows && !rows[sel[i]].published)
    ensures |sel| < 50 ==> forall e :: e in rows && !rows[e].published ==> e in sel
    ensures forall e, i :: e in rows && !rows[e].published && e !in sel && 0 <= i < |sel| ==> rows[sel[i]].occurredAt <= rows[e].occurredAt
  {
  }

  /** A produce call is made for place `k`: all before it were accepted and marked. */
  ghost predicate Tried(tries: seq<Try>, k: int) {
    0 <= k < |tries| && forall i :: 0 <= i < k ==> tries[i] == Accepted
  }

  lemma {:induction false} TriedIsInTheStreak(tries: seq<Try>, k: int)
    requires Tried(tries, k)
    ensures k <= Streak(tries)
  {
    if k > 0 {
      assert tries[0] == Accepted;
      TriedIsInTheStreak(tries[1..], k - 1);
    }
  }

  /** What a batch sends, call by call: the record of each tried place that Kafka has, acknowledged or not, in order. */
  lemma {:induction false} BatchSendsWhatKafkaTakes(tries: seq<Try>)
    ensures forall k :: 0 <= k < |tries| ==> (k < Reached(tries) <==> Tried(tries, k) && tries[k] != Rejected)
  {
    forall k | Tried(tries, k) ensures k <= Streak(tries) {
      TriedIsInTheStreak(tries, k);
    }
  }

  /** What a batch leaves in the table, row by row: nothing when its commit or a mark fails; otherwise each tried row counts
      one more attempt and is published exactly when its call was accepted. No other field, and no other row, changes. */
  lemma {:induction false} BatchMarksWhatIsAccepted(rows: map<Id, Row>, sel: seq<Id>, tries: seq<Try>, commits: bool)
    requires Selectable(rows, sel) && |tries| == |sel|
    ensures var after := BatchRows(rows, sel, tries, commits);
            if !commits || (exists k :: Tried(tries, k) && tries[k] == MarkFailed) then after == rows
            else
              && after.Keys == rows.Keys
              && (forall k :: Tried(tries, k) ==>
                                after[sel[k]] == rows[sel[k]].(attempts := rows[sel[k]].attempts + 1, published := tries[k] == Accepted))
              && (forall e :: e in rows && (forall k :: Tried(tries, k) ==> sel[k] != e) ==> after[e] == rows[e])
  {
    var n := Streak(tries);
    forall k | Tried(tries, k) ensures k <= n {
      TriedIsInTheStreak(tries, k);
    }
    forall k | 0 <= k < n ensures Tried(tries, k) {
    }
    assert n < |tries| ==> Tried(tries, n);
    assert (exists k :: Tried(tries, k) && tries[k] == MarkFailed) <==> n < |tries| && tries[n] == MarkFailed;
    if commits && !(n < |tries| && tries[n] == MarkFailed) {
      MarksByPlace(rows, sel, n);
    }
  }

  lemma MarksByPlace(rows: map<Id, Row>, sel: seq<Id>, n: nat)
    requires Selectable(rows, sel) && n <= |sel|
    ensures var marked := Attempted(rows, sel[..n], true);
            var after := if n < |sel| then Attempted(marked, [sel[n]], false) else marked;
            && after.Keys == rows.Keys
            && (forall k :: 0 <= k < n ==> after[sel[k]] == rows[sel[k]].(attempts := rows[sel[k]].attempts + 1, published := true))
            && (n < |sel| ==> after[sel[n]] == rows[sel[n]].(attempts := rows[sel[n]].attempts + 1, published := false))
            && (forall e :: e in rows && (forall k :: 0 <= k <= n && k < |sel| ==> sel[k] != e) ==> after[e] == rows[e])
  {
    forall k | 0 <= k < n ensures sel[k] in sel[..n] {
      assert sel[..n][k] == sel[k];
    }
  }

  lemma BatchKeepsContents(rows: map<Id, Row>, sel: seq<Id>, tries: seq<Try>, commits: bool)
    requires |tries| == |sel|
    ensures var after := BatchRows(rows, sel, tries, commits);
            after.Keys == rows.Keys
            && forall e :: e in rows ==> after[e].(published := rows[e].published, attempts := rows[e].attempts) == rows[e]
  {
  }

  // ------------------------------------------------------------------ The invariant

  ghost predicate Clocked(rows: map<Id, Row>) {
    forall e, f :: e in rows && f in rows && e != f && rows[e].aggregate == rows[f].aggregate ==> rows[e].occurredAt != rows[f].occurredAt
  }

  ghost predicate Genuine(s: State) {
    forall i :: 0 <= i < |s.log| ==> s.log[i].id in s.rows && s.log[i] == RecordOf(s.rows, s.log[i].id)
  }

  /** Every record comes after records of all earlier events of its aggregate. */
  ghost predicate Causal(s: State) {
    forall j, e :: 0 <= j < |s.log| && Earlier(s.rows, e, s.log[j].id) ==> Logged(s.log[..j], e)
  }

  ghost predicate Relayed(s: State) {
    && Clocked(s.rows) && Genuine(s) && Causal(s)
    && forall e :: e in s.rows && s.rows[e].published ==> Logged(s.log, e)
  }

  lemma InsertIsRelayed(s: State, id: Id, row: Row)
    requires Relayed(s) && Insertable(s.rows, id, row)
    ensures Relayed(Next(s, Insert(id, row)))
  {
    var t := Next(s, Insert(id, row));
    forall j, e | 0 <= j < |t.log| && Earlier(t.rows, e, t.log[j].id) ensures Logged(t.log[..j], e) {
      assert t.log[j].id in s.rows;
      assert Earlier(s.rows, e, s.log[j].id);
    }
  }

  lemma SelectionIsClosed(rows: map<Id, Row>, sel: seq<Id>, k: nat, e: Id)
    requires Selectable(rows, sel) && k < |sel| && Earlier(rows, e, sel[k]) && !rows[e].published
    ensures e in sel[..k]
  {
    assert e in sel;
    var i :| 0 <= i < |sel| && sel[i] == e;
    assert i < k;
    assert sel[..k][i] == e;
  }

  lemma SelectedIsPreceded(rows: map<Id, Row>, log: seq<Record>, sel: seq<Id>, n: nat, k: nat, e: Id)
    requires Selectable(rows, sel) && k < n <= |sel| && Earlier(rows, e, sel[k]) && !rows[e].published
    ensures Logged((log + Records(rows, sel[..n]))[..|log| + k], e)
  {
    SelectionIsClosed(rows, sel, k, e);
    var i :| 0 <= i < k && sel[..k][i] == e;
    assert (log + Records(rows, sel[..n]))[..|log| + k][|log| + i].id == e;
  }

  lemma MarkedIsPreceded(log: seq<Record>, more: seq<Record>, j: nat, e: Id)
    requires Logged(log, e) && |log| <= j <= |log + more|
    ensures Logged((log + more)[..j], e)
  {
    var i :| 0 <= i < |log| && log[i].id == e;
    assert (log + more)[..j][i].id == e;
  }

  lemma BatchIsCausal(s: State, sel: seq<Id>, n: nat)
    requires Relayed(s) && Selectable(s.rows, sel) && n <= |sel|
    ensures Causal(State(s.rows, s.log + Records(s.rows, sel[..n])))
  {
    var more := Records(s.rows, sel[..n]);
    var log := s.log + more;
    forall j, e | 0 <= j < |log| && Earlier(s.rows, e, log[j].id) ensures Logged(log[..j], e) {
      if j < |s.log| {
        assert log[..j] == s.log[..j];
      } else if s.rows[e].published {
        MarkedIsPreceded(s.log, more, j, e);
      } else {
        SelectedIsPreceded(s.rows, s.log, sel, n, j - |s.log|, e);
      }
    }
  }

  lemma CausalUnderMarks(rows: map<Id, Row>, after: map<Id, Row>, log: seq<Record>)
    requires Causal(State(rows, log)) && after.Keys == rows.Keys
    requires forall e :: e in rows ==> after[e].(published := rows[e].published, attempts := rows[e].attempts) == rows[e]
    ensures Causal(State(after, log))
  {
    forall j, e | 0 <= j < |log| && Earlier(after, e, log[j].id) ensures Logged(log[..j], e) {
      assert Earlier(rows, e, log[j].id);
    }
  }

  lemma LoggedStays(log: seq<Record>, more: seq<Record>, e: Id)
    requires Logged(log, e)
    ensures Logged(log + more, e)
  {
    var i :| 0 <= i < |log| && log[i].id == e;
    assert (log + more)[i].id == e;
  }

  lemma SentIsLogged(rows: map<Id, Row>, log: seq<Record>, ids: seq<Id>, e: Id)
    requires (forall x :: x in ids ==> x in rows) && e in ids
    ensures Logged(log + Records(rows, ids), e)
  {
    var i :| 0 <= i < |ids| && ids[i] == e;
    assert (log + Records(rows, ids))[|log| + i].id == e;
  }

  lemma MarkedWasReached(rows: map<Id, Row>, sel: seq<Id>, tries: seq<Try>, commits: bool, e: Id)
    requires Selectable(rows, sel) && |tries| == |sel|
    requires e in rows && BatchRows(rows, sel, tries, commits)[e].published && !rows[e].published
    ensures e in sel[..Reached(tries)]
  {
    BatchMarksAPrefix(rows, sel, tries, commits);
    var k :| 0 <= k <= Reached(tries) && e in sel[..k];
    assert sel[..k] <= sel[..Reached(tries)];
  }

  lemma BatchLogsMarks(s: State, sel: seq<Id>, tries: seq<Try>, commits: bool, e: Id)
    requires Relayed(s) && Selectable(s.rows, sel) && |tries| == |sel|
    requires e in s.rows && BatchRows(s.rows, sel, tries, commits)[e].published
    ensures Logged(s.log + Records(s.rows, sel[..Reached(tries)]), e)
  {
    if s.rows[e].published {
      LoggedStays(s.log, Records(s.rows, sel[..Reached(tries)]), e);
    } else {
      MarkedWasReached(s.rows, sel, tries, commits, e);
      SentIsLogged(s.rows, s.log, sel[..Reached(tries)], e);
    }
  }

  lemma BatchIsGenuine(s: State, sel: seq<Id>, tries: seq<Try>, commits: bool)
    requires Relayed(s) && Selectable(s.rows, sel) && |tries| == |sel|
    ensures Genuine(Next(s, Batch(sel, tries, commits))) && Clocked(Next(s, Batch(sel, tries, commits)).rows)
  {
    BatchKeepsContents(s.rows, sel, tries, commits);
  }

  lemma BatchIsRelayed(s: State, sel: seq<Id>, tries: seq<Try>, commits: bool)
    requires Relayed(s) && Selectable(s.rows, sel) && |tries| == |sel|
    ensures Relayed(Next(s, Batch(sel, tries, commits)))
  {
    var t := Next(s, Batch(sel, tries, commits));
    BatchIsCausal(s, sel, Reached(tries));
    BatchKeepsContents(s.rows, sel, tries, commits);
    CausalUnderMarks(s.rows, t.rows, t.log);
    BatchIsGenuine(s, sel, tries, commits);
    forall e | e in t.rows && t.rows[e].published ensures Logged(t.log, e) {
      BatchLogsMarks(s, sel, tries, commits, e);
    }
  }

  lemma {:induction false} RunIsRelayed(steps: seq<Step>)
    ensures Relayed(Run(EMPTY, steps))
  {
    if steps != [] {
      var mid, last := Run(EMPTY, steps[..|steps| - 1]), steps[|steps| - 1];
      RunIsRelayed(steps[..|steps| - 1]);
      if Next(mid, last) != mid {
        match last
        case Insert(id, row) => InsertIsRelayed(mid, id, row);
        case Batch(sel, tries, commits) => BatchIsRelayed(mid, sel, tries, commits);
      }
    }
  }

  /** A row is marked only once Kafka has its record, the log holds nothing but committed rows, and a record of an
      event always comes after records of all earlier events of its aggregate. */
  lemma {:induction false} LogIsFaithful(steps: seq<Step>, j: nat, e: Id)
    requires j < |Run(EMPTY, steps).log|
    ensures var t := Run(EMPTY, steps);
            && t.log[j].id in t.rows && t.log[j] == RecordOf(t.rows, t.log[j].id)
            && (Earlier(t.rows, e, t.log[j].id) ==> Logged(t.log[..j], e))
            && (e in t.rows && t.rows[e].published ==> Logged(t.log, e))
  {
    RunIsRelayed(steps);
  }

  // ------------------------------------------------------------------ First occurrences

  /** All events of one aggregate, oldest first. */
  ghost predicate Timeline(rows: map<Id, Row>, es: seq<Id>, aggregate: Id) {
    && (forall i :: 0 <= i < |es| ==> es[i] in rows && rows[es[i]].aggregate == aggregate)
    && (forall i, j :: 0 <= i < j < |es| ==> rows[es[i]].occurredAt < rows[es[j]].occurredAt)
  }

  /** The events of a timeline met in the first `p` records are exactly its first `c`. */
  ghost predicate SeenExactly(log: seq<Record>, p: nat, es: seq<Id>, c: nat)
    requires p <= |log|
  {
    c <= |es| && forall i :: 0 <= i < |es| ==> (Logged(log[..p], es[i]) <==> i < c)
  }

  lemma {:induction false} SeenGrowsByOne(s: State, es: seq<Id>, aggregate: Id, p: nat) returns (c: nat)
    requires Relayed(s) && Timeline(s.rows, es, aggregate) && p <= |s.log|
    ensures SeenExactly(s.log, p, es, c)
    ensures p < |s.log| ==> forall i :: 0 <= i < |es| && s.log[p].id == es[i] ==> i <= c
    decreases p
  {
    if p == 0 {
      c := 0;
    } else {
      var b := SeenGrowsByOne(s, es, aggregate, p - 1);
      var x := s.log[p - 1].id;
      assert s.log[..p] == s.log[..p - 1] + [s.log[p - 1]];
      c := if b < |es| && es[b] == x then b + 1 else b;
      forall i | 0 <= i < |es| ensures Logged(s.log[..p], es[i]) <==> i < c {
        LoggedAppend(s.log[..p - 1], s.log[p - 1], es[i]);
        if es[i] == x {
          assert i <= b;
        }
      }
    }
    if p < |s.log| {
      forall i | 0 <= i < |es| && s.log[p].id == es[i] ensures i <= c {
        if i > c {
          assert Earlier(s.rows, es[c], es[i]);
        }
      }
    }
  }

  lemma LoggedAppend(log: seq<Record>, r: Record, e: Id)
    ensures Logged(log + [r], e) <==> Logged(log, e) || r.id == e
  {
    if Logged(log, e) {
      var i :| 0 <= i < |log| && log[i].id == e;
      assert (log + [r])[i].id == e;
    }
    if r.id == e {
      assert (log + [r])[|log|].id == e;
    }
  }

  /** Reading the log, a record of an aggregate repeats a seen event or is the very next one of its timeline. */
  lemma {:induction false} FirstOccurrencesAreInOrder(steps: seq<Step>, es: seq<Id>, aggregate: Id, p: nat, i: nat)
    requires p < |Run(EMPTY, steps).log| && i < |es|
    requires Timeline(Run(EMPTY, steps).rows, es, aggregate) && Run(EMPTY, steps).log[p].id == es[i]
    ensures exists c :: SeenExactly(Run(EMPTY, steps).log, p, es, c) && i <= c
  {
    RunIsRelayed(steps);
    var c := SeenGrowsByOne(Run(EMPTY, steps), es, aggregate, p);
  }

  // ------------------------------------------------------------------ How often an event is produced

  ghost function Count(log: seq<Record>, e: Id): nat {
    if log == [] then 0 else Count(log[..|log| - 1], e) + if log[|log| - 1].id == e then 1 else 0
  }

  /** The step attempted to produce `e` and did not end with `e` marked: a failed or rolled-back attempt. */
  ghost predicate Wastes(s: State, step: Step, e: Id) {
    && step.Batch? && Selectable(s.rows, step.sel) && |step.tries| == |step.sel|
    && e in step.sel[..Reached(step.tries)] && e in s.rows && !Next(s, step).rows[e].published
  }

  ghost function Waste(s: State, steps: seq<Step>, e: Id): nat {
    if steps == [] then 0
    else
      var rest := steps[..|steps| - 1];
      Waste(s, rest, e) + if Wastes(Run(s, rest), steps[|steps| - 1], e) then 1 else 0
  }

  lemma {:induction false} CountAppend(log: seq<Record>, more: seq<Record>, e: Id)
    ensures Count(log + more, e) == Count(log, e) + Count(more, e)
  {
    if more == [] {
      assert log + more == log;
    } else {
      var rest := more[..|more| - 1];
      CountAppend(log, rest, e);
      assert (log + more)[..|log + more| - 1] == log + rest;
    }
  }

  lemma {:induction false} CountDistinct(rows: map<Id, Row>, ids: seq<Id>, e: Id)
    requires forall i :: 0 <= i < |ids| ==> ids[i] in rows
    requires forall i, j :: 0 <= i < j < |ids| ==> ids[i] != ids[j]
    ensures Count(Records(rows, ids), e) == if e in ids then 1 else 0
  {
    if ids != [] {
      var rest, last := ids[..|ids| - 1], ids[|ids| - 1];
      CountDistinct(rows, rest, e);
      assert Records(rows, ids)[..|ids| - 1] == Records(rows, rest);
      assert ids == rest + [last];
    }
  }

  ghost predicate Marked(s: State, e: Id) {
    e in s.rows && s.rows[e].published
  }

  lemma StepCount(s: State, step: Step, e: Id)
    ensures Count(Next(s, step).log, e) + (if Marked(s, e) then 1 else 0)
            <= Count(s.log, e) + (if Wastes(s, step, e) then 1 else 0) + (if Marked(Next(s, step), e) then 1 else 0)
  {
    if step.Batch? && Selectable(s.rows, step.sel) && |step.tries| == |step.sel| {
      var reached := step.sel[..Reached(step.tries)];
      CountAppend(s.log, Records(s.rows, reached), e);
      CountDistinct(s.rows, reached, e);
      BatchMarksAPrefix(s.rows, step.sel, step.tries, step.commits);
      if e in reached {
        assert e in s.rows && !s.rows[e].published;
      }
    }
  }

  /** An event is in the log at most once more than the number of failed or rolled-back attempts that covered it. */
  lemma {:induction false} ProducedOnceMoreThanWasted(steps: seq<Step>, e: Id)
    ensures Count(Run(EMPTY, steps).log, e) <= Waste(EMPTY, steps, e) + if Marked(Run(EMPTY, steps), e) then 1 else 0
  {
    if steps != [] {
      ProducedOnceMoreThanWasted(steps[..|steps| - 1], e);
      StepCount(Run(EMPTY, steps[..|steps| - 1]), steps[|steps| - 1], e);
    }
  }
}
