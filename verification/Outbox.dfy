/**
 The transactional outbox and its relay.

 A table row is written by the domain transaction. One relay selects unpublished rows in time order, produces
 them one by one, marks each produced row, and commits. A crash, a failed produce or a failed commit may lose
 marks, never log records: records repeat, they do not go missing.
 */
module Outbox {
  import opened Prelude

  type Byte = b: int | 0 <= b < 256
  type Bytes = seq<Byte>

  datatype Row = Row(aggregate: Id, occurredAt: int, key: Bytes, envelope: Bytes, published: bool, attempts: nat)

  datatype Record = Record(id: Id, key: Bytes, value: Bytes)

  /** What happens to one produce call and the row update after it. */
  datatype Try =
    | Accepted           // in the log, acknowledged, row marked
    | MarkFailed         // in the log, acknowledged, but the row update failed
    | AckLost            // in the log, but the producer reports an error
    | Rejected           // not in the log, the producer reports an error

  const BATCH := 50

  function RecordOf(rows: map<Id, Row>, id: Id): Record
    requires id in rows
  {
    Record(id, rows[id].key, rows[id].envelope)
  }

  /** What `SELECT ... WHERE published_at IS NULL ORDER BY occurred_at LIMIT 50` may return to the only relay. */
  ghost predicate Selectable(rows: map<Id, Row>, sel: seq<Id>) {
    && |sel| <= BATCH
    && (forall i :: 0 <= i < |sel| ==> sel[i] in rows && !rows[sel[i]].published)
    && (forall i, j :: 0 <= i < j < |sel| ==> sel[i] != sel[j] && rows[sel[i]].occurredAt <= rows[sel[j]].occurredAt)
    && (forall e :: e in rows && !rows[e].published && e !in sel ==>
                      |sel| == BATCH && forall i :: 0 <= i < |sel| ==> rows[sel[i]].occurredAt <= rows[e].occurredAt)
  }

  /** How many produce calls of a batch are accepted before the first one that is not. */
  function Streak(tries: seq<Try>): (n: nat)
    ensures n <= |tries|
    ensures forall i :: 0 <= i < n ==> tries[i] == Accepted
    ensures n < |tries| ==> tries[n] != Accepted
  {
    if tries == [] || tries[0] != Accepted then 0 else 1 + Streak(tries[1..])
  }

  /** How many records of a batch reach the log: the streak, and the failing one when Kafka has it. */
  function Reached(tries: seq<Try>): (n: nat)
    ensures n <= |tries|
  {
    var n := Streak(tries);
    if n < |tries| && (tries[n] == MarkFailed || tries[n] == AckLost) then n + 1 else n
  }

  function Records(rows: map<Id, Row>, ids: seq<Id>): (rs: seq<Record>)
    requires forall i :: 0 <= i < |ids| ==> ids[i] in rows
    ensures |rs| == |ids| && forall i :: 0 <= i < |ids| ==> rs[i] == RecordOf(rows, ids[i])
  {
    seq(|ids|, i requires 0 <= i < |ids| => RecordOf(rows, ids[i]))
  }

  function Attempted(rows: map<Id, Row>, ids: seq<Id>, published: bool): map<Id, Row> {
    map e | e in rows :: if e in ids then rows[e].(published := rows[e].published || published, attempts := rows[e].attempts + 1) else rows[e]
  }

  /** The table after a batch. A failed mark or a failed commit rolls every mark back. */
  function BatchRows(rows: map<Id, Row>, sel: seq<Id>, tries: seq<Try>, commits: bool): map<Id, Row>
    requires |tries| == |sel|
  {
    var n := Streak(tries);
    if !commits || (n < |tries| && tries[n] == MarkFailed) then rows
    else
      var marked := Attempted(rows, sel[..n], true);
      if n < |sel| then Attempted(marked, [sel[n]], false) else marked
  }

  ghost predicate Pending(rows: map<Id, Row>, sel: seq<Id>) {
    && (forall i :: 0 <= i < |sel| ==> sel[i] in rows && !rows[sel[i]].published)
    && (forall a, b :: 0 <= a < b < |sel| ==> sel[a] != sel[b])
  }

  lemma MarkNext(rows: map<Id, Row>, sel: seq<Id>, i: nat, published: bool)
    requires i < |sel| && Pending(rows, sel)
    ensures var table := Attempted(rows, sel[..i], true);
            && sel[i] in table && table[sel[i]] == rows[sel[i]]
            && table[sel[i] := rows[sel[i]].(attempts := rows[sel[i]].attempts + 1, published := published)]
               == if published then Attempted(rows, sel[..i + 1], true) else Attempted(table, [sel[i]], false)
  {
    assert sel[i] !in sel[..i];
    assert sel[..i + 1] == sel[..i] + [sel[i]];
  }

  datatype Ending = AllSent | SendFailed | MarkBroken

  /** The loop of `publishBatch` over the collected records; the marks stay inside the transaction. */
  method ProduceAndMark(rows: map<Id, Row>, sel: seq<Id>, records: seq<Record>, tries: seq<Try>)
    returns (sent: seq<Record>, table: map<Id, Row>, ending: Ending)
    requires Pending(rows, sel) && |tries| == |sel| && records == Records(rows, sel)
    ensures sent == Records(rows, sel[..Reached(tries)])
    ensures ending == AllSent <==> Streak(tries) == |sel|
    ensures ending == MarkBroken <==> Streak(tries) < |sel| && tries[Streak(tries)] == MarkFailed
    ensures ending != MarkBroken ==> table == BatchRows(rows, sel, tries, true)
  {
    sent, table, ending := [], rows, AllSent;
    assert table == Attempted(rows, sel[..0], true);
    for i := 0 to |sel|
      invariant i <= Streak(tries) && ending == AllSent
      invariant sent == Records(rows, sel[..i])
      invariant table == Attempted(rows, sel[..i], true)
    {
      var item := records[i];
      MarkNext(rows, sel, i, tries[i] == Accepted);
      if tries[i] != Rejected {
        sent := sent + [item];
        assert sent == Records(rows, sel[..i + 1]);
      }
      var row := table[item.id].(attempts := table[item.id].attempts + 1);
      if tries[i] != Accepted {
        ending := if tries[i] == MarkFailed then MarkBroken else SendFailed;
        table := table[item.id := row];
        return;
      }
      table := table[item.id := row.(published := true)];
    }
    assert sel[..|sel|] == sel;
  }

  class Relay {
    var rows: map<Id, Row>
    var log: seq<Record>

    /** `Insert` inside a domain transaction; the primary key is the event id. */
    method Insert(id: Id, row: Row) returns (inserted: bool)
      modifies this
      ensures inserted <==> id !in old(rows)
      ensures log == old(log) && rows == if inserted then old(rows)[id := row.(published := false, attempts := 0)] else old(rows)
    {
      if id in rows {
        return false;
      }
      rows := rows[id := row.(published := false, attempts := 0)];
      return true;
    }

    /** `publishBatch`: collect, then produce and mark row by row, leaving at the first failure. */
    method PublishBatch(sel: seq<Id>, tries: seq<Try>, commits: bool) returns (ok: bool)
      requires Selectable(rows, sel) && |tries| == |sel|
      modifies this
      ensures log == old(log) + Records(old(rows), sel[..Reached(tries)])
      ensures rows == BatchRows(old(rows), sel, tries, commits)
      ensures ok <==> commits && Streak(tries) == |sel|
    {
      var records: seq<Record> := [];
      for i := 0 to |sel|
        invariant rows == old(rows) && log == old(log)
        invariant records == Records(rows, sel[..i])
      {
        records := records + [RecordOf(rows, sel[i])];
      }
      assert sel[..|sel|] == sel;
      var sent, table, ending := ProduceAndMark(rows, sel, records, tries);
      log := log + sent;
      if ending != MarkBroken && commits {
        rows := table;
      }
      return ending == AllSent && commits;
    }
  }
}
