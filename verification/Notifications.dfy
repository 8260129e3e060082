/** The notification worker: an inbox row and a log row written in one transaction. */
module Notifications {
  import opened Prelude

  /** The fields of an event envelope this worker reads; an empty id is None. */
  datatype Envelope = Envelope(eventId: Option<Id>, aggregate: Option<Id>, eventType: string, correlation: string)

  datatype Note = Note(eventId: Id, order: Id, eventType: string, message: string, correlation: string)

  /** `inbox` is processed_events, `notes` is notification_log in insertion order. */
  datatype Tables = Tables(inbox: set<Id>, notes: seq<Note>)

  function MessageFor(eventType: string): (m: Option<string>)
    ensures m.Some? <==> eventType in {"order.created", "order.confirmed", "order.status_changed"}
  {
    match eventType
    case "order.created" => Some("Заказ создан и ожидает подтверждения")
    case "order.confirmed" => Some("Заказ подтверждён")
    case "order.status_changed" => Some("Статус заказа изменился")
    case _ => None
  }

  predicate Complete(e: Envelope) {
    e.eventId.Some? && e.aggregate.Some? && e.eventType != ""
  }

  predicate Supported(e: Envelope) {
    Complete(e) && MessageFor(e.eventType).Some?
  }

  function NoteFor(e: Envelope): Note
    requires Supported(e)
  {
    Note(e.eventId.value, e.aggregate.value, e.eventType, MessageFor(e.eventType).value, e.correlation)
  }

  ghost predicate Booked(db: Tables, id: Id) {
    exists i :: 0 <= i < |db.notes| && db.notes[i].eventId == id
  }

  /** What one `handle` call does to the tables; None is a value that is not JSON. */
  function HandleTx(db: Tables, decoded: Option<Envelope>, answer: Answer): Tables {
    if decoded.None? || !Supported(decoded.value) || decoded.value.eventId.value in db.inbox || answer == Aborts then db
    else Tables(db.inbox + {decoded.value.eventId.value}, db.notes + [NoteFor(decoded.value)])
  }

  /** Whether the call returns no error. */
  predicate HandleOk(decoded: Option<Envelope>, answer: Answer) {
    decoded.Some? && Complete(decoded.value) && (Supported(decoded.value) ==> answer == Commits)
  }

  /** What one call records, type by type: a new complete event of a supported type gets one note, with its own ids and
      correlation and the text of its type; every other event gets none and leaves no mark. */
  lemma NoteSaysWhatHappened(db: Tables, e: Envelope, answer: Answer)
    ensures var after := HandleTx(db, Some(e), answer);
            if e.eventId.Some? && e.aggregate.Some? && e.eventType in {"order.created", "order.confirmed", "order.status_changed"}
               && e.eventId.value !in db.inbox && answer != Aborts
            then
              && after.inbox == db.inbox + {e.eventId.value}
              && |after.notes| == |db.notes| + 1 && after.notes[..|db.notes|] == db.notes
              && var note := after.notes[|db.notes|];
                 && note.eventId == e.eventId.value && note.order == e.aggregate.value
                 && note.eventType == e.eventType && note.correlation == e.correlation
                 && (e.eventType == "order.created" ==> note.message == "Заказ создан и ожидает подтверждения")
                 && (e.eventType == "order.confirmed" ==> note.message == "Заказ подтверждён")
                 && (e.eventType == "order.status_changed" ==> note.message == "Статус заказа изменился")
            else after == db
    ensures HandleTx(db, None, answer) == db
  {
  }

  /** When a call reports success: on a complete event that is unsupported, or whose transaction is answered, new or not. */
  lemma HandleReports(decoded: Option<Envelope>, answer: Answer)
    ensures decoded == None ==> !HandleOk(decoded, answer)
    ensures decoded.Some? ==>
              var e := decoded.value;
              HandleOk(decoded, answer) <==>
                && e.eventId.Some? && e.aggregate.Some? && e.eventType != ""
                && (e.eventType in {"order.created", "order.confirmed", "order.status_changed"} ==> answer == Commits)
  {
  }

  class NotificationDb {
    var inbox: set<Id>
    var notes: seq<Note>

    ghost function View(): Tables
      reads this
    {
      Tables(inbox, notes)
    }

    /** `handle`: statement by statement; a rolled-back transaction restores both tables. */
    method Handle(decoded: Option<Envelope>, answer: Answer) returns (recorded: bool, ok: bool)
      modifies this
      ensures View() == HandleTx(old(View()), decoded, answer)
      ensures ok == HandleOk(decoded, answer)
      ensures recorded <==> ok && |notes| == |old(notes)| + 1
    {
      if decoded.None? {
        return false, false;
      }
      var envelope := decoded.value;
      if envelope.eventId.None? || envelope.aggregate.None? || envelope.eventType == "" {
        return false, false;
      }
      var message := MessageFor(envelope.eventType);
      if message.None? {
        return false, true;
      }
      var beganInbox, beganNotes := inbox, notes;
      var affected := envelope.eventId.value !in inbox;
      inbox := inbox + {envelope.eventId.value};
      if !affected {
        return false, answer == Commits;
      }
      notes := notes + [Note(envelope.eventId.value, envelope.aggregate.value, envelope.eventType, message.value, envelope.correlation)];
      if answer == Aborts {
        inbox, notes := beganInbox, beganNotes;
      }
      return answer == Commits, answer == Commits;
    }
  }
}
