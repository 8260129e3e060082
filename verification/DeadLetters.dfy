/** Bounded retries, dead letters, and the replay tool. */
module DeadLetters {
  import opened Prelude
  import opened Outbox
  import Base64

  const MAX_ATTEMPTS := 3
  const SUFFIX := ".dlq"

  datatype Message = Message(topic: string, partition: nat, offset: nat, key: Bytes, value: Bytes)

  datatype Letter = Letter(
    sourceTopic: string, sourcePartition: nat, sourceOffset: nat, consumer: string, attempts: nat,
    reason: string, failedAt: int, original: string)

  /** A record of a DLQ topic; its JSON value is taken as the letter itself. */
  datatype Posted = Posted(topic: string, key: Bytes, letter: Letter)

  datatype Decoded = Restored(topic: string, value: Bytes) | BlankTopic | DlqTopic | BadBase64

  function DLQTopic(topic: string): string {
    topic + SUFFIX
  }

  predicate IsDlq(topic: string) {
    |topic| >= |SUFFIX| && topic[|topic| - |SUFFIX|..] == SUFFIX
  }

  /** White space as `strings.TrimSpace` sees it. */
  predicate IsSpace(c: char) {
    var n := c as int;
    || 0x09 <= n <= 0x0D || n == 0x20 || n == 0x85 || n == 0xA0 || n == 0x1680 || 0x2000 <= n <= 0x200A
    || n == 0x2028 || n == 0x2029 || n == 0x202F || n == 0x205F || n == 0x3000
  }

  predicate IsBlank(topic: string) {
    forall i :: 0 <= i < |topic| ==> IsSpace(topic[i])
  }

  function LetterFor(m: Message, consumer: string, reason: string, failedAt: int): Letter {
    Letter(m.topic, m.partition, m.offset, consumer, MAX_ATTEMPTS, reason, failedAt, Base64.Encode(m.value))
  }

  function Post(m: Message, consumer: string, reason: string, failedAt: int): Posted {
    Posted(DLQTopic(m.topic), m.key, LetterFor(m, consumer, reason, failedAt))
  }

  /** `DecodeDeadLetter` after the JSON step. */
  function DecodeLetter(letter: Letter): Decoded {
    if IsBlank(letter.sourceTopic) then BlankTopic
    else if IsDlq(letter.sourceTopic) then DlqTopic
    else
      var value := Base64.Decode(letter.original);
      if value.None? then BadBase64 else Restored(letter.sourceTopic, value.value)
  }

  /** DLQ topics are exactly those with the suffix; a topic of ASCII white space is blank, one with a letter, digit or dot is not. */
  lemma TopicNames(topic: string)
    ensures IsDlq(topic) <==> exists base: string :: topic == base + ".dlq"
    ensures (forall i :: 0 <= i < |topic| ==> topic[i] in {' ', '\t', '\n', '\r'}) ==> IsBlank(topic)
    ensures forall i :: 0 <= i < |topic| && '!' <= topic[i] <= '~' ==> !IsBlank(topic)
  {
    if IsDlq(topic) {
      assert topic == topic[..|topic| - 4] + ".dlq";
    }
    if base: string :| topic == base + ".dlq" {
      assert topic[|topic| - 4..] == ".dlq";
    }
  }

  /** A dead letter restores topic and value bytes of its record, whatever they are, exactly when the topic is
      neither blank nor itself a DLQ topic; otherwise it is refused for that reason. */
  lemma {:induction false} DeadLettersAreLossless(m: Message, consumer: string, reason: string, failedAt: int)
    ensures DecodeLetter(LetterFor(m, consumer, reason, failedAt)) == Restored(m.topic, m.value) <==> !IsBlank(m.topic) && !IsDlq(m.topic)
    ensures IsBlank(m.topic) ==> DecodeLetter(LetterFor(m, consumer, reason, failedAt)) == BlankTopic
    ensures !IsBlank(m.topic) && IsDlq(m.topic) ==> DecodeLetter(LetterFor(m, consumer, reason, failedAt)) == DlqTopic
  {
    Base64.RoundTrip(m.value);
  }

  /** Whatever letter is read, a replay never targets a DLQ topic. */
  lemma ReplayNeverTargetsADlq(letter: Letter)
    ensures DecodeLetter(letter).Restored? ==> !IsDlq(DecodeLetter(letter).topic) && DecodeLetter(letter).topic == letter.sourceTopic
  {
  }

  /** What a dead letter tells: the DLQ topic is the source topic with the suffix, the key is kept, and the letter names
      where the record came from, who gave it up after three attempts, why and when. */
  lemma LetterTellsItsRecord(m: Message, consumer: string, reason: string, failedAt: int)
    ensures var p := Post(m, consumer, reason, failedAt);
            && p.topic == m.topic + ".dlq" && p.key == m.key
            && p.letter.sourceTopic == m.topic && p.letter.sourcePartition == m.partition && p.letter.sourceOffset == m.offset
            && p.letter.consumer == consumer && p.letter.attempts == 3 && p.letter.reason == reason && p.letter.failedAt == failedAt
            && Base64.Decode(p.letter.original) == Some(m.value)
  {
    Base64.RoundTrip(m.value);
  }

  // ------------------------------------------------------------------ ProcessWithPublisher

  datatype Outcome = Processed | DeadLettered | Stopped

  /** What Kafka does with one DLQ produce. */
  datatype Publish = Acked | AckLost | NotSent

  /** The number of the first successful handler call, or MAX_ATTEMPTS. */
  function FirstSuccess(handles: seq<bool>): (n: nat)
    requires |handles| == MAX_ATTEMPTS
    ensures n <= MAX_ATTEMPTS
    ensures forall i :: 0 <= i < n ==> !handles[i]
    ensures n < MAX_ATTEMPTS ==> handles[n]
  {
    if handles[0] then 0 else if handles[1] then 1 else if handles[2] then 2 else 3
  }

  /** The number of the first acknowledged publish call, or all of them. */
  function FirstAck(publishes: seq<Publish>): (n: nat)
    ensures n <= |publishes|
    ensures forall i :: 0 <= i < n ==> publishes[i] != Acked
    ensures n < |publishes| ==> publishes[n] == Acked
  {
    if publishes == [] || publishes[0] == Acked then 0 else 1 + FirstAck(publishes[1..])
  }

  /** How many of the first `n` publish calls reach the DLQ topic. */
  function Sent(publishes: seq<Publish>, n: nat): nat {
    if n == 0 then 0
    else Sent(publishes, n - 1) + if n <= |publishes| && publishes[n - 1] != NotSent then 1 else 0
  }

  /** `ProcessWithPublisher`. `handles` and `publishes` are the answers of handler and publisher; after `sleeps`
      completed pauses the context is cancelled, so every finite run is covered. Produced dead letters are returned
      whether or not their acknowledgement arrived. */
  method Process(m: Message, consumer: string, reason: string, failedAt: int,
                 handles: seq<bool>, publishes: seq<Publish>, sleeps: nat)
    returns (outcome: Outcome, calls: nat, posted: seq<Posted>)
    requires |handles| == MAX_ATTEMPTS
    ensures 1 <= calls <= MAX_ATTEMPTS
    ensures outcome == Processed <==> FirstSuccess(handles) < MAX_ATTEMPTS && FirstSuccess(handles) <= sleeps
    ensures outcome == Processed ==> calls == FirstSuccess(handles) + 1 && posted == []
    ensures outcome == DeadLettered <==>
              FirstSuccess(handles) == MAX_ATTEMPTS && FirstAck(publishes) < |publishes| && MAX_ATTEMPTS - 1 + FirstAck(publishes) <= sleeps
    ensures outcome == DeadLettered ==> calls == 3 && posted != [] && |posted| == Sent(publishes, FirstAck(publishes) + 1)
    ensures outcome == Stopped ==> calls == if sleeps < 2 then sleeps + 1 else 3
    ensures outcome == Stopped ==> |posted| == if sleeps < 2 then 0 else Sent(publishes, sleeps - 1)
    ensures forall i :: 0 <= i < |posted| ==> posted[i] == Post(m, consumer, reason, failedAt)
  {
    outcome, calls, posted := Stopped, 0, [];
    var left := sleeps;
    while calls < MAX_ATTEMPTS
      invariant calls <= MAX_ATTEMPTS && outcome == Stopped && posted == []
      invariant calls <= FirstSuccess(handles)
      invariant calls < MAX_ATTEMPTS ==> left == sleeps - calls
      invariant calls == MAX_ATTEMPTS ==> left == sleeps - 2
      decreases MAX_ATTEMPTS - calls
    {
      calls := calls + 1;
      if handles[calls - 1] {
        outcome := Processed;
        return;
      }
      if calls == MAX_ATTEMPTS {
        break;
      }
      if left == 0 {
        return;
      }
      left := left - 1;
    }
    var letter := LetterFor(m, consumer, reason, failedAt);
    var attempt := 0;
    while true
      invariant outcome == Stopped && calls == MAX_ATTEMPTS == FirstSuccess(handles)
      invariant attempt <= FirstAck(publishes) || FirstAck(publishes) == |publishes|
      invariant left == sleeps - (MAX_ATTEMPTS - 1) - attempt && |posted| == Sent(publishes, attempt)
      invariant forall i :: 0 <= i < |posted| ==> posted[i] == Post(m, consumer, reason, failedAt)
      decreases left
    {
      var answer := if attempt < |publishes| then publishes[attempt] else NotSent;
      if answer != NotSent {
        posted := posted + [Posted(DLQTopic(m.topic), m.key, letter)];
      }
      if answer == Acked {
        outcome := DeadLettered;
        return;
      }
      if left == 0 {
        return;
      }
      left, attempt := left - 1, attempt + 1;
    }
  }

  // ------------------------------------------------------------------ dlq-replay

  datatype Config = Config(topic: string, limit: int, execute: bool, confirm: string, timeout: int)

  datatype ConfigFault = BadTopic | BadLimit | BadTimeout | NotConfirmed | NeedlessConfirm

  /** `config.validate`: the tool writes only with both explicit flags. */
  function Validate(c: Config): (fault: Option<ConfigFault>)
    ensures fault.None? <==>
              && IsDlq(c.topic) && c.topic != SUFFIX && c.limit > 0 && c.timeout > 0
              && (c.execute <==> c.confirm == "REPLAY") && (!c.execute ==> c.confirm == "")
    ensures fault == Some(BadTopic) <==> !IsDlq(c.topic) || c.topic == ".dlq"
    ensures fault == Some(BadLimit) ==> c.limit <= 0
    ensures fault == Some(BadTimeout) ==> c.timeout <= 0 < c.limit
    ensures fault == Some(NotConfirmed) ==> c.execute && c.confirm != "REPLAY"
    ensures fault == Some(NeedlessConfirm) ==> !c.execute && c.confirm != ""
  {
    if !IsDlq(c.topic) || c.topic == SUFFIX then Some(BadTopic)
    else if c.limit <= 0 then Some(BadLimit)
    else if c.timeout <= 0 then Some(BadTimeout)
    else if c.execute && c.confirm != "REPLAY" then Some(NotConfirmed)
    else if !c.execute && c.confirm != "" then Some(NeedlessConfirm)
    else None
  }

  datatype Replayed = Replayed(topic: string, key: Bytes, value: Bytes)

  datatype Ending = LimitReached | TimedOut | InvalidLetter | ProduceFailed | CommitFailed

  ghost predicate Restorable(p: Posted, r: Replayed) {
    DecodeLetter(p.letter) == Restored(r.topic, r.value) && r.key == p.key
  }

  /** One polled record may be replayed, inspected, or end the run: whether Kafka accepts its produce and its commit. */
  datatype Answer = Answer(produced: bool, committed: bool)

  /** The record gets through: its letter decodes and, in a real run, it is produced and its offset committed. */
  ghost predicate Passes(execute: bool, p: Posted, a: Answer) {
    DecodeLetter(p.letter).Restored? && (execute ==> a.produced && a.committed)
  }

  /** Why the run ends, given the first record that has not got through, if there is one. */
  ghost predicate EndsWith(config: Config, letters: seq<Posted>, said: seq<Answer>, processed: nat, ending: Ending)
    requires |said| == |letters|
  {
    match ending
    case LimitReached => processed == config.limit <= |letters|
    case TimedOut => processed == |letters| < config.limit
    case InvalidLetter => processed < |letters| && processed < config.limit && !DecodeLetter(letters[processed].letter).Restored?
    case ProduceFailed =>
      && processed < |letters| && processed < config.limit && config.execute
      && DecodeLetter(letters[processed].letter).Restored? && !said[processed].produced
    case CommitFailed =>
      && processed < |letters| && processed < config.limit && config.execute
      && DecodeLetter(letters[processed].letter).Restored? && said[processed].produced && !said[processed].committed
  }

  /** What has been written and counted so far. */
  ghost predicate Replays(execute: bool, letters: seq<Posted>, said: seq<Answer>, processed: nat, out: seq<Replayed>) {
    && processed <= |letters| == |said| && |out| == (if execute then processed else 0)
    && (forall k :: 0 <= k < processed ==> Passes(execute, letters[k], said[k]))
    && (forall k :: 0 <= k < |out| ==> Restorable(letters[k], out[k]))
  }

  lemma ReplaysOneMore(execute: bool, letters: seq<Posted>, said: seq<Answer>, processed: nat, out: seq<Replayed>, written: seq<Replayed>)
    requires Replays(execute, letters, said, processed, out) && processed < |letters|
    requires Passes(execute, letters[processed], said[processed])
    requires |written| == (if execute then 1 else 0) && forall r :: r in written ==> Restorable(letters[processed], r)
    ensures Replays(execute, letters, said, processed + 1, out + written)
  {
  }

  /** The callback of `consume`: decode, and in a real run produce and commit. */
  method ReplayRecord(execute: bool, p: Posted, a: Answer) returns (written: seq<Replayed>, failed: Option<Ending>)
    ensures |written| == if execute && DecodeLetter(p.letter).Restored? && a.produced then 1 else 0
    ensures forall r :: r in written ==> Restorable(p, r)
    ensures failed == None <==> Passes(execute, p, a)
    ensures failed == Some(InvalidLetter) <==> !DecodeLetter(p.letter).Restored?
    ensures failed == Some(ProduceFailed) <==> execute && DecodeLetter(p.letter).Restored? && !a.produced
    ensures failed == Some(CommitFailed) <==> execute && DecodeLetter(p.letter).Restored? && a.produced && !a.committed
  {
    written, failed := [], None;
    var decoded := DecodeLetter(p.letter);
    if !decoded.Restored? {
      failed := Some(InvalidLetter);
      return;
    }
    if execute {
      if !a.produced {
        failed := Some(ProduceFailed);
        return;
      }
      written := [Replayed(decoded.topic, p.key, decoded.value)];
      if !a.committed {
        failed := Some(CommitFailed);
      }
    }
  }

  /** `consume`: polls bring batches of DLQ records until the limit or the timeout (no more batches). The records that get
      through, the written ones and the ending are all determined by the polled records and Kafka's answers. */
  method Consume(config: Config, polls: seq<seq<Posted>>, answers: seq<seq<Answer>>)
    returns (out: seq<Replayed>, processed: nat, ending: Ending)
    requires Validate(config).None?
    requires |answers| == |polls| && forall b :: 0 <= b < |polls| ==> |answers[b]| == |polls[b]|
    ensures |Flat(answers)| == |Flat(polls)| && processed <= |Flat(polls)|
    ensures forall k :: 0 <= k < processed ==> Passes(config.execute, Flat(polls)[k], Flat(answers)[k])
    ensures EndsWith(config, Flat(polls), Flat(answers), processed, ending)
    ensures |out| == if !config.execute then 0 else if ending == CommitFailed then processed + 1 else processed
    ensures |out| <= |Flat(polls)| && forall k :: 0 <= k < |out| ==> Restorable(Flat(polls)[k], out[k])
  {
    out, processed, ending := [], 0, TimedOut;
    ghost var letters, said := Flat(polls), Flat(answers);
    var b := 0;
    assert polls[..0] == [];
    FlatLengths(polls, answers);
    while processed < config.limit
      invariant b <= |polls| && processed <= config.limit
      invariant processed < config.limit ==> processed == |Flat(polls[..b])|
      invariant Replays(config.execute, letters, said, processed, out)
      decreases |polls| - b
    {
      if b == |polls| {
        assert polls[..b] == polls;
        return;
      }
      ghost var seen := |Flat(polls[..b])|;
      FlatNext(polls, b);
      for i := 0 to |polls[b]|
        invariant processed <= config.limit
        invariant processed < config.limit ==> processed == seen + i
        invariant Replays(config.execute, letters, said, processed, out)
      {
        if processed >= config.limit {
          continue;
        }
        FlatAt(polls, answers, b, i);
        var written, failed := ReplayRecord(config.execute, polls[b][i], answers[b][i]);
        if failed.Some? {
          out, ending := out + written, failed.value;
          return;
        }
        ReplaysOneMore(config.execute, letters, said, processed, out, written);
        out, processed := out + written, processed + 1;
      }
      b := b + 1;
    }
    ending := LimitReached;
  }

  /** All polled records, or all answers, in order. */
  ghost function Flat<T>(polls: seq<seq<T>>): seq<T> {
    if polls == [] then [] else Flat(polls[..|polls| - 1]) + polls[|polls| - 1]
  }

  lemma FlatNext<T>(polls: seq<seq<T>>, b: nat)
    requires b < |polls|
    ensures Flat(polls[..b + 1]) == Flat(polls[..b]) + polls[b]
    ensures Flat(polls[..b + 1]) <= Flat(polls)
  {
    assert polls[..b + 1][..b] == polls[..b];
    FlatPrefix(polls, b + 1);
  }

  lemma {:induction false} FlatPrefix<T>(polls: seq<seq<T>>, b: nat)
    requires b <= |polls|
    ensures Flat(polls[..b]) <= Flat(polls)
    decreases |polls| - b
  {
    if b < |polls| {
      FlatPrefix(polls, b + 1);
      assert polls[..b + 1][..b] == polls[..b];
    } else {
      assert polls[..b] == polls;
    }
  }

  lemma {:induction false} FlatLengths<T, U>(polls: seq<seq<T>>, answers: seq<seq<U>>)
    requires |answers| == |polls| && forall b :: 0 <= b < |polls| ==> |answers[b]| == |polls[b]|
    ensures |Flat(answers)| == |Flat(polls)|
  {
    if polls != [] {
      FlatLengths(polls[..|polls| - 1], answers[..|polls| - 1]);
    }
  }

  /** Where record `i` of batch `b` and its answer stand. */
  lemma FlatAt(polls: seq<seq<Posted>>, answers: seq<seq<Answer>>, b: nat, i: nat)
    requires |answers| == |polls| && forall c :: 0 <= c < |polls| ==> |answers[c]| == |polls[c]|
    requires b < |polls| && i < |polls[b]|
    ensures |Flat(answers)| == |Flat(polls)| && |Flat(polls[..b])| + i < |Flat(polls)|
    ensures Flat(polls)[|Flat(polls[..b])| + i] == polls[b][i]
    ensures Flat(answers)[|Flat(polls[..b])| + i] == answers[b][i]
  {
    FlatNext(polls, b);
    FlatNext(answers, b);
    FlatLengths(polls, answers);
    FlatLengths(polls[..b], answers[..b]);
  }
}
