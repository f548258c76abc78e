/** The sequenced, checksummed record stream that the board emits once its result is complete. */
module RecordStream {
  import opened Prelude
  import opened Binary

  const WORD_SIZE := 0x1_0000_0000
  const RECORD_BUFFER_BYTES := 768
  const INTERVAL_COUNT := 200
  const NEWLINE: Byte := 10

  /** A 32-bit unsigned integer, whose additions wrap around. */
  type Word = w: nat | w < WORD_SIZE

  type Record = seq<Byte>

  /** The n-th number after `first`, as a wrapping 32-bit counter counts. */
  function Number(first: Word, n: nat): Word {
    (first + n) % WORD_SIZE
  }

  lemma NumberOfNumber(first: Word, m: nat, n: nat)
    ensures Number(Number(first, m), n) == Number(first, m + n)
  {
  }

  // ---------- the checksum ----------

  /** The checksum of some bytes, by any byte-at-a-time update. */
  function Crc(update: (Word, Byte) -> Word, crc: Word, bytes: seq<Byte>): Word
    decreases |bytes|
  {
    if bytes == [] then crc else Crc(update, update(crc, bytes[0]), bytes[1..])
  }

  lemma {:induction false} CrcConcat(update: (Word, Byte) -> Word, crc: Word, a: seq<Byte>, b: seq<Byte>)
    ensures Crc(update, crc, a + b) == Crc(update, Crc(update, crc, a), b)
    decreases |a|
  {
    if a == [] {
      assert a + b == b;
    } else {
      assert (a + b)[1..] == a[1..] + b;
      CrcConcat(update, update(crc, a[0]), a[1..], b);
    }
  }

  /** The text a receiver sees: every record followed by a newline. */
  function Lines(records: seq<Record>): seq<Byte> {
    if records == [] then [] else Lines(records[..|records| - 1]) + records[|records| - 1] + [NEWLINE]
  }

  lemma {:induction false} LinesConcat(a: seq<Record>, b: seq<Record>)
    ensures Lines(a + b) == Lines(a) + Lines(b)
    decreases |b|
  {
    if b == [] {
      assert a + b == a;
    } else {
      assert (a + b)[..|a + b| - 1] == a + b[..|b| - 1];
      LinesConcat(a, b[..|b| - 1]);
    }
  }

  // ---------- the records ----------

  datatype Item = WindowStart | Sample(index: nat) | WindowEnd | Task(index: nat) | AllocationFailures

  function Samples(n: nat): (s: seq<Item>) {
    seq(n, i requires 0 <= i => Sample(i))
  }

  function Tasks(n: nat): (s: seq<Item>) {
    seq(n, i requires 0 <= i => Task(i))
  }

  /** All the records of a result with this many tasks, in order. */
  function Items(taskCount: nat): (items: seq<Item>)
    ensures |items| == 1 + INTERVAL_COUNT + 1 + taskCount + 1
  {
    [WindowStart] + Samples(INTERVAL_COUNT) + [WindowEnd] + Tasks(taskCount) + [AllocationFailures]
  }

  /** The record at a position of the stream. */
  function ItemAt(taskCount: nat, i: nat): Item {
    if i == 0 then WindowStart
    else if i <= 200 then Sample(i - 1)
    else if i == 201 then WindowEnd
    else if i < 202 + taskCount then Task(i - 202)
    else AllocationFailures
  }

  lemma ItemsInOrder(taskCount: nat)
    ensures |Items(taskCount)| == taskCount + 203
    ensures forall i :: 0 <= i < |Items(taskCount)| ==> Items(taskCount)[i] == ItemAt(taskCount, i)
  {
  }

  /** The text of an item, or None when snprintf reports an encoding error. */
  type Format = (Item, string, Word) -> Option<Record>

  function Text(format: Format, token: string, items: seq<Item>, first: Word, i: nat): Option<Record>
    requires i < |items|
  {
    format(items[i], token, Number(first, i))
  }

  predicate Fits(text: Option<Record>) {
    text.Some? && |text.value| < RECORD_BUFFER_BYTES
  }

  /** What the caller's sink answers, given every record offered to it before. */
  type Policy = (seq<Record>, Record) -> bool

  /** Where emission starts: the stream's three counters and the sink's two logs. */
  datatype Origin = Origin(number: Word, count: Word, crc: Word, offered: seq<Record>, received: seq<Record>)

  /** The records are the first ones of the list, the i-th carrying sequence number first + i, all accepted. */
  ghost predicate AreSent(sent: seq<Record>, format: Format, token: string, items: seq<Item>, start: Origin,
                          accepts: Policy)
  {
    && |sent| <= |items|
    && (forall i :: 0 <= i < |sent| ==>
          (Fits(Text(format, token, items, start.number, i)) &&
            sent[i] == Text(format, token, items, start.number, i).value))
    && (forall i :: 0 <= i < |sent| ==> accepts(start.offered + sent[..i], sent[i]))
  }

  /** The next record does not fit, or the sink refuses it. */
  ghost predicate IsStuck(sent: seq<Record>, format: Format, token: string, items: seq<Item>, start: Origin,
                          accepts: Policy)
  {
    && |sent| < |items|
    && (var text := Text(format, token, items, start.number, |sent|);
        Fits(text) ==> !accepts(start.offered + sent, text.value))
  }

  // ---------- the stream and its sink ----------

  class Stream {
    var nextRecordSeq: Word
    var recordCount: Word
    var crc32: Word

    constructor (nextRecordSeq: Word, recordCount: Word, crc32: Word)
      ensures this.nextRecordSeq == nextRecordSeq && this.recordCount == recordCount && this.crc32 == crc32
    {
      this.nextRecordSeq, this.recordCount, this.crc32 := nextRecordSeq, recordCount, crc32;
    }
  }

  /** The caller's sink, which may accept or refuse each record as it likes. */
  class Sink {
    const accepts: Policy
    var offered: seq<Record>
    var received: seq<Record>

    constructor (accepts: Policy)
      ensures this.accepts == accepts && offered == [] && received == []
    {
      this.accepts, offered, received := accepts, [], [];
    }

    method Send(record: Record) returns (ok: bool)
      modifies this
      ensures ok == accepts(old(offered), record)
      ensures offered == old(offered) + [record]
      ensures received == if ok then old(received) + [record] else old(received)
    {
      ok := accepts(offered, record);
      offered := offered + [record];
      if ok {
        received := received + [record];
      }
    }
  }

  datatype Status = Ok | Fail | InvalidArg | InvalidState

  predicate IsTokenChar(c: char) {
    'a' <= c <= 'z' || 'A' <= c <= 'Z' || '0' <= c <= '9' || c == '-' || c == '_' || c == '.'
  }

  predicate IsRunToken(token: Option<string>) {
    token.Some? && 1 <= |token.value| <= 64 && forall c :: c in token.value ==> IsTokenChar(c)
  }

  /** The ASCII codes of letters, digits, dash, dot and underscore. */
  predicate IsNameCode(code: int) {
    97 <= code <= 122 || 65 <= code <= 90 || 48 <= code <= 57 || code == 45 || code == 46 || code == 95
  }

  method ValidRunToken(token: Option<string>) returns (valid: bool)
    ensures valid == IsRunToken(token)
    ensures valid <==> token.Some? && 1 <= |token.value| <= 64 && forall c :: c in token.value ==> IsNameCode(c as int)
  {
    if token.None? { return false; }
    var length := |token.value|;
    if length == 0 || length > 64 { return false; }
    for i := 0 to length
      invariant forall k :: 0 <= k < i ==> IsTokenChar(token.value[k])
    {
      if !IsTokenChar(token.value[i]) { return false; }
    }
    return true;
  }

  /** Sends one record; only an accepted one moves the counters and the checksum. */
  method EmitRecord(update: (Word, Byte) -> Word, stream: Stream, sink: Sink, text: Option<Record>) returns (ok: bool)
    modifies stream, sink
    ensures ok == (Fits(text) && sink.accepts(old(sink.offered), text.value))
    ensures sink.offered == if Fits(text) then old(sink.offered) + [text.value] else old(sink.offered)
    ensures sink.received == if ok then old(sink.received) + [text.value] else old(sink.received)
    ensures !ok ==> unchanged(stream)
    ensures ok ==> stream.nextRecordSeq == Number(old(stream.nextRecordSeq), 1)
    ensures ok ==> stream.recordCount == Number(old(stream.recordCount), 1)
    ensures ok ==> stream.crc32 == Crc(update, old(stream.crc32), text.value + [NEWLINE])
    ensures ok == (text.Some? && |text.value| < 768 && sink.accepts(old(sink.offered), text.value))
    ensures ok ==> stream.nextRecordSeq == (old(stream.nextRecordSeq) + 1) % 0x1_0000_0000
    ensures ok ==> stream.crc32 == Crc(update, old(stream.crc32), text.value + [10])
  {
    if text.None? || |text.value| >= RECORD_BUFFER_BYTES { return false; }
    ok := sink.Send(text.value);
    if !ok { return false; }
    CrcConcat(update, stream.crc32, text.value, [NEWLINE]);
    stream.crc32 := Crc(update, stream.crc32, text.value);
    stream.crc32 := update(stream.crc32, NEWLINE);
    stream.nextRecordSeq := (stream.nextRecordSeq + 1) % WORD_SIZE;
    stream.recordCount := (stream.recordCount + 1) % WORD_SIZE;
  }

  function Now(stream: Stream, sink: Sink): Origin
    reads stream, sink
  {
    Origin(stream.nextRecordSeq, stream.recordCount, stream.crc32, sink.offered, sink.received)
  }

  /** The state after the records `sent` have been accepted and nothing else has happened. */
  function After(update: (Word, Byte) -> Word, start: Origin, sent: seq<Record>): Origin {
    Origin(Number(start.number, |sent|), Number(start.count, |sent|), Crc(update, start.crc, Lines(sent)),
           start.offered + sent, start.received + sent)
  }

  /** The state after a record that was not accepted: it was offered if it fits, and nothing else changed. */
  function Refused(now: Origin, text: Option<Record>): Origin {
    if Fits(text) then now.(offered := now.offered + [text.value]) else now
  }

  /** The state in which an emission leaves stream and sink. */
  function Final(format: Format, update: (Word, Byte) -> Word, token: string, items: seq<Item>, start: Origin,
                 sent: seq<Record>, status: Status): Origin
  {
    var now := After(update, start, sent);
    if status == Fail && |sent| < |items| then Refused(now, Text(format, token, items, start.number, |sent|)) else now
  }

  /** How an emission may end: everything sent, or stopped at the first record that cannot be. */
  ghost predicate EndsWith(format: Format, token: string, items: seq<Item>, start: Origin, accepts: Policy,
                           sent: seq<Record>, status: Status)
  {
    && AreSent(sent, format, token, items, start, accepts)
    && (if status == Ok then |sent| == |items|
        else status == Fail && IsStuck(sent, format, token, items, start, accepts))
  }

  /** A later emission continues the earlier one's numbers, count and checksum without a seam. */
  lemma EmissionsChain(update: (Word, Byte) -> Word, start: Origin, first: seq<Record>, second: seq<Record>)
    ensures After(update, After(update, start, first), second) == After(update, start, first + second)
  {
    hide Crc, Lines, Number;
    NumberOfNumber(start.number, |first|, |second|);
    NumberOfNumber(start.count, |first|, |second|);
    LinesConcat(first, second);
    CrcConcat(update, start.crc, Lines(first), Lines(second));
    assert start.offered + first + second == start.offered + (first + second);
    assert start.received + first + second == start.received + (first + second);
  }

  lemma OneMoreSent(sent: seq<Record>, record: Record, format: Format, token: string, items: seq<Item>,
                    start: Origin, accepts: Policy)
    requires AreSent(sent, format, token, items, start, accepts) && |sent| < |items|
    requires Text(format, token, items, start.number, |sent|) == Some(record) && |record| < RECORD_BUFFER_BYTES
    requires accepts(start.offered + sent, record)
    ensures AreSent(sent + [record], format, token, items, start, accepts)
  {
    hide Text;
    var more := sent + [record];
    assert more[..|sent|] == sent;
    forall i | 0 <= i < |sent| ensures accepts(start.offered + more[..i], more[i]) {
      assert more[..i] == sent[..i];
    }
  }

  lemma {:induction false} AfterOneMore(update: (Word, Byte) -> Word, start: Origin, sent: seq<Record>, record: Record)
    ensures var now := After(update, start, sent);
      After(update, start, sent + [record])
        == Origin(Number(now.number, 1), Number(now.count, 1), Crc(update, now.crc, record + [NEWLINE]),
                  now.offered + [record], now.received + [record])
  {
    EmissionsChain(update, start, sent, [record]);
    assert [record][..0] == [];
    assert Lines([]) + record + [NEWLINE] == record + [NEWLINE];
    assert Lines([record]) == record + [NEWLINE];
  }

  /** Sends the next item of the list. */
  method EmitNext(format: Format, update: (Word, Byte) -> Word, token: string, item: Item, stream: Stream, sink: Sink,
                  ghost items: seq<Item>, ghost start: Origin, ghost sent: seq<Record>)
    returns (ok: bool, ghost more: seq<Record>)
    requires |sent| < |items| && items[|sent|] == item
    requires AreSent(sent, format, token, items, start, sink.accepts) && Now(stream, sink) == After(update, start, sent)
    modifies stream, sink
    ensures AreSent(more, format, token, items, start, sink.accepts)
    ensures ok ==> |more| == |sent| + 1 && Now(stream, sink) == After(update, start, more)
    ensures !ok ==> more == sent && IsStuck(sent, format, token, items, start, sink.accepts)
    ensures !ok ==>
        Now(stream, sink) == Refused(After(update, start, sent), Text(format, token, items, start.number, |sent|))
  {
    hide Number, Crc, Lines, AreSent;
    var text := format(item, token, stream.nextRecordSeq);
    assert text == Text(format, token, items, start.number, |sent|);
    ok := EmitRecord(update, stream, sink, text);
    more := sent;
    if ok {
      more := sent + [text.value];
      OneMoreSent(sent, text.value, format, token, items, start, sink.accepts);
      AfterOneMore(update, start, sent, text.value);
    }
  }

  /** The i-th record sent is the text of the i-th item, with the i-th number of a wrapping counter. */
  ghost predicate AreInOrder(sent: seq<Record>, format: Format, token: string, taskCount: nat, first: Word) {
    forall i :: 0 <= i < |sent| ==>
      format(ItemAt(taskCount, i), token, (first + i) % 0x1_0000_0000) == Some(sent[i])
  }

  lemma SentInOrder(sent: seq<Record>, format: Format, token: string, taskCount: nat, start: Origin, accepts: Policy)
    requires AreSent(sent, format, token, Items(taskCount), start, accepts)
    ensures |sent| <= taskCount + 203 && AreInOrder(sent, format, token, taskCount, start.number)
  {
    ItemsInOrder(taskCount);
    hide Items;
    forall i | 0 <= i < |sent|
      ensures format(ItemAt(taskCount, i), token, (start.number + i) % 0x1_0000_0000) == Some(sent[i])
    {
      assert Fits(Text(format, token, Items(taskCount), start.number, i));
    }
  }

  /**
   * Emits the whole result. Whatever the sink does, the accepted records are a prefix of the
   * list, numbered consecutively, and the counters and checksum account for exactly those.
   */
  method EmitRecords(format: Format, update: (Word, Byte) -> Word, runToken: Option<string>, complete: bool,
                     taskCount: nat, stream: Stream?, sink: Sink?)
    returns (status: Status, ghost sent: seq<Record>)
    modifies stream, sink
    ensures status == InvalidArg <==> !IsRunToken(runToken) || stream == null || sink == null
    ensures status == InvalidState <==> IsRunToken(runToken) && stream != null && sink != null && !complete
    ensures status == InvalidArg && stream != null ==> unchanged(stream)
    ensures status == InvalidArg && sink != null ==> unchanged(sink)
    ensures status == InvalidState ==> unchanged(stream) && unchanged(sink)
    ensures status == Ok || status == Fail ==>
      EndsWith(format, runToken.value, Items(taskCount), old(Now(stream, sink)), sink.accepts, sent, status)
    ensures status == Ok || status == Fail ==>
      Now(stream, sink) == Final(format, update, runToken.value, Items(taskCount), old(Now(stream, sink)), sent, status)
    ensures status == Ok ==> |sent| == taskCount + 203
    ensures status == Ok || status == Fail ==>
      |sent| <= taskCount + 203 && AreInOrder(sent, format, runToken.value, taskCount, old(Now(stream, sink)).number)
  {
    sent := [];
    var valid := ValidRunToken(runToken);
    if !valid || stream == null || sink == null { return InvalidArg, sent; }
    if !complete { return InvalidState, sent; }
    var token := runToken.value;
    ghost var items := Items(taskCount);
    ghost var start := Now(stream, sink);
    assert start.offered + sent == start.offered && start.received + sent == start.received;
    var ok;
    ok, sent := EmitNext(format, update, token, WindowStart, stream, sink, items, start, sent);
    if !ok {
      SentInOrder(sent, format, token, taskCount, start, sink.accepts);
      return Fail, sent;
    }
    for i := 0 to INTERVAL_COUNT
      invariant |sent| == 1 + i
      invariant AreSent(sent, format, token, items, start, sink.accepts)
      invariant Now(stream, sink) == After(update, start, sent)
    {
      ok, sent := EmitNext(format, update, token, Sample(i), stream, sink, items, start, sent);
      if !ok {
        SentInOrder(sent, format, token, taskCount, start, sink.accepts);
        return Fail, sent;
      }
    }
    ok, sent := EmitNext(format, update, token, WindowEnd, stream, sink, items, start, sent);
    if !ok {
      SentInOrder(sent, format, token, taskCount, start, sink.accepts);
      return Fail, sent;
    }
    for i := 0 to taskCount
      invariant |sent| == 1 + INTERVAL_COUNT + 1 + i
      invariant AreSent(sent, format, token, items, start, sink.accepts)
      invariant Now(stream, sink) == After(update, start, sent)
    {
      ok, sent := EmitNext(format, update, token, Task(i), stream, sink, items, start, sent);
      if !ok {
        SentInOrder(sent, format, token, taskCount, start, sink.accepts);
        return Fail, sent;
      }
    }
    ok, sent := EmitNext(format, update, token, AllocationFailures, stream, sink, items, start, sent);
    if !ok {
      SentInOrder(sent, format, token, taskCount, start, sink.accepts);
      return Fail, sent;
    }
    SentInOrder(sent, format, token, taskCount, start, sink.accepts);
    return Ok, sent;
  }

  // ---------- what the contract of EmitRecords amounts to ----------

  lemma SentRecordsAgree(a: seq<Record>, b: seq<Record>, format: Format, token: string, items: seq<Item>,
                         start: Origin, accepts: Policy)
    requires AreSent(a, format, token, items, start, accepts) && AreSent(b, format, token, items, start, accepts)
    requires |a| <= |b|
    ensures a == b[..|a|]
  {
  }

  /** Nothing can be sent past a stuck record. */
  lemma StuckIsLongest(a: seq<Record>, b: seq<Record>, format: Format, token: string, items: seq<Item>,
                       start: Origin, accepts: Policy)
    requires AreSent(a, format, token, items, start, accepts) && AreSent(b, format, token, items, start, accepts)
    requires IsStuck(a, format, token, items, start, accepts)
    ensures |b| <= |a|
  {
    hide Text;
    if |a| < |b| {
      SentRecordsAgree(a, b, format, token, items, start, accepts);
    }
  }

  /** One sink, one starting state: there is only one way an emission can end. */
  lemma EmissionIsDetermined(format: Format, token: string, items: seq<Item>, start: Origin, accepts: Policy,
                             a: seq<Record>, endA: Status, b: seq<Record>, endB: Status)
    requires EndsWith(format, token, items, start, accepts, a, endA)
    requires EndsWith(format, token, items, start, accepts, b, endB)
    ensures a == b && endA == endB
  {
    hide Text;
    if endA == Fail { StuckIsLongest(a, b, format, token, items, start, accepts); }
    if endB == Fail { StuckIsLongest(b, a, format, token, items, start, accepts); }
    SentRecordsAgree(a, b, format, token, items, start, accepts);
  }

  /** No two of 2^32 consecutive records carry the same number, wrap-around included. */
  lemma NumbersAreDistinct(first: Word, i: nat, j: nat)
    requires i < j < i + WORD_SIZE
    ensures Number(first, i) != Number(first, j)
    ensures Number(Number(first, i), j - i) == Number(first, j)
  {
  }
}
