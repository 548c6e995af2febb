/** Splitting a market data packet into its messages. */
module PacketSplitter {
  import opened Bytes
  import opened Optional
  import opened PacketFrame
  import opened Sequences

  /** A two-byte size (which counts itself and the header) and an eight-byte header stand
      in front of every message body. */
  const PREFIX: nat := 10

  type Word = n: int | 0 <= n < 0x1_0000

  datatype Message = Message(block: Word, template: Word, schema: Word, version: Word, body: seq<byte>)

  datatype Kind = Supported | Dropped | Unknown

  /** The templates with a handler, and those that are skipped on purpose. */
  function KindOf(m: Message): Kind {
    var t := m.template;
    if 46 <= t <= 58 || 63 <= t <= 67 || t == 4 || t == 12 || t == 30 || t == 37 || t == 39 || t == 69 then Supported
    else if 59 <= t <= 62 || t == 16 || t == 68 then Dropped
    else Unknown
  }

  predicate IsKnown(m: Message) { KindOf(m) != Unknown }

  /** How the walk over the packet ends. `Malformed` covers the sizes for which the code
      throws or reads outside the packet: a remainder too short for the prefix, a size
      below the prefix, or one beyond the end. */
  datatype Verdict = Clean | UnknownTemplate | Malformed

  /** The messages met on the way, and the verdict. */
  datatype Walk = Walk(messages: seq<Message>, verdict: Verdict)

  predicate Readable(bytes: seq<byte>) {
    |bytes| >= PREFIX && PREFIX <= FromLittleEndian(bytes[0..2]) <= |bytes|
  }

  function ReadWord(bytes: seq<byte>, at: nat): Word
    requires at + 2 <= |bytes|
  {
    Capacities();
    FromLittleEndian(bytes[at..at + 2])
  }

  function ReadMessage(bytes: seq<byte>): Message
    requires Readable(bytes)
  {
    Message(ReadWord(bytes, 2), ReadWord(bytes, 4), ReadWord(bytes, 6), ReadWord(bytes, 8),
            bytes[PREFIX..FromLittleEndian(bytes[0..2])])
  }

  function Split(bytes: seq<byte>): Walk
    decreases |bytes|
  {
    if bytes == [] then Walk([], Clean)
    else if !Readable(bytes) then Walk([], Malformed)
    else if !IsKnown(ReadMessage(bytes)) then Walk([], UnknownTemplate)
    else After(ReadMessage(bytes), Split(bytes[FromLittleEndian(bytes[0..2])..]))
  }

  function After(m: Message, w: Walk): Walk { w.(messages := [m] + w.messages) }

  /** The messages handed to the handler: the supported ones, in order. */
  function Dispatched(ms: seq<Message>): seq<Message> {
    if ms == [] then []
    else (if KindOf(ms[0]) == Supported then [ms[0]] else []) + Dispatched(ms[1..])
  }

  // ---------- the code ----------

  /** Returns the dispatched messages, each with the packet's frame, and the result; a
      malformed packet is reported separately. */
  method Dispatch(packet: seq<byte>) returns (frame: Option<Frame>, out: seq<Message>, result: bool, malformed: bool)
    ensures frame == ParseFrame(packet)
    ensures frame.None? ==> out == [] && !result && !malformed
    ensures frame.Some? ==>
      var w := Split(packet[FRAME_SIZE..]);
      && out == Dispatched(w.messages)
      && result == w.verdict.Clean?
      && malformed == w.verdict.Malformed?
  {
    frame, out, result, malformed := ParseFrame(packet), [], false, false;
    if frame.Some? {
      out, result, malformed := WalkMessages(packet[FRAME_SIZE..]);
    }
  }

  /** The message loop. */
  method WalkMessages(bytes: seq<byte>) returns (out: seq<Message>, result: bool, malformed: bool)
    ensures var w := Split(bytes);
      && out == Dispatched(w.messages)
      && result == w.verdict.Clean?
      && malformed == w.verdict.Malformed?
  {
    out, result, malformed := [], true, false;
    var message := bytes;
    ghost var w := Split(bytes);
    while message != []
      invariant result && !malformed && Remains(w, out, message)
      decreases |message|
    {
      var verdict;
      out, message, verdict := TakeMessage(message, out, w);
      if verdict != Clean {
        return out, false, verdict == Malformed;
      }
    }
  }

  /** With `out` dispatched, the rest of the packet leads to the walk `w`. */
  ghost predicate Remains(w: Walk, out: seq<Message>, rest: seq<byte>) {
    w.verdict == Split(rest).verdict && Dispatched(w.messages) == out + Dispatched(Split(rest).messages)
  }

  method TakeMessage(bytes: seq<byte>, out: seq<Message>, ghost w: Walk)
    returns (out': seq<Message>, rest: seq<byte>, verdict: Verdict)
    requires bytes != [] && Remains(w, out, bytes)
    ensures verdict == Clean ==> |rest| < |bytes| && Remains(w, out', rest)
    ensures verdict != Clean ==> out' == Dispatched(w.messages) && w.verdict == verdict
  {
    var m;
    m, rest, verdict := NextMessage(bytes);
    out' := out;
    if verdict == Clean && KindOf(m) == Supported {
      Rebracket(out, [m], Dispatched(Split(rest).messages));
      out' := out + [m];
    } else if verdict == Clean {
      assert [] + Dispatched(Split(rest).messages) == Dispatched(Split(rest).messages);
    }
  }

  /** Size, header and body of the first message. */
  method NextMessage(bytes: seq<byte>) returns (m: Message, rest: seq<byte>, verdict: Verdict)
    requires bytes != []
    ensures verdict == Clean ==>
      && |rest| < |bytes|
      && Split(bytes).verdict == Split(rest).verdict
      && Dispatched(Split(bytes).messages)
         == (if KindOf(m) == Supported then [m] else []) + Dispatched(Split(rest).messages)
    ensures verdict != Clean ==> Split(bytes) == Walk([], verdict)
  {
    m, rest, verdict := Message(0, 0, 0, 0, []), bytes, Malformed;
    if Readable(bytes) {
      var size := FromLittleEndian(bytes[0..2]);
      m, rest := ReadMessage(bytes), bytes[size..];
      SplitStep(bytes, m, size);
      verdict := if KindOf(m) == Unknown then UnknownTemplate else Clean;
    }
  }

  lemma SplitStep(bytes: seq<byte>, m: Message, size: nat)
    requires bytes != [] && Readable(bytes) && m == ReadMessage(bytes) && size == FromLittleEndian(bytes[0..2])
    ensures var w, rest := Split(bytes), Split(bytes[size..]);
      if IsKnown(m) then
        && w == After(m, rest)
        && Dispatched(w.messages) == (if KindOf(m) == Supported then [m] else []) + Dispatched(rest.messages)
      else w == Walk([], UnknownTemplate) && Dispatched(w.messages) == []
  {
    if IsKnown(m) {
      assert Split(bytes).messages[1..] == Split(bytes[size..]).messages;
    }
  }

  // ---------- the wire format ----------

  predicate Encodable(m: Message) { |m.body| + PREFIX < 0x1_0000 }

  function Encode(m: Message): (bytes: seq<byte>)
    requires Encodable(m)
    ensures |bytes| == |m.body| + PREFIX
  {
    LittleEndian(|m.body| + PREFIX, 2) + LittleEndian(m.block, 2) + LittleEndian(m.template, 2)
    + LittleEndian(m.schema, 2) + LittleEndian(m.version, 2) + m.body
  }

  predicate AllEncodable(ms: seq<Message>) { forall i :: 0 <= i < |ms| ==> Encodable(ms[i]) }

  predicate AllKnown(ms: seq<Message>) { forall i :: 0 <= i < |ms| ==> IsKnown(ms[i]) }

  function EncodeAll(ms: seq<Message>): seq<byte>
    requires AllEncodable(ms)
  {
    if ms == [] then [] else Encode(ms[0]) + EncodeAll(ms[1..])
  }

  lemma WordReadsBack(n: Word)
    ensures FromLittleEndian(LittleEndian(n, 2)) == n
  {
    Capacities();
    DecodeUndoesEncode(n, 2);
  }

  lemma MessageReadsBack(m: Message, tail: seq<byte>)
    requires Encodable(m)
    ensures var bytes := Encode(m) + tail;
      && Readable(bytes) && ReadMessage(bytes) == m
      && FromLittleEndian(bytes[0..2]) == |Encode(m)| && bytes[|Encode(m)|..] == tail
  {
    var bytes := Encode(m) + tail;
    WordReadsBack(|m.body| + PREFIX);
    WordReadsBack(m.block);
    WordReadsBack(m.template);
    WordReadsBack(m.schema);
    WordReadsBack(m.version);
    assert bytes[0..2] == LittleEndian(|m.body| + PREFIX, 2);
    assert bytes[2..4] == LittleEndian(m.block, 2) && bytes[4..6] == LittleEndian(m.template, 2);
    assert bytes[6..8] == LittleEndian(m.schema, 2) && bytes[8..10] == LittleEndian(m.version, 2);
    assert bytes[PREFIX..|m.body| + PREFIX] == m.body;
  }

  /** The number of leading messages with a known template. */
  function KnownPrefix(ms: seq<Message>): (k: nat)
    ensures k <= |ms|
  {
    if ms == [] || !IsKnown(ms[0]) then 0 else 1 + KnownPrefix(ms[1..])
  }

  /** A packet of any messages is taken apart again, up to the first unknown template, and
      the verdict says whether there was one. */
  lemma {:induction false} SplitUndoesEncode(ms: seq<Message>)
    requires AllEncodable(ms)
    ensures var k := KnownPrefix(ms);
      Split(EncodeAll(ms)) == Walk(ms[..k], if k == |ms| then Clean else UnknownTemplate)
  {
    if ms != [] {
      MessageReadsBack(ms[0], EncodeAll(ms[1..]));
      SplitStep(EncodeAll(ms), ms[0], |Encode(ms[0])|);
      SplitUndoesEncode(ms[1..]);
      if IsKnown(ms[0]) {
        FirstMore(ms, KnownPrefix(ms[1..]));
      }
    }
  }

  lemma EncodeUndoesRead(bytes: seq<byte>)
    requires Readable(bytes)
    ensures var m := ReadMessage(bytes);
      Encodable(m) && Encode(m) == bytes[..FromLittleEndian(bytes[0..2])]
  {
    Capacities();
    var m, size := ReadMessage(bytes), FromLittleEndian(bytes[0..2]);
    EncodeUndoesDecode(bytes[0..2]);
    EncodeUndoesDecode(bytes[2..4]);
    EncodeUndoesDecode(bytes[4..6]);
    EncodeUndoesDecode(bytes[6..8]);
    EncodeUndoesDecode(bytes[8..10]);
    assert bytes[..size] == bytes[0..2] + bytes[2..4] + bytes[4..6] + bytes[6..8] + bytes[8..10] + bytes[10..size];
  }

  /** And only such packets are clean: the bytes are exactly the messages, all known. */
  lemma {:induction false} CleanIsEncoded(bytes: seq<byte>)
    requires Split(bytes).verdict.Clean?
    ensures var ms := Split(bytes).messages; AllEncodable(ms) && AllKnown(ms) && EncodeAll(ms) == bytes
    decreases |bytes|
  {
    if bytes != [] {
      var size := FromLittleEndian(bytes[0..2]);
      EncodeUndoesRead(bytes);
      CleanIsEncoded(bytes[size..]);
      OneMoreEncoded(ReadMessage(bytes), Split(bytes[size..]).messages);
      SplitStep(bytes, ReadMessage(bytes), size);
      Halves(bytes, size);
    }
  }

  lemma Halves(bytes: seq<byte>, n: nat)
    requires n <= |bytes|
    ensures bytes[..n] + bytes[n..] == bytes
  {
  }

  lemma OneMoreEncoded(m: Message, ms: seq<Message>)
    requires Encodable(m) && IsKnown(m) && AllEncodable(ms) && AllKnown(ms)
    ensures AllEncodable([m] + ms) && AllKnown([m] + ms)
    ensures EncodeAll([m] + ms) == Encode(m) + EncodeAll(ms)
  {
    assert ([m] + ms)[1..] == ms;
  }

  // ---------- the format and the templates ----------

  /** The prefix of a message byte by byte: size, block length, template, schema and version,
      two bytes each, the lowest byte first; the size counts the prefix. */
  lemma PrefixBytes(bytes: seq<byte>)
    requires Readable(bytes)
    ensures var m := ReadMessage(bytes);
      && |m.body| + 10 == bytes[0] as nat + 0x100 * bytes[1] as nat
      && m.block == bytes[2] as nat + 0x100 * bytes[3] as nat
      && m.template == bytes[4] as nat + 0x100 * bytes[5] as nat
      && m.schema == bytes[6] as nat + 0x100 * bytes[7] as nat
      && m.version == bytes[8] as nat + 0x100 * bytes[9] as nat
      && m.body == bytes[10..|m.body| + 10]
  {
    TwoBytes(bytes[0..2]);
    TwoBytes(bytes[2..4]);
    TwoBytes(bytes[4..6]);
    TwoBytes(bytes[6..8]);
    TwoBytes(bytes[8..10]);
  }

  /** The template has a handler. */
  predicate Handled(template: Word) {
    template in {4, 12, 30, 37, 39, 46, 47, 48, 49, 50, 51, 52, 53, 54, 55, 56, 57, 58, 63, 64, 65, 66, 67, 69}
  }

  /** The template is known and skipped. */
  predicate Ignored(template: Word) { template in {16, 59, 60, 61, 62, 68} }

  /** The messages with a handler, up to the first that is neither handled nor ignored. */
  function Due(ms: seq<Message>): seq<Message> {
    if ms == [] || !(Handled(ms[0].template) || Ignored(ms[0].template)) then []
    else (if Handled(ms[0].template) then [ms[0]] else []) + Due(ms[1..])
  }

  /** Of a packet of any messages, exactly those with one of the handled templates are
      dispatched, in order, up to the first with a template that is neither handled nor
      ignored; and the packet is clean if there is none such. */
  lemma {:induction false} DispatchedByTemplate(ms: seq<Message>)
    requires AllEncodable(ms)
    ensures var w := Split(EncodeAll(ms));
      && Dispatched(w.messages) == Due(ms)
      && (w.verdict.Clean? <==> AllListed(ms))
      && !w.verdict.Malformed?
  {
    if ms != [] {
      DispatchedByTemplate(ms[1..]);
      MessageReadsBack(ms[0], EncodeAll(ms[1..]));
      SplitStep(EncodeAll(ms), ms[0], |Encode(ms[0])|);
      KindIsByTemplate(ms[0]);
      AllListedMore(ms);
    }
  }

  ghost predicate AllListed(ms: seq<Message>) {
    forall i :: 0 <= i < |ms| ==> Handled(ms[i].template) || Ignored(ms[i].template)
  }

  lemma AllListedMore(ms: seq<Message>)
    requires ms != []
    ensures AllListed(ms) <==> (Handled(ms[0].template) || Ignored(ms[0].template)) && AllListed(ms[1..])
  {
    assert forall i :: 1 <= i < |ms| ==> ms[i] == ms[1..][i - 1];
    assert forall i :: 0 <= i < |ms| - 1 ==> ms[1..][i] == ms[i + 1];
  }

  lemma KindIsByTemplate(m: Message)
    ensures KindOf(m) == Supported <==> Handled(m.template)
    ensures KindOf(m) == Dropped <==> Ignored(m.template)
  {
  }
}
