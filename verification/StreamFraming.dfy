/** Order entry stream framing: every message travels behind a two-byte little-endian
    length (which counts the header) and a two-byte encoding mark. */
module StreamFraming {
  import opened Bytes
  import opened Sequences

  const HEADER: nat := 4
  const ENCODING: nat := 0xCAFE

  /** One attempt to take a message off the front of the buffer. `Undefined` is a length
      smaller than the header, for which the body would start behind its end. */
  datatype Parse = Incomplete | Fatal | Undefined | Parsed(body: seq<byte>, consumed: nat)

  function TakeFrame(buffer: seq<byte>): (r: Parse)
    ensures r.Parsed? ==> HEADER <= r.consumed <= |buffer|
  {
    if |buffer| < HEADER then Incomplete
    else if FromLittleEndian(buffer[2..4]) != ENCODING then Fatal
    else
      var length := FromLittleEndian(buffer[0..2]);
      if |buffer| < length then Incomplete
      else if length < HEADER then Undefined
      else Parsed(buffer[4..length], length)
  }

  /** What draining a buffer leads to: the bodies, the bytes left over, and whether the
      stream is still in order. */
  datatype Drained = Drained(bodies: seq<seq<byte>>, rest: seq<byte>, ok: bool)

  function Drain(buffer: seq<byte>): Drained
    decreases |buffer|
  {
    match TakeFrame(buffer)
    case Incomplete => Drained([], buffer, true)
    case Parsed(body, consumed) =>
      Behind([body], Drain(buffer[consumed..]))
    case _ => Drained([], buffer, false)
  }

  /** The same outcome with further bodies in front. */
  function Behind(bodies: seq<seq<byte>>, d: Drained): Drained {
    d.(bodies := bodies + d.bodies)
  }

  lemma BehindBehind(a: seq<seq<byte>>, b: seq<seq<byte>>, d: Drained)
    ensures Behind(a, Behind(b, d)) == Behind(a + b, d)
    ensures Behind([], d) == d
  {
    Rebracket(a, b, d.bodies);
  }

  // ---------- the code ----------

  /** The receiving end of a connection. */
  class Receiver {
    var buffer: seq<byte>
    var dispatched: seq<seq<byte>>
    var ok: bool

    ghost function View(): (d: Drained)
      reads this
    {
      Drained(dispatched, buffer, ok)
    }

    constructor ()
      ensures View() == Drained([], [], true)
    {
      buffer, dispatched, ok := [], [], true;
    }

    /** Bytes arrive and are parsed as far as they go; what was consumed is drained. */
    method OnRead(chunk: seq<byte>)
      modifies this
      ensures View() == Receive(old(View()), chunk)
    {
      if !ok {
        return;
      }
      buffer := buffer + chunk;
      var bodies, total, good := ParseAll(buffer);
      dispatched := dispatched + bodies;
      ok := good;
      buffer := buffer[total..];
    }
  }

  /** The bodies in front of byte `total` have been taken off. */
  ghost predicate Upto(buffer: seq<byte>, got: seq<seq<byte>>, total: nat) {
    total <= |buffer| && Drain(buffer) == Behind(got, Drain(buffer[total..]))
  }

  /** The read loop: parses until the buffer is empty or a message is not there in full. */
  method ParseAll(buffer: seq<byte>) returns (bodies: seq<seq<byte>>, total: nat, ok: bool)
    ensures total <= |buffer|
    ensures Drain(buffer) == Drained(bodies, buffer[total..], ok)
  {
    bodies, total, ok := [], 0, true;
    UptoNothing(buffer);
    while total < |buffer|
      invariant ok && Upto(buffer, bodies, total)
    {
      var parsed := TakeFrame(buffer[total..]);
      if !parsed.Parsed? {
        DrainStops(buffer, bodies, total);
        ok := parsed.Incomplete?;
        return;
      }
      bodies, total := DrainNext(buffer, bodies, total, parsed);
    }
    DrainStops(buffer, bodies, total);
  }

  method DrainNext(buffer: seq<byte>, got: seq<seq<byte>>, total: nat, p: Parse)
    returns (got': seq<seq<byte>>, total': nat)
    requires Upto(buffer, got, total) && p == TakeFrame(buffer[total..]) && p.Parsed?
    ensures total < total' && Upto(buffer, got', total')
  {
    got', total' := got + [p.body], total + p.consumed;
    assert buffer[total..][p.consumed..] == buffer[total'..];
    BehindBehind(got, [p.body], Drain(buffer[total'..]));
  }

  lemma UptoNothing(buffer: seq<byte>)
    ensures Upto(buffer, [], 0)
  {
    assert buffer[0..] == buffer;
  }

  lemma DrainStops(buffer: seq<byte>, got: seq<seq<byte>>, total: nat)
    requires Upto(buffer, got, total) && !TakeFrame(buffer[total..]).Parsed?
    ensures Drain(buffer) == Drained(got, buffer[total..], TakeFrame(buffer[total..]).Incomplete?)
  {
  }

  function Receive(d: Drained, chunk: seq<byte>): Drained {
    if !d.ok then d
    else Behind(d.bodies, Drain(d.rest + chunk))
  }

  function ReceiveAll(d: Drained, chunks: seq<seq<byte>>): Drained
    decreases |chunks|
  {
    if chunks == [] then d else ReceiveAll(Receive(d, chunks[0]), chunks[1..])
  }

  // ---------- the cut into reads does not matter ----------

  /** More bytes behind a decided frame change nothing. */
  lemma ParseIsStable(a: seq<byte>, b: seq<byte>)
    requires !TakeFrame(a).Incomplete?
    ensures TakeFrame(a + b) == TakeFrame(a)
  {
    assert (a + b)[0..2] == a[0..2] && (a + b)[2..4] == a[2..4];
    var length := FromLittleEndian(a[0..2]);
    assert length >= HEADER && length <= |a| ==> (a + b)[4..length] == a[4..length];
  }

  /** Draining in two goes is draining in one. */
  lemma {:induction false} DrainInTwo(a: seq<byte>, b: seq<byte>)
    ensures var d := Drain(a);
      Drain(a + b) == if d.ok then Behind(d.bodies, Drain(d.rest + b)) else Drained(d.bodies, d.rest + b, false)
    decreases |a|
  {
    var p := TakeFrame(a);
    if p.Incomplete? {
      BehindBehind([], [], Drain(a + b));
    } else {
      ParseIsStable(a, b);
      if p.Parsed? {
        var rest := a[p.consumed..];
        assert (a + b)[p.consumed..] == rest + b;
        DrainInTwo(rest, b);
        var d := Drain(rest);
        BehindBehind([p.body], d.bodies, Drain(d.rest + b));
      }
    }
  }

  /** Whatever the bytes are and however they are cut into reads, the same messages are
      dispatched, in the same order, and the same verdict is reached. */
  lemma {:induction false} ChunkingIsIrrelevant(d: Drained, chunks: seq<seq<byte>>)
    requires d.ok && Drain(d.rest) == Drained([], d.rest, true)
    ensures var one, many := Receive(d, Concat(chunks)), ReceiveAll(d, chunks);
      many.bodies == one.bodies && many.ok == one.ok && (one.ok ==> many.rest == one.rest)
    decreases |chunks|, 0
  {
    if chunks == [] {
      assert d.rest + [] == d.rest && d.bodies + [] == d.bodies;
    } else {
      var c, later := chunks[0], Concat(chunks[1..]);
      assert d.rest + (c + later) == d.rest + c + later;
      DrainInTwo(d.rest + c, later);
      NextChunk(d, d.rest + c, later, chunks[1..]);
    }
  }

  lemma NextChunk(d: Drained, front: seq<byte>, later: seq<byte>, chunks: seq<seq<byte>>)
    requires d.ok && later == Concat(chunks)
    requires Drain(front + later) == if Drain(front).ok
                                     then Behind(Drain(front).bodies, Drain(Drain(front).rest + later))
                                     else Drained(Drain(front).bodies, Drain(front).rest + later, false)
    ensures var one, many := Behind(d.bodies, Drain(front + later)), ReceiveAll(Behind(d.bodies, Drain(front)), chunks);
      many.bodies == one.bodies && many.ok == one.ok && (one.ok ==> many.rest == one.rest)
    decreases |chunks|, 1
  {
    var f := Drain(front);
    var d' := Behind(d.bodies, f);
    if f.ok {
      RestIsDrained(front);
      ChunkingIsIrrelevant(d', chunks);
      BehindBehind(d.bodies, f.bodies, Drain(f.rest + later));
    } else {
      StaysBroken(d', chunks);
    }
  }

  lemma {:induction false} RestIsDrained(a: seq<byte>)
    requires Drain(a).ok
    ensures Drain(Drain(a).rest) == Drained([], Drain(a).rest, true)
    decreases |a|
  {
    var p := TakeFrame(a);
    if p.Parsed? {
      RestIsDrained(a[p.consumed..]);
    }
  }

  lemma {:induction false} StaysBroken(d: Drained, chunks: seq<seq<byte>>)
    requires !d.ok
    ensures ReceiveAll(d, chunks) == d
    decreases |chunks|
  {
    if chunks != [] {
      StaysBroken(d, chunks[1..]);
    }
  }

  // ---------- the sending end ----------

  /** What `send` puts on the wire. A body that does not fit the length field is refused
      before anything is sent. */
  predicate Sendable(body: seq<byte>) { |body| + HEADER < 0x1_0000 }

  function Encode(body: seq<byte>): (wire: seq<byte>)
    requires Sendable(body)
    ensures |wire| == |body| + HEADER
  {
    LittleEndian(|body| + HEADER, 2) + [0xFE as byte, 0xCA as byte] + body
  }

  function EncodeAll(bodies: seq<seq<byte>>): seq<byte>
    requires forall i :: 0 <= i < |bodies| ==> Sendable(bodies[i])
  {
    if bodies == [] then [] else Encode(bodies[0]) + EncodeAll(bodies[1..])
  }

  lemma HeaderReadsBack(body: seq<byte>, tail: seq<byte>)
    requires Sendable(body)
    ensures var wire := Encode(body) + tail;
      FromLittleEndian(wire[0..2]) == |body| + HEADER && FromLittleEndian(wire[2..4]) == ENCODING
      && wire[4..|body| + HEADER] == body && wire[|body| + HEADER..] == tail
  {
    var wire := Encode(body) + tail;
    Capacities();
    DecodeUndoesEncode(|body| + HEADER, 2);
    assert wire[0..2] == LittleEndian(|body| + HEADER, 2);
    assert wire[2..4] == [0xFE as byte, 0xCA as byte];
    assert wire[2..4][1..] == [0xCA as byte] && [0xCA as byte][1..] == [];
    assert FromLittleEndian([0xCA as byte]) == 0xCA;
  }

  /** A proper prefix of a frame is always reported as incomplete. */
  lemma PrefixIsIncomplete(body: seq<byte>, n: nat)
    requires Sendable(body) && n < |Encode(body)|
    ensures TakeFrame(Encode(body)[..n]).Incomplete?
  {
    var wire := Encode(body);
    HeaderReadsBack(body, []);
    assert wire + [] == wire;
    if n >= HEADER {
      assert wire[..n][0..2] == wire[0..2] && wire[..n][2..4] == wire[2..4];
    }
  }

  /** For any messages and any cut of their stream: the messages that are complete are
      recovered in order, and what remains is a proper prefix of the next frame. */
  lemma {:induction false} RecoversAtEveryCut(bodies: seq<seq<byte>>, n: nat)
    requires forall i :: 0 <= i < |bodies| ==> Sendable(bodies[i])
    requires n <= |EncodeAll(bodies)|
    ensures var d := Drain(EncodeAll(bodies)[..n]);
      var k := |d.bodies|;
      && d.ok && k <= |bodies| && d.bodies == bodies[..k]
      && (if k < |bodies| then |d.rest| < |Encode(bodies[k])| && d.rest <= Encode(bodies[k]) else d.rest == [])
    decreases |bodies|
  {
    var all := EncodeAll(bodies);
    if bodies == [] {
      assert all[..n] == [];
    } else {
      var wire, later := Encode(bodies[0]), EncodeAll(bodies[1..]);
      if n < |wire| {
        assert all[..n] == wire[..n];
        PrefixIsIncomplete(bodies[0], n);
      } else {
        var m := n - |wire|;
        assert all[..n] == wire + later[..m];
        HeaderReadsBack(bodies[0], later[..m]);
        RecoversAtEveryCut(bodies[1..], m);
        var d := Drain(later[..m]);
        assert Drain(all[..n]) == Behind([bodies[0]], d);
        FirstMore(bodies, |d.bodies|);
      }
    }
  }

  /** Sent, cut into any reads, received: the messages themselves. */
  lemma RoundTrip(bodies: seq<seq<byte>>, chunks: seq<seq<byte>>)
    requires forall i :: 0 <= i < |bodies| ==> Sendable(bodies[i])
    requires Concat(chunks) == EncodeAll(bodies)
    ensures ReceiveAll(Drained([], [], true), chunks) == Drained(bodies, [], true)
  {
    var start := Drained([], [], true);
    ChunkingIsIrrelevant(start, chunks);
    var all := EncodeAll(bodies);
    RecoversAtEveryCut(bodies, |all|);
    assert all[..|all|] == all && [] + all == all;
    AllRecovered(bodies);
    assert [] + Drain(all).bodies == Drain(all).bodies;
  }

  lemma {:induction false} AllRecovered(bodies: seq<seq<byte>>)
    requires forall i :: 0 <= i < |bodies| ==> Sendable(bodies[i])
    ensures Drain(EncodeAll(bodies)) == Drained(bodies, [], true)
    decreases |bodies|
  {
    if bodies != [] {
      HeaderReadsBack(bodies[0], EncodeAll(bodies[1..]));
      AllRecovered(bodies[1..]);
    }
  }

  // ---------- the format ----------

  /** The first frame of a buffer byte by byte: two bytes of length, the lowest first, which
      count the four bytes of the header; then FE and CA, or the stream is broken; then the
      body, once it is there in full. */
  lemma FirstFrameBytes(buffer: seq<byte>)
    ensures var r := TakeFrame(buffer);
      if |buffer| < 4 then r == Incomplete
      else
        var length := buffer[0] as nat + 0x100 * buffer[1] as nat;
        if buffer[2] != 0xFE || buffer[3] != 0xCA then r == Fatal
        else if |buffer| < length then r == Incomplete
        else if length < 4 then r == Undefined
        else r == Parsed(buffer[4..length], length)
  {
    if |buffer| >= 4 {
      TwoBytes(buffer[0..2]);
      TwoBytes(buffer[2..4]);
    }
  }

  /** And so what is sent. */
  lemma SentBytes(body: seq<byte>)
    requires Sendable(body)
    ensures var wire := Encode(body);
      && wire[0] as nat + 0x100 * wire[1] as nat == |wire| == |body| + 4
      && wire[2] == 0xFE && wire[3] == 0xCA && wire[4..] == body
  {
    var wire := Encode(body);
    HeaderReadsBack(body, []);
    assert wire + [] == wire;
    TwoBytes(wire[0..2]);
  }
}
