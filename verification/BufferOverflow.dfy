/** Runs that fill the hold buffer and reset the channel although no packet is lost:
    neighbours merely arrive in the wrong order, on both feeds. */
module BufferOverflow {
  import opened Bytes
  import opened PacketFrame
  import opened FeedArbitration

  /** The packet is what its payload says. */
  predicate Genuine(p: Packet) { ParseFrame(p.payload).Some? && ParseFrame(p.payload).value.number == p.number }

  /** One dispatch of a run. */
  ghost predicate Goes(s: Feed, p: Packet, filter: nat, depth: nat, s': Feed) {
    ZeroIsDropped(s, p.payload, filter) && Step(s, p.payload, filter, depth, s')
  }

  // ---------- single dispatches ----------

  function Hold(s: Feed, p: Packet): Feed { s.(held := s.held + multiset{p}, arrived := s.arrived + {p}) }

  function Drop(s: Feed, p: Packet): Feed { s.(arrived := s.arrived + {p}) }

  /** The missing packet arrives, and its successor is taken from the buffer. */
  function Fill(s: Feed, p: Packet, q: Packet): Feed {
    s.(last := q.number, held := s.held - multiset{q}, arrived := s.arrived + {p}, delivered := s.delivered + [p] + [q])
  }

  /** A window is open, and a slot is free. */
  ghost predicate Ready(s: Feed, depth: nat) { Inv(s) && s.first != 0 && |s.held| < depth && s.last < 0xFFFF_FFFF }

  lemma HoldGoes(s: Feed, p: Packet, filter: nat, depth: nat)
    requires Ready(s, depth) && Genuine(p) && filter <= p.number && s.last + 1 < p.number
    ensures Goes(s, p, filter, depth, Hold(s, p)) && Inv(Hold(s, p))
  {
    NothingToDrain(Hold(s, p));
    StepKeeps(s, p.payload, filter, depth, Hold(s, p));
  }

  lemma DropGoes(s: Feed, p: Packet, filter: nat, depth: nat)
    requires Ready(s, depth) && Genuine(p) && filter <= p.number && 1 <= p.number <= s.last
    ensures Goes(s, p, filter, depth, Drop(s, p)) && Inv(Drop(s, p))
  {
    NothingToDrain(Drop(s, p));
    StepKeeps(s, p.payload, filter, depth, Drop(s, p));
  }

  lemma FillGoes(s: Feed, p: Packet, q: Packet, filter: nat, depth: nat)
    requires Ready(s, depth) && Genuine(p) && filter <= p.number == s.last + 1
    requires q in s.held && q.number == s.last + 2 && NoneNumbered(s.held, s.last + 3)
    ensures Goes(s, p, filter, depth, Fill(s, p, q)) && Inv(Fill(s, p, q))
  {
    FillDrains(s, p, q, filter);
    StepKeeps(s, p.payload, filter, depth, Fill(s, p, q));
  }

  lemma FillDrains(s: Feed, p: Packet, q: Packet, filter: nat)
    requires s.first != 0 && s.last < 0xFFFF_FFFF && filter <= p.number == s.last + 1
    requires q in s.held && q.number == s.last + 2 && NoneNumbered(s.held, s.last + 3)
    ensures Drained(Accept(s, p, filter), Fill(s, p, q))
  {
    TakesOne(Accept(s, p, filter), q);
  }

  lemma TakesOne(m: Feed, q: Packet)
    requires m.first != 0 && q in m.held && m.last + 1 < 0x1_0000_0000
    requires q.number == m.last + 1 && NoneNumbered(m.held, m.last + 2)
    ensures Drained(m, m.(last := q.number, held := m.held - multiset{q}, delivered := m.delivered + [q]))
  {
    assert multiset([q]) == multiset{q};
    assert DrainTaking(m, [q], m.(last := q.number, held := m.held - multiset{q}, delivered := m.delivered + [q]));
  }

  // ---------- runs ----------

  /** Some run over `payloads` leads from `s` to `s'`. */
  ghost predicate Reaches(s: Feed, ps: seq<Packet>, filter: nat, depth: nat, s': Feed)
    decreases |ps|
  {
    if ps == [] then s' == s
    else exists m :: Goes(s, ps[0], filter, depth, m) && Reaches(m, ps[1..], filter, depth, s')
  }

  lemma ReachesMore(s: Feed, p: Packet, m: Feed, ps: seq<Packet>, filter: nat, depth: nat, s': Feed)
    requires Goes(s, p, filter, depth, m) && Reaches(m, ps, filter, depth, s')
    ensures Reaches(s, [p] + ps, filter, depth, s')
  {
    assert ([p] + ps)[1..] == ps;
  }

  function Payloads(ps: seq<Packet>): (bytes: seq<seq<byte>>)
    ensures |bytes| == |ps|
  {
    if ps == [] then [] else [ps[0].payload] + Payloads(ps[1..])
  }

  lemma {:induction false} ReachesIsRun(s: Feed, ps: seq<Packet>, filter: nat, depth: nat, s': Feed)
    returns (trace: seq<Feed>)
    requires Reaches(s, ps, filter, depth, s')
    ensures Run(trace, Payloads(ps), filter, depth) && trace[0] == s && trace[|ps|] == s'
    decreases |ps|
  {
    if ps == [] {
      trace := [s];
    } else {
      var m :| Goes(s, ps[0], filter, depth, m) && Reaches(m, ps[1..], filter, depth, s');
      var later := ReachesIsRun(m, ps[1..], filter, depth, s');
      trace := [s] + later;
      assert trace[1..] == later && Payloads(ps)[1..] == Payloads(ps[1..]);
    }
  }

  // ---------- two neighbours swap on both feeds ----------

  ghost predicate AllStale(s: Feed) { forall p :: p in s.held ==> p.number <= s.last }

  /** Whatever is held has been passed, and two neighbours are about to arrive. */
  ghost predicate Before(s: Feed, p: Packet, q: Packet, filter: nat) {
    && Inv(s) && s.first != 0 && AllStale(s) && s.last + 2 < 0xFFFF_FFFF
    && Genuine(p) && p.number == s.last + 1 && Genuine(q) && q.number == s.last + 2 && filter <= p.number
  }

  function Held(s: Feed, q: Packet): Feed { Hold(Hold(s, q), q) }

  function Filled(s: Feed, p: Packet, q: Packet): Feed { Fill(Held(s, q), p, q) }

  function Swapped(s: Feed, p: Packet, q: Packet): Feed { Drop(Filled(s, p, q), p) }

  /** What a swap leaves behind: both packets are delivered, in order, and one more slot is
      occupied by a number that has been passed. */
  ghost predicate Leaks(s: Feed, s': Feed, p: Packet, q: Packet) {
    && Inv(s') && s'.first == s.first && s'.last == s.last + 2
    && s'.delivered == s.delivered + [p] + [q]
    && AllStale(s') && |s'.held| == |s.held| + 1
  }

  lemma FilledLeaks(s: Feed, p: Packet, q: Packet, filter: nat, depth: nat)
    requires Before(s, p, q, filter) && |s.held| + 2 < depth
    ensures Goes(Held(s, q), p, filter, depth, Filled(s, p, q)) && Leaks(s, Filled(s, p, q), p, q)
  {
    HeldIsKept(s, p, q, filter, depth);
    FillGoes(Held(s, q), p, q, filter, depth);
    assert Filled(s, p, q).held == s.held + multiset{q};
  }

  lemma HeldIsKept(s: Feed, p: Packet, q: Packet, filter: nat, depth: nat)
    requires Before(s, p, q, filter) && |s.held| + 2 <= depth
    ensures Inv(Hold(s, q)) && Inv(Held(s, q))
  {
    HoldGoes(s, q, filter, depth);
    HoldGoes(Hold(s, q), q, filter, depth);
  }

  function Four(p: Packet, q: Packet, ps: seq<Packet>): seq<Packet> { [q] + ([q] + ([p] + ([p] + ps))) }

  lemma HoldFirst(s: Feed, q: Packet, ps: seq<Packet>, filter: nat, depth: nat, s': Feed)
    requires Ready(s, depth) && Genuine(q) && filter <= q.number && s.last + 1 < q.number
    requires Reaches(Hold(s, q), ps, filter, depth, s')
    ensures Reaches(s, [q] + ps, filter, depth, s')
  {
    HoldGoes(s, q, filter, depth);
    ReachesMore(s, q, Hold(s, q), ps, filter, depth, s');
  }

  lemma TwoHolds(s: Feed, p: Packet, q: Packet, ps: seq<Packet>, filter: nat, depth: nat, s': Feed)
    requires Before(s, p, q, filter) && |s.held| + 2 <= depth && Reaches(Held(s, q), ps, filter, depth, s')
    ensures Reaches(s, [q] + ([q] + ps), filter, depth, s')
  {
    HeldIsKept(s, p, q, filter, depth);
    HoldFirst(Hold(s, q), q, ps, filter, depth, s');
    HoldFirst(s, q, [q] + ps, filter, depth, s');
  }

  lemma SecondDrop(s: Feed, p: Packet, q: Packet, ps: seq<Packet>, filter: nat, depth: nat, s': Feed)
    requires Before(s, p, q, filter) && |s.held| + 2 < depth && Reaches(Swapped(s, p, q), ps, filter, depth, s')
    ensures Reaches(Filled(s, p, q), [p] + ps, filter, depth, s')
  {
    FilledLeaks(s, p, q, filter, depth);
    DropGoes(Filled(s, p, q), p, filter, depth);
    ReachesMore(Filled(s, p, q), p, Swapped(s, p, q), ps, filter, depth, s');
  }

  lemma FillAndDrop(s: Feed, p: Packet, q: Packet, ps: seq<Packet>, filter: nat, depth: nat, s': Feed)
    requires Before(s, p, q, filter) && |s.held| + 2 < depth && Reaches(Swapped(s, p, q), ps, filter, depth, s')
    ensures Reaches(Held(s, q), [p] + ([p] + ps), filter, depth, s')
  {
    SecondDrop(s, p, q, ps, filter, depth, s');
    FilledLeaks(s, p, q, filter, depth);
    ReachesMore(Held(s, q), p, Filled(s, p, q), [p] + ps, filter, depth, s');
  }

  /** Two neighbours swap on both feeds: the dispatches `q, q, p, p`, in front of any run,
      lead to a state in which both are delivered and one more slot is gone. */
  lemma SwapLeaksSlot(s: Feed, p: Packet, q: Packet, ps: seq<Packet>, filter: nat, depth: nat, s': Feed)
    requires Before(s, p, q, filter) && |s.held| + 2 < depth && Reaches(Swapped(s, p, q), ps, filter, depth, s')
    ensures Reaches(s, Four(p, q, ps), filter, depth, s')
  {
    FillAndDrop(s, p, q, ps, filter, depth, s');
    TwoHolds(s, p, q, [p] + ([p] + ps), filter, depth, s');
  }

  lemma SwappedLeaks(s: Feed, p: Packet, q: Packet, filter: nat, depth: nat)
    requires Before(s, p, q, filter) && |s.held| + 2 < depth
    ensures Leaks(s, Swapped(s, p, q), p, q)
  {
    FilledLeaks(s, p, q, filter, depth);
    DropGoes(Filled(s, p, q), p, filter, depth);
  }

  // ---------- swap after swap ----------

  /** Packets with the frame numbers that follow `from`, one after the other. */
  ghost predicate Stream(wire: seq<Packet>, from: nat) {
    forall i :: 0 <= i < |wire| ==> Genuine(wire[i]) && wire[i].number == from + 1 + i
  }

  /** Both feeds carry the packets with every two neighbours swapped, each packet on the one
      feed right behind the same packet on the other; at the end the first of the last two
      neighbours has yet to come. */
  function Traffic(wire: seq<Packet>): seq<Packet>
    requires |wire| >= 2
    decreases |wire|
  {
    if |wire| < 4 then [wire[1]] + ([wire[1]] + []) else Four(wire[0], wire[1], Traffic(wire[2..]))
  }

  /** Nothing is lost: every packet but the one to come has arrived on both feeds. */
  lemma {:induction false} NothingIsLost(wire: seq<Packet>, n: nat) returns (i: nat)
    requires |wire| >= 2 && |wire| % 2 == 0 && n < |wire| && n != |wire| - 2
    ensures i + 1 < |Traffic(wire)| && Traffic(wire)[i] == wire[n] && Traffic(wire)[i + 1] == wire[n]
    decreases |wire|
  {
    if n == 1 {
      i := 0;
    } else {
      FourAt(wire[0], wire[1], Traffic(wire[2..]));
      if n == 0 {
        i := 2;
      } else {
        i := NothingIsLost(wire[2..], n - 2);
        i := i + 4;
      }
    }
  }

  lemma FourAt(p: Packet, q: Packet, ps: seq<Packet>)
    ensures var all := Four(p, q, ps);
      && |all| == |ps| + 4 && all[0] == all[1] == q && all[2] == all[3] == p
      && forall i :: 4 <= i < |all| ==> all[i] == ps[i - 4]
  {
  }

  /** A window is open, nothing but passed numbers is held, and the packets to come are as
      many swaps as it takes to fill the buffer. */
  ghost predicate CanSwap(s: Feed, wire: seq<Packet>, filter: nat, depth: nat) {
    && Inv(s) && s.first != 0 && AllStale(s) && filter <= s.last + 1
    && |wire| >= 2 && |wire| == 2 * (depth - |s.held| - 1)
    && s.last + |wire| < 0xFFFF_FFFF && Stream(wire, s.last)
  }

  lemma SwapLeadsOn(s: Feed, p: Packet, q: Packet, wire: seq<Packet>, filter: nat, depth: nat)
    requires CanSwap(s, wire, filter, depth) && p == wire[0] && q == wire[1] && |wire| >= 4
    ensures CanSwap(Swapped(s, p, q), wire[2..], filter, depth)
  {
    SwappedLeaks(s, p, q, filter, depth);
  }

  /** Whatever the depth of the buffer: from any state with an open window, at least two free
      slots and nothing but passed numbers in the buffer, swaps of neighbours lead to a full
      buffer, and the next packet resets the channel. */
  lemma {:induction false} OverflowWithoutLoss(s: Feed, wire: seq<Packet>, filter: nat, depth: nat) returns (full: Feed)
    requires CanSwap(s, wire, filter, depth)
    ensures Reaches(s, Traffic(wire), filter, depth, full) && |full.held| == depth
    decreases |wire|
  {
    if |wire| == 2 {
      full := LastSwap(s, wire[0], wire[1], wire, filter, depth);
    } else {
      var s' := Swapped(s, wire[0], wire[1]);
      SwapLeadsOn(s, wire[0], wire[1], wire, filter, depth);
      full := OverflowWithoutLoss(s', wire[2..], filter, depth);
      AnotherSwap(s, wire[0], wire[1], wire, filter, depth, full);
    }
  }

  lemma AnotherSwap(s: Feed, p: Packet, q: Packet, wire: seq<Packet>, filter: nat, depth: nat, full: Feed)
    requires CanSwap(s, wire, filter, depth) && p == wire[0] && q == wire[1] && |wire| >= 4
    requires Reaches(Swapped(s, p, q), Traffic(wire[2..]), filter, depth, full)
    ensures Reaches(s, Traffic(wire), filter, depth, full)
  {
    SwapLeaksSlot(s, p, q, Traffic(wire[2..]), filter, depth, full);
  }

  lemma LastSwap(s: Feed, p: Packet, q: Packet, wire: seq<Packet>, filter: nat, depth: nat) returns (full: Feed)
    requires CanSwap(s, wire, filter, depth) && p == wire[0] && q == wire[1] && |wire| == 2
    ensures Reaches(s, Traffic(wire), filter, depth, full) && |full.held| == depth
  {
    full := FillUp(s, p, q, filter, depth);
  }

  lemma FillUp(s: Feed, p: Packet, q: Packet, filter: nat, depth: nat) returns (full: Feed)
    requires Before(s, p, q, filter) && |s.held| + 2 == depth
    ensures Reaches(s, [q] + ([q] + []), filter, depth, full) && |full.held| == depth
  {
    full := Held(s, q);
    assert Reaches(full, [], filter, depth, full);
    TwoHolds(s, p, q, [], filter, depth, full);
  }

  lemma FullBufferResets(s: Feed, payload: seq<byte>, filter: nat, depth: nat, s': Feed)
    requires |s.held| >= depth
    ensures Step(s, payload, filter, depth, s') <==> s' == INITIAL
  {
  }

  function Opened(p: Packet): Feed { Feed(p.number, p.number, multiset{}, {p}, [p]) }

  lemma OpenGoes(p: Packet, filter: nat, depth: nat)
    requires Genuine(p) && p.number >= 1 && filter <= p.number && depth >= 1
    ensures Goes(INITIAL, p, filter, depth, Opened(p)) && Inv(Opened(p))
  {
    assert Accept(INITIAL, p, filter) == Opened(p) by {
      assert INITIAL.delivered + [p] == [p] && INITIAL.arrived + {p} == {p};
    }
    NothingToDrain(Opened(p));
    StepKeeps(INITIAL, p.payload, filter, depth, Opened(p));
  }

  /** The same from the start, for every depth from two on: once the first packet has opened
      the window, such swaps are a run that fills the buffer. */
  lemma OverflowFromTheStart(p: Packet, wire: seq<Packet>, filter: nat, depth: nat) returns (trace: seq<Feed>)
    requires Genuine(p) && p.number >= 1 && filter <= p.number && Stream(wire, p.number)
    requires depth >= 2 && |wire| == 2 * (depth - 1) && p.number + |wire| < 0xFFFF_FFFF
    ensures var payloads := Payloads([p] + Traffic(wire));
      Run(trace, payloads, filter, depth) && trace[0] == INITIAL && |trace[|payloads|].held| == depth
  {
    OpenGoes(p, filter, depth);
    var full := OverflowWithoutLoss(Opened(p), wire, filter, depth);
    ReachesMore(INITIAL, p, Opened(p), Traffic(wire), filter, depth, full);
    trace := ReachesIsRun(INITIAL, [p] + Traffic(wire), filter, depth, full);
  }

  // ---------- such packets exist ----------

  /** Packets that are nothing but their header. */
  function Headers(from: nat, n: nat): (wire: seq<Packet>)
    requires from + n < 0x1_0000_0000
    ensures |wire| == n
  {
    if n == 0 then [] else Headers(from, n - 1) + [Packet(from + n, EncodeFrame(Frame(from + n, 0)))]
  }

  lemma {:induction false} HeadersAreStream(from: nat, n: nat)
    requires from + n < 0x1_0000_0000
    ensures Stream(Headers(from, n), from)
  {
    if n > 0 {
      HeadersAreStream(from, n - 1);
      ParseUndoesEncode(Frame(from + n, 0), []);
      assert EncodeFrame(Frame(from + n, 0)) + [] == EncodeFrame(Frame(from + n, 0));
    }
  }
}
