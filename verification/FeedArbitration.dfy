/** Arbitration of the redundant A and B multicast feeds of one channel: packets
    arrive lost, duplicated and reordered, and leave as one gap-free stream. */
module FeedArbitration {
  import opened Bytes
  import opened Optional
  import opened PacketFrame

  /** A packet together with the frame number found in its header. */
  datatype Packet = Packet(number: Seqno, payload: seq<byte>)

  /** The channel as both feeds see it: the sequence window, the hold buffer (slots in
      no particular order, duplicate keys allowed), and the history since the last
      reset: what arrived (above the filter) and what was handed to the parser. */
  datatype Feed = Feed(
    first: Seqno,
    last: Seqno,
    held: multiset<Packet>,
    arrived: set<Packet>,
    delivered: seq<Packet>)

  const INITIAL := Feed(0, 0, multiset{}, {}, [])

  function Deliver(s: Feed, p: Packet): Feed {
    s.(first := if s.first == 0 then p.number else s.first,
       last := p.number,
       delivered := s.delivered + [p])
  }

  /** What the buffer callback does with a freshly received packet. */
  function Accept(s: Feed, p: Packet, filter: nat): Feed {
    var s' := s.(arrived := s.arrived + {p});
    if p.number < filter then s
    else if s.first != 0 && p.number > Next(s.last) then s'.(held := s.held + multiset{p})
    else if s.first != 0 && p.number < Next(s.last) then s'
    else Deliver(s', p)
  }

  /** The numbers of `ps` count up from `from`. */
  ghost predicate Consecutive(ps: seq<Packet>, from: int) {
    forall i :: 0 <= i < |ps| ==> ps[i].number == from + i
  }

  ghost predicate NoneNumbered(held: multiset<Packet>, n: int) {
    forall p :: p in held ==> p.number != n
  }

  /** `s'` is `s` after taking the slots `taken`, one successor after another, until
      none is left. A held number exceeds some successor, so zero is never held and the
      successors do not wrap. */
  ghost predicate DrainTaking(s: Feed, taken: seq<Packet>, s': Feed) {
    Draining(s, taken, s') && NoneNumbered(s'.held, s'.last + 1)
  }

  ghost predicate Draining(s: Feed, taken: seq<Packet>, s': Feed) {
    && multiset(taken) <= s.held
    && Consecutive(taken, s.last + 1)
    && s.last + |taken| < 0x1_0000_0000
    && s' == s.(last := s.last + |taken|,
                held := s.held - multiset(taken),
                delivered := s.delivered + taken)
  }

  ghost predicate Drained(s: Feed, s': Feed) {
    if s.first == 0 then s' == s else exists taken :: DrainTaking(s, taken, s')
  }

  /** One dispatch, on either feed. */
  ghost predicate Step(s: Feed, payload: seq<byte>, filter: nat, depth: nat, s': Feed) {
    if |s.held| >= depth then s' == INITIAL
    else Drained(Received(s, payload, filter), s')
  }

  /** A packet too short for a header is ignored. */
  function Received(s: Feed, payload: seq<byte>, filter: nat): Feed {
    match ParseFrame(payload)
    case None => s
    case Some(frame) => Accept(s, Packet(frame.number, payload), filter)
  }

  // ---------- the code ----------

  /** The window and the reorder buffer, shared by the two feeds. */
  class Channel {
    var first: Seqno
    var last: Seqno
    var held: multiset<Packet>
    ghost var arrived: set<Packet>
    ghost var delivered: seq<Packet>

    ghost function View(): (s: Feed)
      reads this
    {
      Feed(first, last, held, arrived, delivered)
    }

    constructor ()
      ensures View() == INITIAL
    {
      first, last, held, arrived, delivered := 0, 0, multiset{}, {}, [];
    }

    method UpdateSequenceNumber(ghost p: Packet, number: Seqno)
      requires p.number == number
      modifies `first, `last, `delivered
      ensures View() == Deliver(old(View()), p)
    {
      if first == 0 {
        first := number;
      }
      last := number;
      delivered := delivered + [p];
    }

    /** Frees some slot that holds `number`, if there is one. */
    method Get(number: Seqno) returns (slot: Option<Packet>)
      modifies this`held
      ensures slot.None? ==> held == old(held) && NoneNumbered(held, number)
      ensures slot.Some? ==>
        && slot.value.number == number
        && slot.value in old(held) && held == old(held) - multiset{slot.value}
        && |held| < |old(held)|
    {
      if p :| p in held && p.number == number {
        held := held - multiset{p};
        slot := Some(p);
      } else {
        slot := None;
      }
    }

    method OnSequenceReset()
      modifies this
      ensures View() == INITIAL
    {
      held := multiset{};
      first, last := 0, 0;
      arrived, delivered := {}, [];
    }
  }

  /** One of the two feeds. */
  class Incremental {
    const channel: Channel
    const filter: nat
    const depth: nat

    constructor (channel: Channel, filter: nat, depth: nat)
      ensures this.channel == channel && this.filter == filter && this.depth == depth
    {
      this.channel, this.filter, this.depth := channel, filter, depth;
    }

    method Dispatch(payload: seq<byte>)
      requires NoneNumbered(channel.held, 0)
      modifies channel
      ensures NoneNumbered(channel.held, 0)
      ensures Step(old(channel.View()), payload, filter, depth, channel.View())
    {
      if |channel.held| >= depth {
        channel.OnSequenceReset();
        return;
      }
      var frame := ParseFrame(payload);
      if frame.Some? {
        Receive(Packet(frame.value.number, payload));
      }
      Drain();
    }

    method Receive(p: Packet)
      requires NoneNumbered(channel.held, 0)
      modifies channel
      ensures NoneNumbered(channel.held, 0)
      ensures channel.View() == Accept(old(channel.View()), p, filter)
    {
      var number := p.number;
      if number < filter {
        return;
      }
      var hold, drop := false, false;
      if channel.first != 0 {
        var next := Next(channel.last);
        hold := number > next;
        drop := number < next;
      }
      channel.arrived := channel.arrived + {p};
      if drop {
        return;
      }
      if hold {
        channel.held := channel.held + multiset{p};
        return;
      }
      channel.UpdateSequenceNumber(p, number);
    }

    method Drain()
      requires NoneNumbered(channel.held, 0)
      modifies channel
      ensures Drained(old(channel.View()), channel.View())
    {
      if channel.first == 0 {
        return;
      }
      ghost var s := channel.View();
      ghost var taken: seq<Packet> := [];
      var stop := false;
      while !stop
        invariant Draining(s, taken, channel.View())
        invariant stop ==> NoneNumbered(channel.held, channel.last + 1)
        decreases !stop, |channel.held|
      {
        stop, taken := Turn(s, taken);
      }
      assert DrainTaking(s, taken, channel.View());
    }

    /** One turn of the drain loop. */
    method Turn(ghost s: Feed, ghost taken: seq<Packet>) returns (stop: bool, ghost taken': seq<Packet>)
      requires s.first != 0 && NoneNumbered(s.held, 0) && Draining(s, taken, channel.View())
      modifies channel
      ensures Draining(s, taken', channel.View())
      ensures stop ==> |channel.held| <= |old(channel.held)| && NoneNumbered(channel.held, channel.last + 1)
      ensures !stop ==> |channel.held| < |old(channel.held)|
    {
      taken' := taken;
      ghost var v := channel.View();
      var slot := DrainOne();
      stop := slot.None?;
      if slot.Some? {
        TakeOneMore(s, taken, v, slot.value, channel.View());
        taken' := taken + [slot.value];
      }
    }

    /** Hands the next packet over, if it is held. */
    method DrainOne() returns (slot: Option<Packet>)
      requires channel.first != 0
      modifies channel
      ensures slot.None? ==> channel.View() == old(channel.View()) && NoneNumbered(channel.held, Next(channel.last))
      ensures slot.Some? ==>
        && slot.value in old(channel.held) && slot.value.number == Next(old(channel.last))
        && channel.View() == TakeSlot(old(channel.View()), slot.value)
        && |channel.held| < |old(channel.held)|
    {
      var number := Next(channel.last);
      slot := channel.Get(number);
      if slot.Some? {
        channel.UpdateSequenceNumber(slot.value, number);
      }
    }
  }

  ghost function TakeSlot(s: Feed, p: Packet): Feed {
    Deliver(s.(held := s.held - multiset{p}), p)
  }

  lemma TakeOneMore(s: Feed, taken: seq<Packet>, v: Feed, p: Packet, v': Feed)
    requires Draining(s, taken, v) && s.first != 0 && NoneNumbered(s.held, 0)
    requires p in v.held && p.number == Next(v.last) && v' == TakeSlot(v, p)
    ensures Draining(s, taken + [p], v')
  {
    OneMoreSlot(s.held, taken, p);
    assert p in s.held;
    assert s.delivered + taken + [p] == s.delivered + (taken + [p]);
  }

  lemma OneMoreSlot(held: multiset<Packet>, taken: seq<Packet>, p: Packet)
    requires multiset(taken) <= held && p in held - multiset(taken)
    ensures multiset(taken + [p]) <= held
    ensures held - multiset(taken + [p]) == held - multiset(taken) - multiset{p}
  {
    assert multiset(taken + [p]) == multiset(taken) + multiset{p};
  }

  // ---------- what every dispatch keeps ----------

  /** The delivered packets carry `first, first + 1, ..., last`, each came from the feed,
      and whatever arrived above `last` waits in the buffer. */
  ghost predicate Windowed(s: Feed) {
    && 1 <= s.first <= s.last
    && |s.delivered| == s.last - s.first + 1
    && Consecutive(s.delivered, s.first)
    && (forall p :: p in s.delivered ==> p in s.arrived)
    && (forall p :: p in s.held ==> p in s.arrived && p.number >= 1)
    && (forall p :: p in s.arrived && p.number > s.last ==> p in s.held)
  }

  /** After a dispatch the buffer also starts behind a gap. */
  ghost predicate Inv(s: Feed) {
    s == INITIAL || (Windowed(s) && NoneNumbered(s.held, s.last + 1))
  }

  /** Zero doubles as "no window yet", so a zero frame must not be accepted: it is absent,
      filtered, or behind an open window that has not come to the end of the numbers. */
  predicate ZeroIsDropped(s: Feed, payload: seq<byte>, filter: nat) {
    var frame := ParseFrame(payload);
    frame.Some? ==> NotZero(s, frame.value.number, filter)
  }

  predicate NotZero(s: Feed, n: Seqno, filter: nat) {
    n == 0 ==> filter > 0 || (s.first != 0 && s.last < 0xFFFF_FFFF)
  }

  lemma AcceptKeeps(s: Feed, p: Packet, filter: nat)
    requires Inv(s) && NotZero(s, p.number, filter)
    ensures var s' := Accept(s, p, filter); s' == INITIAL || Windowed(s')
  {
  }

  lemma AcceptGrows(s: Feed, p: Packet, filter: nat)
    requires Inv(s) && NotZero(s, p.number, filter)
    ensures var s' := Accept(s, p, filter);
      && s.held <= s'.held && s.last <= s'.last && s.delivered <= s'.delivered
      && (s.first != 0 ==> s'.first == s.first)
  {
  }

  lemma DrainKeeps(s: Feed, taken: seq<Packet>, s': Feed)
    requires Windowed(s) && DrainTaking(s, taken, s')
    ensures Inv(s')
  {
    forall p | p in taken
      ensures p in s.held && s.last < p.number <= s'.last
    {
      assert p in multiset(taken);
    }
    forall p | p in s'.arrived && p.number > s'.last
      ensures p in s'.held
    {
      assert p !in taken;
      assert p !in multiset(taken);
    }
  }

  /** A dispatch that does not reset: the packet is received, then slots are drained. */
  lemma SplitStep(s: Feed, payload: seq<byte>, filter: nat, depth: nat, s': Feed)
    returns (m: Feed, taken: seq<Packet>)
    requires Inv(s) && Step(s, payload, filter, depth, s') && ZeroIsDropped(s, payload, filter)
    requires |s.held| < depth
    ensures m == Received(s, payload, filter)
    ensures m == INITIAL || Windowed(m)
    ensures if m == INITIAL then s' == m && taken == [] else DrainTaking(m, taken, s') && Inv(s')
    ensures s.held <= m.held && s.last <= m.last && s.delivered <= m.delivered
    ensures s.first != 0 ==> m.first == s.first
  {
    var frame := ParseFrame(payload);
    m, taken := Received(s, payload, filter), [];
    if frame.Some? {
      AcceptKeeps(s, Packet(frame.value.number, payload), filter);
      AcceptGrows(s, Packet(frame.value.number, payload), filter);
    }
    if m != INITIAL {
      taken :| DrainTaking(m, taken, s');
      DrainKeeps(m, taken, s');
    }
  }

  /** Every dispatch keeps the invariant, whatever the interleaving. */
  lemma StepKeeps(s: Feed, payload: seq<byte>, filter: nat, depth: nat, s': Feed)
    requires Inv(s) && Step(s, payload, filter, depth, s') && ZeroIsDropped(s, payload, filter)
    ensures Inv(s')
  {
    if |s.held| < depth {
      var m, taken := SplitStep(s, payload, filter, depth, s');
    }
  }

  // ---------- whole runs ----------

  /** `trace` lists the channel states of a run: one dispatch for each payload, the two
      feeds interleaved in any way. */
  ghost predicate Run(trace: seq<Feed>, payloads: seq<seq<byte>>, filter: nat, depth: nat)
    decreases |payloads|
  {
    && |trace| == |payloads| + 1
    && (payloads != [] ==>
      && ZeroIsDropped(trace[0], payloads[0], filter)
      && Step(trace[0], payloads[0], filter, depth, trace[1])
      && Run(trace[1..], payloads[1..], filter, depth))
  }

  lemma {:induction false} RunKeeps(trace: seq<Feed>, payloads: seq<seq<byte>>, filter: nat, depth: nat, k: nat)
    requires Run(trace, payloads, filter, depth) && Inv(trace[0]) && k < |trace|
    ensures Inv(trace[k])
    decreases k
  {
    if k > 0 {
      StepKeeps(trace[0], payloads[0], filter, depth, trace[1]);
      RunKeeps(trace[1..], payloads[1..], filter, depth, k - 1);
    }
  }

  // ---------- what arrives, read off the payloads ----------

  /** The packet of a payload, if it has one that passes the filter. */
  function Passing(payload: seq<byte>, filter: nat): Option<Packet> {
    match ParseFrame(payload)
    case None => None
    case Some(frame) => if frame.number >= filter then Some(Packet(frame.number, payload)) else None
  }

  /** The packets that the payloads `from` to `to` bring. */
  ghost function Arrivals(payloads: seq<seq<byte>>, from: nat, to: nat, filter: nat): set<Packet>
    requires from <= to <= |payloads|
  {
    set i | from <= i < to && Passing(payloads[i], filter).Some? :: Passing(payloads[i], filter).value
  }

  /** The first of them. */
  function FirstArrival(payloads: seq<seq<byte>>, from: nat, to: nat, filter: nat): Option<Packet>
    requires from <= to <= |payloads|
    decreases |payloads| - from
  {
    if from == to then None
    else if Passing(payloads[from], filter).Some? then Passing(payloads[from], filter)
    else FirstArrival(payloads, from + 1, to, filter)
  }

  function NumberOf(p: Option<Packet>): Seqno { if p.None? then 0 else p.value.number }

  /** The first payload behind the last dispatch, among the first `k`, that found the buffer
      full. */
  function SinceReset(trace: seq<Feed>, k: nat, depth: nat): (from: nat)
    requires k < |trace|
    ensures from <= k
  {
    if k == 0 then 0 else if |trace[k - 1].held| >= depth then k else SinceReset(trace, k - 1, depth)
  }

  lemma {:induction false} RunAt(trace: seq<Feed>, payloads: seq<seq<byte>>, filter: nat, depth: nat, k: nat)
    requires Run(trace, payloads, filter, depth) && k < |payloads|
    ensures ZeroIsDropped(trace[k], payloads[k], filter) && Step(trace[k], payloads[k], filter, depth, trace[k + 1])
    decreases k
  {
    if k > 0 {
      RunAt(trace[1..], payloads[1..], filter, depth, k - 1);
    }
  }

  function Also(arrived: set<Packet>, p: Option<Packet>): set<Packet> {
    if p.None? then arrived else arrived + {p.value}
  }

  function Earlier(first: Option<Packet>, p: Option<Packet>): Option<Packet> { if first.Some? then first else p }

  lemma OneMoreArrival(payloads: seq<seq<byte>>, from: nat, k: nat, n: nat, filter: nat)
    requires from <= k < n <= |payloads| && n == k + 1
    ensures Arrivals(payloads, from, n, filter)
         == Also(Arrivals(payloads, from, k, filter), Passing(payloads[k], filter))
  {
  }

  lemma {:induction false} OneMoreFirst(payloads: seq<seq<byte>>, from: nat, k: nat, n: nat, filter: nat)
    requires from <= k < n <= |payloads| && n == k + 1
    ensures FirstArrival(payloads, from, n, filter)
         == Earlier(FirstArrival(payloads, from, k, filter), Passing(payloads[k], filter))
    decreases |payloads| - from
  {
    if from < k {
      OneMoreFirst(payloads, from + 1, k, n, filter);
    }
  }

  /** The channel has received `arrived`; the first of it opened the window and was delivered. */
  ghost predicate Saw(s: Feed, arrived: set<Packet>, first: Option<Packet>) {
    && s.arrived == arrived && s.first == NumberOf(first)
    && (if first.None? then s.first == 0 && s.delivered == []
        else s.first != 0 && s.delivered != [] && s.delivered[0] == first.value)
  }

  lemma AcceptSees(s: Feed, p: Packet, filter: nat, arrived: set<Packet>, first: Option<Packet>)
    requires NotZero(s, p.number, filter) && Saw(s, arrived, first)
    ensures var passing := if p.number >= filter then Some(p) else None;
      Saw(Accept(s, p, filter), Also(arrived, passing), Earlier(first, passing))
  {
  }

  lemma StepSees(
    s: Feed, payload: seq<byte>, filter: nat, depth: nat, s': Feed, arrived: set<Packet>, first: Option<Packet>)
    requires ZeroIsDropped(s, payload, filter) && Step(s, payload, filter, depth, s') && |s.held| < depth
    requires Saw(s, arrived, first)
    ensures var p := Passing(payload, filter); Saw(s', Also(arrived, p), Earlier(first, p))
  {
    var frame := ParseFrame(payload);
    if frame.Some? {
      AcceptSees(s, Packet(frame.value.number, payload), filter, arrived, first);
    }
    var m := Received(s, payload, filter);
    assert Drained(m, s');
    if m.first != 0 {
      var taken :| DrainTaking(m, taken, s');
    }
  }

  /** In every run: what the channel has received since the last reset are the packets of the
      payloads since then, and the first of them opened the window. */
  lemma {:induction false} ArrivalsAreSeen(
    trace: seq<Feed>, payloads: seq<seq<byte>>, filter: nat, depth: nat, k: nat)
    requires Run(trace, payloads, filter, depth) && trace[0] == INITIAL && k < |trace|
    ensures var from := SinceReset(trace, k, depth);
      Saw(trace[k], Arrivals(payloads, from, k, filter), FirstArrival(payloads, from, k, filter))
    decreases k
  {
    if k > 0 {
      var j := k - 1;
      ArrivalsAreSeen(trace, payloads, filter, depth, j);
      RunAt(trace, payloads, filter, depth, j);
      if |trace[j].held| < depth {
        var from := SinceReset(trace, j, depth);
        StepSees(trace[j], payloads[j], filter, depth, trace[k],
                 Arrivals(payloads, from, j, filter), FirstArrival(payloads, from, j, filter));
        OneMoreArrival(payloads, from, j, k, filter);
        OneMoreFirst(payloads, from, j, k, filter);
      }
    }
  }

  // ---------- the maximal prefix ----------

  /** `ps` is the maximal gap-free prefix of `arrived`: consecutive from the number `first`
      on, each of them received, and the number after the last one is nowhere among them. */
  ghost predicate MaximalPrefix(ps: seq<Packet>, arrived: set<Packet>, first: Seqno) {
    && (arrived == {} <==> ps == [])
    && Consecutive(ps, first)
    && (forall p :: p in ps ==> p in arrived)
    && (forall p :: p in arrived ==> p.number != first + |ps|)
  }

  lemma InvIsMaximalPrefix(s: Feed)
    requires Inv(s)
    ensures MaximalPrefix(s.delivered, s.arrived, s.first)
  {
    assert s.delivered != [] ==> s.delivered[0] in s.delivered;
  }

  /** In every run, after every dispatch, exactly the receivable stream was delivered: the
      maximal gap-free prefix of the packets since the last reset, from the first of them on. */
  lemma DeliversMaximalPrefix(trace: seq<Feed>, payloads: seq<seq<byte>>, filter: nat, depth: nat, k: nat)
    requires Run(trace, payloads, filter, depth) && trace[0] == INITIAL && k < |trace|
    ensures var from := SinceReset(trace, k, depth);
      var first := FirstArrival(payloads, from, k, filter);
      && MaximalPrefix(trace[k].delivered, Arrivals(payloads, from, k, filter), NumberOf(first))
      && (first.Some? ==> trace[k].delivered != [] && trace[k].delivered[0] == first.value)
  {
    RunKeeps(trace, payloads, filter, depth, k);
    InvIsMaximalPrefix(trace[k]);
    ArrivalsAreSeen(trace, payloads, filter, depth, k);
  }

  /** A and B carry the same packet under the same number. */
  ghost predicate Redundant(ps: set<Packet>) {
    forall p, q :: p in ps && q in ps && p.number == q.number ==> p == q
  }

  /** The merged stream depends on which packets arrived since the reset and which number
      came first, not on the interleaving, the duplicates or the order of arrival: in any two
      runs, with any filters and buffers. */
  lemma InterleavingIrrelevant(
    trace: seq<Feed>, payloads: seq<seq<byte>>, filter: nat, depth: nat, k: nat,
    trace': seq<Feed>, payloads': seq<seq<byte>>, filter': nat, depth': nat, k': nat)
    requires Run(trace, payloads, filter, depth) && trace[0] == INITIAL && k < |trace|
    requires Run(trace', payloads', filter', depth') && trace'[0] == INITIAL && k' < |trace'|
    requires var from, from' := SinceReset(trace, k, depth), SinceReset(trace', k', depth');
      && Arrivals(payloads, from, k, filter) == Arrivals(payloads', from', k', filter')
      && Redundant(Arrivals(payloads, from, k, filter))
      && NumberOf(FirstArrival(payloads, from, k, filter)) == NumberOf(FirstArrival(payloads', from', k', filter'))
    ensures trace[k].delivered == trace'[k'].delivered
  {
    DeliversMaximalPrefix(trace, payloads, filter, depth, k);
    DeliversMaximalPrefix(trace', payloads', filter', depth', k');
    var from := SinceReset(trace, k, depth);
    SamePrefix(trace[k].delivered, trace'[k'].delivered, Arrivals(payloads, from, k, filter),
               NumberOf(FirstArrival(payloads, from, k, filter)));
  }

  lemma SamePrefix(ps: seq<Packet>, qs: seq<Packet>, arrived: set<Packet>, first: Seqno)
    requires MaximalPrefix(ps, arrived, first) && MaximalPrefix(qs, arrived, first) && Redundant(arrived)
    ensures ps == qs
  {
    NoLonger(ps, qs, arrived, first);
    NoLonger(qs, ps, arrived, first);
    forall i | 0 <= i < |ps|
      ensures ps[i] == qs[i]
    {
      assert ps[i] in ps && qs[i] in qs;
    }
  }

  lemma NoLonger(ps: seq<Packet>, qs: seq<Packet>, arrived: set<Packet>, first: Seqno)
    requires MaximalPrefix(ps, arrived, first) && MaximalPrefix(qs, arrived, first)
    ensures |qs| <= |ps|
  {
    var n := |ps|;
    assert n < |qs| ==> qs[n] in qs && qs[n].number == first + n;
  }

  // ---------- deliveries as single window updates ----------

  datatype Window = Window(first: Seqno, last: Seqno)

  function WindowOf(s: Feed): Window { Window(s.first, s.last) }

  /** The frame numbers the parser may be handed next. */
  predicate Enabled(w: Window, n: Seqno) {
    n >= 1 && (w.first == 0 || n == w.last + 1)
  }

  function Extend(w: Window, n: Seqno): Window {
    Window(if w.first == 0 then n else w.first, n)
  }

  ghost predicate Deliveries(w: Window, ns: seq<Packet>, w': Window)
    decreases |ns|
  {
    if ns == [] then w' == w
    else Enabled(w, ns[0].number) && Deliveries(Extend(w, ns[0].number), ns[1..], w')
  }

  lemma {:induction false} ConsecutiveAreDeliveries(w: Window, ps: seq<Packet>, last: Seqno)
    requires w.first != 0 && last == w.last + |ps|
    requires Consecutive(ps, w.last + 1)
    ensures Deliveries(w, ps, Window(w.first, last))
    decreases |ps|
  {
    if ps != [] {
      ConsecutiveAreDeliveries(Extend(w, ps[0].number), ps[1..], last);
    }
  }

  lemma OpeningDeliveries(ps: seq<Packet>, first: Seqno, last: Seqno)
    requires first != 0 && |ps| == last - first + 1 && ps != [] && Consecutive(ps, first)
    ensures Deliveries(Window(0, 0), ps, Window(first, last))
  {
    assert Consecutive(ps[1..], first + 1);
    ConsecutiveAreDeliveries(Window(first, first), ps[1..], last);
  }

  lemma GrowthIsDeliveries(s: Feed, s': Feed)
    requires Inv(s) && Inv(s') && s.delivered <= s'.delivered
    requires s.first != 0 ==> s'.first == s.first
    ensures Deliveries(WindowOf(s), s'.delivered[|s.delivered|..], WindowOf(s'))
  {
    var more := s'.delivered[|s.delivered|..];
    if s.first != 0 {
      assert Consecutive(more, s.last + 1);
      ConsecutiveAreDeliveries(WindowOf(s), more, s'.last);
    } else if s'.first != 0 {
      assert more == s'.delivered;
      OpeningDeliveries(more, s'.first, s'.last);
    }
  }

  /** A dispatch either resets the channel or hands the parser further packets, each
      with the one number that the window allows next. */
  lemma StepIsDeliveries(s: Feed, payload: seq<byte>, filter: nat, depth: nat, s': Feed)
    requires Inv(s) && Step(s, payload, filter, depth, s') && ZeroIsDropped(s, payload, filter)
    requires |s.held| < depth
    ensures s.delivered <= s'.delivered
    ensures Deliveries(WindowOf(s), s'.delivered[|s.delivered|..], WindowOf(s'))
  {
    StepGrows(s, payload, filter, depth, s');
    GrowthIsDeliveries(s, s');
  }

  lemma StepGrows(s: Feed, payload: seq<byte>, filter: nat, depth: nat, s': Feed)
    requires Inv(s) && Step(s, payload, filter, depth, s') && ZeroIsDropped(s, payload, filter)
    requires |s.held| < depth
    ensures Inv(s') && s.delivered <= s'.delivered && (s.first != 0 ==> s'.first == s.first)
  {
    var m, taken := SplitStep(s, payload, filter, depth, s');
  }

  // ---------- where the promise ends ----------

  /** The delivered packets do not fit the window. */
  predicate Misfit(s: Feed) { s.delivered != [] && (s.first == 0 || |s.delivered| != s.last - s.first + 1) }

  lemma ZeroMisfits(s: Feed, p: Packet, filter: nat, s': Feed)
    requires Inv(s) && !NotZero(s, p.number, filter) && Drained(Accept(s, p, filter), s')
    ensures Misfit(s')
  {
    if s.first != 0 {
      var m := Accept(s, p, filter);
      assert m == Deliver(s.(arrived := s.arrived + {p}), p);
      var taken :| DrainTaking(m, taken, s');
      DrainCounts(m, taken, s');
    }
  }

  lemma DrainCounts(s: Feed, taken: seq<Packet>, s': Feed)
    requires DrainTaking(s, taken, s')
    ensures s'.first == s.first && s'.last - s.last == |s'.delivered| - |s.delivered|
    ensures |s'.delivered| >= |s.delivered|
  {
  }

  /** A dispatch that does not reset keeps the invariant, and with it the order of delivery,
      if and only if it does not accept a frame numbered zero. */
  lemma StepKeepsIff(s: Feed, payload: seq<byte>, filter: nat, depth: nat, s': Feed)
    requires Inv(s) && Step(s, payload, filter, depth, s') && |s.held| < depth
    ensures Inv(s') <==> ZeroIsDropped(s, payload, filter)
  {
    if ZeroIsDropped(s, payload, filter) {
      StepKeeps(s, payload, filter, depth, s');
    } else {
      ZeroMisfits(s, Packet(ParseFrame(payload).value.number, payload), filter, s');
    }
  }

  /** With an unfiltered frame zero in front, consecutive delivery is lost. */
  lemma ZeroFrameBreaksOrder() returns (a: seq<byte>, b: seq<byte>, s: Feed, t: Feed)
    ensures Step(INITIAL, a, 0, 10, s) && Step(s, b, 0, 10, t)
    ensures |t.delivered| == 2 && t.delivered[0].number == 0 && t.delivered[1].number == 5
  {
    a, b := EncodeFrame(Frame(0, 0)), EncodeFrame(Frame(5, 0));
    FrameIsReceived(INITIAL, Frame(0, 0));
    s := Accept(INITIAL, Packet(0, a), 0);
    FrameIsReceived(s, Frame(5, 0));
    t := Accept(s, Packet(5, b), 0);
    NothingToDrain(t);
  }

  lemma NothingToDrain(s: Feed)
    requires NoneNumbered(s.held, s.last + 1)
    ensures Drained(s, s)
  {
    assert s.held - multiset([]) == s.held && s.delivered + [] == s.delivered;
    assert DrainTaking(s, [], s);
  }

  lemma FrameIsReceived(s: Feed, frame: Frame)
    requires frame.sendingTime == 0
    ensures Received(s, EncodeFrame(frame), 0) == Accept(s, Packet(frame.number, EncodeFrame(frame)), 0)
  {
    ParseUndoesEncode(frame, []);
    assert EncodeFrame(frame) + [] == EncodeFrame(frame);
  }
}
