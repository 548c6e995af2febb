/** What holds of recovery in every run, whatever the sequencers do. The properties read
    the log of observable outputs, not the state. */
module RecoverySafety {
  import opened PacketFrame
  import opened FeedArbitration
  import opened Recovery
  import CA = ChunkAssembly

  // ---------- reading the log ----------

  function Last(log: seq<Output>): Output
    requires log != []
  {
    log[|log| - 1]
  }

  function Front(log: seq<Output>): seq<Output>
    requires log != []
  {
    log[..|log| - 1]
  }

  /** The frame of the latest gap found for a security since the last channel reset, or
      zero. */
  function LatestGap(log: seq<Output>, id: int): Seqno {
    if log == [] || Last(log).Reset? then 0
    else if Last(log).Gap? && Last(log).id == id then Last(log).frame
    else LatestGap(Front(log), id)
  }

  /** A gap has been found and no SNAPSHOT of this book has been published after it. */
  predicate AwaitsSnapshot(log: seq<Output>, kind: Kind, id: int) {
    if log == [] then false
    else if Last(log) == Snapshot(kind, id) then false
    else if Last(log).Gap? && Last(log).id == id then true
    else AwaitsSnapshot(Front(log), kind, id)
  }

  /** The frames handed to the parser since the last channel reset, in order. */
  function FramesSinceReset(log: seq<Output>): seq<Seqno> {
    if log == [] || Last(log).Reset? then []
    else if Last(log).Delivered? then FramesSinceReset(Front(log)) + [Last(log).frame]
    else FramesSinceReset(Front(log))
  }

  /** Every recovery snapshot offered is as of a frame no older than the latest gap. */
  ghost predicate OffersAreGated(log: seq<Output>) { forall j :: GatedAt(log, j) }

  predicate GatedAt(log: seq<Output>, j: int) {
    0 <= j < |log| && log[j].Offered? ==>
      log[j].flag != 0 && log[j].number >= log[j].flag >= LatestGap(log[..j], log[j].id)
  }

  /** `frames` lists every number from `from` to `to`, one after the other. */
  ghost predicate Covers(frames: seq<Seqno>, from: int, to: int) {
    exists k :: CoversAt(frames, k, from, to)
  }

  ghost predicate CoversAt(frames: seq<Seqno>, k: int, from: int, to: int) {
    && 0 <= k <= k + to - from < |frames|
    && forall i :: k <= i <= k + to - from ==> frames[i] == from + i - k
  }

  /** A snapshot is forced if and only if the frames from the flag to it were delivered, one
      after the other, since the reset. */
  ghost predicate ForceIsExact(log: seq<Output>) { forall j :: ExactAt(log, j) }

  ghost predicate ExactAt(log: seq<Output>, j: int) {
    0 <= j < |log| && log[j].Offered? ==>
      (log[j].force <==> Covers(FramesSinceReset(log[..j]), log[j].flag, log[j].number))
  }

  // ---------- the invariant ----------

  ghost predicate WindowInv(s: System) {
    var frames := FramesSinceReset(s.log);
    if s.window.first == 0 then s.window.last == 0 && frames == []
    else
      && s.window.first <= s.window.last
      && |frames| == s.window.last - s.window.first + 1
      && forall i :: 0 <= i < |frames| ==> frames[i] == s.window.first + i
  }

  ghost predicate BookInv(s: System, id: int) {
    && LatestGap(s.log, id) <= s.window.last
    && (id !in s.books ==> !AwaitsSnapshot(s.log, Mbp, id) && !AwaitsSnapshot(s.log, Mbo, id))
    && (id in s.books ==> FlagInv(s, Mbp, id) && FlagInv(s, Mbo, id))
  }

  ghost predicate FlagInv(s: System, kind: Kind, id: int)
    requires id in s.books
  {
    var flag := s.books[id].Flag(kind);
    if flag == 0 then !AwaitsSnapshot(s.log, kind, id) else flag >= LatestGap(s.log, id)
  }

  ghost predicate SystemInv(s: System) {
    && WindowInv(s)
    && OffersAreGated(s.log)
    && ForceIsExact(s.log)
    && forall id :: BookInv(s, id)
  }

  // ---------- appending to the log ----------

  predicate Quiet(o: Output) { o.Stale? || o.Update? || o.Snapshot? || o.Requested? || o.Threw? }

  lemma {:induction false} QuietSuffix(log: seq<Output>, outs: seq<Output>, id: int)
    requires forall o :: o in outs ==> Quiet(o)
    ensures LatestGap(log + outs, id) == LatestGap(log, id)
    ensures FramesSinceReset(log + outs) == FramesSinceReset(log)
    ensures forall kind ::
      AwaitsSnapshot(log + outs, kind, id) <==> AwaitsSnapshot(log, kind, id) && Snapshot(kind, id) !in outs
    decreases |outs|
  {
    if outs == [] {
      assert log + outs == log;
    } else {
      QuietSuffix(log, Front(outs), id);
      assert Front(log + outs) == log + Front(outs) && Last(log + outs) == Last(outs);
      assert Quiet(Last(outs));
      assert outs == Front(outs) + [Last(outs)];
    }
  }

  lemma OffersExtend(log: seq<Output>, outs: seq<Output>)
    requires OffersAreGated(log) && ForceIsExact(log)
    requires forall o :: o in outs ==> !o.Offered?
    ensures OffersAreGated(log + outs) && ForceIsExact(log + outs)
  {
    forall j
      ensures GatedAt(log + outs, j) && ExactAt(log + outs, j)
    {
      EarlierOffer(log, outs, j);
      assert |log| <= j < |log + outs| ==> (log + outs)[j] in outs;
    }
  }

  lemma EarlierOffer(log: seq<Output>, outs: seq<Output>, j: int)
    requires OffersAreGated(log) && ForceIsExact(log)
    ensures j < |log| ==> GatedAt(log + outs, j) && ExactAt(log + outs, j)
  {
    if 0 <= j < |log| {
      assert GatedAt(log, j) && ExactAt(log, j);
      assert (log + outs)[j] == log[j] && (log + outs)[..j] == log[..j];
    }
  }

  /** Publications of one book keep everything, provided the flag drops to zero only
      with a SNAPSHOT of that book, and is otherwise no older than the latest gap. */
  lemma QuietKeeps(s: System, id: int, b: Book, outs: seq<Output>)
    requires SystemInv(s) && id in s.books
    requires forall o :: o in outs ==> Quiet(o) && (o.Snapshot? ==> o.id == id)
    requires forall kind :: FlagMoves(s, id, kind, b, outs)
    ensures SystemInv(Put(s, id, (b, outs)))
  {
    var s' := Put(s, id, (b, outs));
    OffersExtend(s.log, outs);
    QuietSuffix(s.log, outs, id);
    forall i
      ensures BookInv(s', i)
    {
      QuietSuffix(s.log, outs, i);
      assert BookInv(s, i);
      if i == id {
        assert FlagMoves(s, id, Mbp, b, outs) && FlagMoves(s, id, Mbo, b, outs);
      }
    }
  }

  ghost predicate FlagMoves(s: System, id: int, kind: Kind, b: Book, outs: seq<Output>)
    requires id in s.books
  {
    if b.Flag(kind) == 0 then s.books[id].Flag(kind) == 0 || Snapshot(kind, id) in outs
    else b.Flag(kind) >= LatestGap(s.log, id)
  }

  // ---------- the transitions ----------

  lemma {:induction false} PublishedIsQuiet(kind: Kind, id: int, calls: seq<Callback>, number: Seqno)
    ensures forall o :: o in Published(kind, id, calls, number) ==> Quiet(o) && o.id == id && !o.Stale?
    ensures Snapshot(kind, id) in Published(kind, id, calls, number) <==> PublishSnapshot in calls
  {
    if calls != [] {
      PublishedIsQuiet(kind, id, calls[1..], number);
      assert calls == [calls[0]] + calls[1..];
    }
  }

  lemma ToldIsQuiet(kind: Kind, id: int, script: Script, frame: Seqno)
    ensures forall o :: o in Told(kind, id, script, frame) ==> Quiet(o) && o.id == id && !o.Stale?
    ensures Snapshot(kind, id) in Told(kind, id, script, frame) <==> PublishSnapshot in script.calls
  {
    PublishedIsQuiet(kind, id, script.calls, frame);
  }

  lemma {:induction false} FlagAfterMoves(flag: Seqno, calls: seq<Callback>, number: Seqno)
    requires number != 0
    ensures var r := FlagAfter(flag, calls, number);
      (r == 0 ==> flag == 0 || PublishSnapshot in calls) && (r != 0 ==> r == flag || r == number)
    decreases |calls|
  {
    if calls != [] {
      FlagAfterMoves(FlagStep(flag, calls[0], number), calls[1..], number);
    }
  }

  lemma IncrementalKeeps(s: System, kind: Kind, id: int, script: Script, frame: Seqno)
    requires SystemInv(s) && id in s.books && frame == s.window.last && frame >= 1
    ensures SystemInv(Put(s, id, Incrementally(s.books[id], kind, id, script, frame)))
  {
    var r := Incrementally(s.books[id], kind, id, script, frame);
    ToldIsQuiet(kind, id, script, frame);
    FlagAfterMoves(s.books[id].Flag(kind), script.calls, frame);
    assert BookInv(s, id);
    QuietKeeps(s, id, r.0, r.1);
  }

  lemma GapKeeps(s: System, id: int, b: Book, frame: Seqno)
    requires SystemInv(s) && id in s.books && frame == s.window.last && frame >= 1
    requires b.mbp == frame && b.mbo == frame
    ensures SystemInv(Put(s, id, (b, [Gap(id, frame), Stale(Mbp, id), Stale(Mbo, id)])))
  {
    var log := s.log + [Gap(id, frame)];
    var m := System(s.window, s.books[id := b], log);
    assert Front(log) == s.log;
    OffersExtend(s.log, [Gap(id, frame)]);
    forall i
      ensures BookInv(m, i)
    {
      assert BookInv(s, i);
    }
    var stale := [Stale(Mbp, id), Stale(Mbo, id)];
    QuietKeeps(m, id, b, stale);
    assert log + stale == s.log + [Gap(id, frame), Stale(Mbp, id), Stale(Mbo, id)];
    assert m.books[id := b] == s.books[id := b];
  }

  lemma CheckKeeps(s: System, id: int, rptSeq: Seqno, frame: Seqno)
    requires SystemInv(s) && id in s.books && frame == s.window.last && frame >= 1
    ensures SystemInv(Put(s, id, CheckReport(s.books[id], id, rptSeq, frame)))
  {
    var b := s.books[id];
    var r := CheckReport(b, id, rptSeq, frame);
    if IsGap(b.rptSeq, rptSeq) {
      GapKeeps(s, id, r.0, frame);
    } else {
      assert BookInv(s, id);
      QuietKeeps(s, id, r.0, []);
    }
  }

  lemma {:induction false} ItemsKeep(s: System, items: seq<Item>, frame: Seqno)
    requires SystemInv(s) && frame == s.window.last && frame >= 1
    ensures SystemInv(StepItems(s, items, frame))
    decreases |items|
  {
    if items != [] {
      var item := items[0];
      if item.id in s.books {
        match item {
          case Check(id, rptSeq) => CheckKeeps(s, id, rptSeq, frame);
          case Dispatch(kind, id, script) => IncrementalKeeps(s, kind, id, script, frame);
        }
      }
      ItemsKeep(StepItem(s, item, frame), items[1..], frame);
    }
  }

  lemma OpenedKeeps(s: System, frame: Seqno)
    requires SystemInv(s) && Enabled(s.window, frame)
    ensures SystemInv(Opened(s, frame))
  {
    var s' := Opened(s, frame);
    assert Front(s'.log) == s.log;
    OffersExtend(s.log, [Delivered(frame)]);
    forall i
      ensures BookInv(s', i)
    {
      assert BookInv(s, i);
    }
  }

  lemma ResetKeeps(s: System)
    requires SystemInv(s)
    ensures SystemInv(StepEvent(s, ChannelReset))
  {
    var s' := StepEvent(s, ChannelReset);
    assert Front(s'.log) == s.log;
    OffersExtend(s.log, [Reset]);
    forall i
      ensures BookInv(s', i)
    {
      assert BookInv(s, i);
    }
  }

  /** For a snapshot that passed the gate, the force decision is exact: it is taken if and
      only if every frame from the flag to the snapshot was delivered since the reset. */
  lemma ForceIffCovered(s: System, flag: Seqno, number: Seqno)
    requires WindowInv(s) && Passes(flag, number)
    ensures Force(s.window, flag, number) <==> Covers(FramesSinceReset(s.log), flag, number)
  {
    var frames := FramesSinceReset(s.log);
    if Force(s.window, flag, number) {
      assert CoversAt(frames, flag - s.window.first, flag, number);
    }
    if Covers(frames, flag, number) {
      var k :| CoversAt(frames, k, flag, number);
      assert frames[k] == flag && frames[k + number - flag] == number;
    }
  }

  lemma OfferLogged(s: System, o: Output)
    requires SystemInv(s) && o.Offered? && o.id in s.books
    requires Passes(o.flag, o.number) && o.flag == s.books[o.id].Flag(o.kind)
    requires o.force == Force(s.window, o.flag, o.number)
    ensures SystemInv(s.(log := s.log + [o]))
  {
    var s' := s.(log := s.log + [o]);
    assert Front(s'.log) == s.log;
    forall i
      ensures BookInv(s', i)
    {
      assert BookInv(s, i);
    }
    OfferIsSafe(s, o);
  }

  lemma OfferIsSafe(s: System, o: Output)
    requires SystemInv(s) && o.Offered? && o.id in s.books
    requires Passes(o.flag, o.number) && o.flag == s.books[o.id].Flag(o.kind)
    requires o.force == Force(s.window, o.flag, o.number)
    ensures OffersAreGated(s.log + [o]) && ForceIsExact(s.log + [o])
  {
    assert BookInv(s, o.id);
    ForceIffCovered(s, o.flag, o.number);
    assert (s.log + [o])[..|s.log|] == s.log;
    forall j
      ensures GatedAt(s.log + [o], j) && ExactAt(s.log + [o], j)
    {
      EarlierOffer(s.log, [o], j);
    }
  }

  lemma RecoveredKeeps(
    s: System, kind: Kind, id: int, b: Book, script: Script, number: Seqno, contents: seq<Order>)
    requires SystemInv(s) && id in s.books && Passes(s.books[id].Flag(kind), number)
    requires b.mbp == s.books[id].mbp && b.mbo == s.books[id].mbo
    ensures SystemInv(Put(s, id, Recovered(b, kind, id, script, number, s.window, contents)))
  {
    var flag := b.Flag(kind);
    var o := Offered(kind, id, number, flag, Force(s.window, flag, number), contents);
    OfferLogged(s, o);
    var m := s.(log := s.log + [o]);
    var b' := b.Flagged(kind, FlagAfter(flag, script.calls, number));
    PublishedIsQuiet(kind, id, script.calls, number);
    FlagAfterMoves(flag, script.calls, number);
    assert BookInv(m, id);
    QuietKeeps(m, id, b', Published(kind, id, script.calls, number));
    var outs := Published(kind, id, script.calls, number);
    assert m.log + outs == s.log + ([o] + outs);
  }

  lemma MboSnapshotKeeps(
    s: System, id: int, number: Seqno, current: Seqno, total: Seqno, ids: seq<nat>, script: Script)
    requires SystemInv(s) && id in s.books
    ensures SystemInv(Put(s, id, OnMboSnapshot(s.books[id], id, number, current, total, ids, script, s.window)))
  {
    var b := s.books[id];
    if !Passes(b.mbo, number) {
      assert s.books[id := b] == s.books && s.log + [] == s.log;
    } else {
      var (assembly, call) := CA.Offer(b.assembly, CA.Chunk(current, total, Tagged(ids, number)));
      var b' := b.(assembly := assembly);
      if call.Call? && call.last {
        RecoveredKeeps(s, Mbo, id, b', script, number, call.orders);
      } else {
        assert BookInv(s, id);
        QuietKeeps(s, id, b', []);
      }
    }
  }

  lemma StepEventKeeps(s: System, e: Event)
    requires SystemInv(s) && EventEnabled(s, e)
    ensures SystemInv(StepEvent(s, e))
  {
    match e
    case Define(id) =>
      forall i
        ensures BookInv(StepEvent(s, e), i)
      {
        assert BookInv(s, i);
      }
    case Deliver(frame, items) =>
      OpenedKeeps(s, frame);
      ItemsKeep(Opened(s, frame), items, frame);
    case ChannelReset =>
      ResetKeeps(s);
    case MbpSnapshot(id, number, nonEmpty, script) =>
      if id in s.books {
        if Passes(s.books[id].mbp, number) && nonEmpty {
          RecoveredKeeps(s, Mbp, id, s.books[id], script, number, []);
        } else {
          assert s.books[id := s.books[id]] == s.books && s.log + [] == s.log;
        }
      }
    case MboSnapshot(id, number, current, total, ids, script) =>
      if id in s.books {
        MboSnapshotKeeps(s, id, number, current, total, ids, script);
      }
  }

  lemma {:induction false} ExecuteKeeps(s: System, es: seq<Event>)
    requires SystemInv(s) && Executable(s, es)
    ensures SystemInv(Execute(s, es))
    decreases |es|
  {
    if es != [] {
      StepEventKeeps(s, es[0]);
      ExecuteKeeps(StepEvent(s, es[0]), es[1..]);
    }
  }

  // ---------- the theorems ----------

  lemma StartInv()
    ensures SystemInv(START)
  {
  }

  /** In every run, every recovery snapshot that reaches a sequencer is at least as new as
      the latest gap, and a forced one bridges only delivered frames. */
  lemma RecoveryIsGatedAndForceExact(es: seq<Event>)
    requires Executable(START, es)
    ensures OffersAreGated(Execute(START, es).log) && ForceIsExact(Execute(START, es).log)
  {
    StartInv();
    ExecuteKeeps(START, es);
  }

  /** In every run, a book that a gap made stale stays flagged until a SNAPSHOT of that
      same book has been published. */
  lemma RecoveryIsNeverForgotten(es: seq<Event>, kind: Kind, id: int)
    requires Executable(START, es)
    ensures var s := Execute(START, es);
      AwaitsSnapshot(s.log, kind, id) ==> id in s.books && s.books[id].Flag(kind) != 0
  {
    StartInv();
    ExecuteKeeps(START, es);
    assert BookInv(Execute(START, es), id);
  }

  lemma {:induction false} ExecuteAppend(s: System, a: seq<Event>, b: seq<Event>)
    ensures Execute(s, a + b) == Execute(Execute(s, a), b)
    ensures Executable(s, a + b) <==> Executable(s, a) && Executable(Execute(s, a), b)
    decreases |a|
  {
    if a == [] {
      assert a + b == b;
    } else {
      assert (a + b)[1..] == a[1..] + b;
      ExecuteAppend(StepEvent(s, a[0]), a[1..], b);
    }
  }

  /** The deliver events of packets released by feed arbitration. */
  function Frames(ps: seq<Packet>, items: seq<seq<Item>>): seq<Event>
    requires |ps| == |items|
  {
    if ps == [] then [] else [Deliver(ps[0].number, items[0])] + Frames(ps[1..], items[1..])
  }

  lemma {:induction false} ItemsKeepWindow(s: System, items: seq<Item>, frame: Seqno)
    ensures StepItems(s, items, frame).window == s.window
    decreases |items|
  {
    if items != [] {
      ItemsKeepWindow(StepItem(s, items[0], frame), items[1..], frame);
    }
  }

  /** What arbitration hands the parser in one dispatch is a legal run of this system,
      whatever the handlers find in the frames, and ends in the same window. */
  lemma {:induction false} DeliveriesAreExecutable(s: System, ps: seq<Packet>, items: seq<seq<Item>>, w: Window)
    requires |ps| == |items| && Deliveries(s.window, ps, w)
    ensures Executable(s, Frames(ps, items)) && Execute(s, Frames(ps, items)).window == w
    decreases |ps|
  {
    if ps != [] {
      var e := Deliver(ps[0].number, items[0]);
      ItemsKeepWindow(Opened(s, e.frame), e.items, e.frame);
      assert Frames(ps, items)[1..] == Frames(ps[1..], items[1..]);
      DeliveriesAreExecutable(StepEvent(s, e), ps[1..], items[1..], w);
    }
  }

  /** The report numbers that count: zero is the conflated feed. */
  function Nonzero(reports: seq<Seqno>): seq<Seqno> {
    if reports == [] then [] else (if reports[0] == 0 then [] else [reports[0]]) + Nonzero(reports[1..])
  }

  ghost predicate CountUp(ns: seq<Seqno>, from: int) { forall i :: 0 <= i < |ns| ==> ns[i] == from + i }

  lemma CountUpMore(n: Seqno, rest: seq<Seqno>, from: int)
    ensures CountUp([n] + rest, from) <==> n == from && CountUp(rest, from + 1)
  {
    var ns := [n] + rest;
    assert ns[0] == n && forall i :: 0 <= i < |rest| ==> ns[i + 1] == rest[i];
    assert forall i :: 1 <= i < |ns| ==> ns[i] == rest[i - 1];
  }

  /** The gap detector stays silent on a feed exactly if its nonzero report numbers
      continue from the last one without a hole. */
  lemma {:induction false} SilentIffContiguous(b: Book, id: int, reports: seq<Seqno>, frame: Seqno)
    requires b.rptSeq + |reports| < 0x1_0000_0000
    ensures Reported(b, id, reports, frame).1 == [] <==> CountUp(Nonzero(reports), b.rptSeq + 1)
    decreases |reports|
  {
    if reports != [] {
      var b' := CheckReport(b, id, reports[0], frame).0;
      CountUpMore(reports[0], Nonzero(reports[1..]), b.rptSeq + 1);
      if reports[0] == 0 {
        assert [] + Nonzero(reports[1..]) == Nonzero(reports[1..]);
      }
      if reports[0] == 0 || reports[0] == b.rptSeq + 1 {
        SilentIffContiguous(b', id, reports[1..], frame);
      }
    }
  }

  function Reported(b: Book, id: int, reports: seq<Seqno>, frame: Seqno): (Book, seq<Output>)
    decreases |reports|
  {
    if reports == [] then (b, [])
    else
      var (b', outs) := CheckReport(b, id, reports[0], frame);
      var (b'', more) := Reported(b', id, reports[1..], frame);
      (b'', outs + more)
  }
}
