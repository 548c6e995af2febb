/** When exactly a book waits for a snapshot, and when exactly one is offered to it. */
module RecoveryFlags {
  import opened PacketFrame
  import opened FeedArbitration
  import opened Recovery
  import opened RecoverySafety
  import opened Sequences
  import CA = ChunkAssembly

  // ---------- the flag after one dispatch ----------

  /** Callback `i` is the last one that is more than an update. */
  ghost predicate LastWord(calls: seq<Callback>, i: nat)
    requires i < |calls|
  {
    calls[i] != PublishUpdate && forall j :: i < j < |calls| ==> calls[j] == PublishUpdate
  }

  /** The last word of the callbacks decides: a published snapshot settles the flag, a
      requested one raises it to the number at hand, and updates alone leave it as it was. */
  ghost predicate Decided(flag: Seqno, calls: seq<Callback>, number: Seqno, flag': Seqno) {
    && ((forall i :: 0 <= i < |calls| ==> calls[i] == PublishUpdate) ==> flag' == flag)
    && (forall i :: 0 <= i < |calls| && LastWord(calls, i) ==>
          flag' == if calls[i] == PublishSnapshot then 0 else number)
  }

  lemma {:induction false} CallbacksDecide(flag: Seqno, calls: seq<Callback>, number: Seqno)
    ensures Decided(flag, calls, number, FlagAfter(flag, calls, number))
    decreases |calls|
  {
    if calls != [] {
      CallbacksDecide(FlagStep(flag, calls[0], number), calls[1..], number);
      DecidedBefore(flag, calls, number, FlagAfter(flag, calls, number));
    }
  }

  lemma DecidedBefore(flag: Seqno, calls: seq<Callback>, number: Seqno, flag': Seqno)
    requires calls != [] && Decided(FlagStep(flag, calls[0], number), calls[1..], number, flag')
    ensures Decided(flag, calls, number, flag')
  {
    assert forall i :: 1 <= i < |calls| ==> calls[i] == calls[1..][i - 1];
    assert forall i :: 0 <= i < |calls| - 1 ==> calls[1..][i] == calls[i + 1];
    forall i | 0 <= i < |calls| && LastWord(calls, i)
      ensures flag' == if calls[i] == PublishSnapshot then 0 else number
    {
      if i > 0 {
        assert LastWord(calls[1..], i - 1);
      }
    }
  }

  /** Nothing but the flag of the book at hand changes. */
  predicate OnlyFlag(b: Book, b': Book, kind: Kind) {
    && b'.rptSeq == b.rptSeq && b'.assembly == b.assembly
    && (kind == Mbp ==> b'.mbo == b.mbo) && (kind == Mbo ==> b'.mbp == b.mbp)
  }

  /** A dispatch on the incremental channel: a throw raises the flag to the frame, whatever
      the callbacks did; otherwise they decide. */
  lemma IncrementalFlag(b: Book, kind: Kind, id: int, script: Script, frame: Seqno)
    ensures var b' := Incrementally(b, kind, id, script, frame).0;
      && OnlyFlag(b, b', kind)
      && (if script.throws then b'.Flag(kind) == frame
          else Decided(b.Flag(kind), script.calls, frame, b'.Flag(kind)))
  {
    CallbacksDecide(b.Flag(kind), script.calls, frame);
  }

  /** A recovery snapshot handed to the sequencer: the callbacks decide, throw or not. */
  lemma RecoveredFlag(
    b: Book, kind: Kind, id: int, script: Script, number: Seqno, w: Window, contents: seq<Order>)
    ensures var b' := Recovered(b, kind, id, script, number, w, contents).0;
      OnlyFlag(b, b', kind) && Decided(b.Flag(kind), script.calls, number, b'.Flag(kind))
  {
    CallbacksDecide(b.Flag(kind), script.calls, number);
  }

  // ---------- the flag in whole runs ----------

  /** The entries of the log that concern the flag of a book. */
  predicate Concerns(o: Output, kind: Kind, id: int) {
    match o
    case Gap(i, _) => i == id
    case Snapshot(k, i) => k == kind && i == id
    case Requested(k, i, _) => k == kind && i == id
    case Threw(k, i, _) => k == kind && i == id
    case _ => false
  }

  /** What they say: the frame of a gap or a throw, the number of a request, zero for a
      SNAPSHOT. */
  function Says(o: Output): Seqno {
    match o
    case Gap(_, frame) => frame
    case Requested(_, _, number) => number
    case Threw(_, _, frame) => frame
    case _ => 0
  }

  function LatestSaid(log: seq<Output>, kind: Kind, id: int): Seqno {
    if log == [] then 0
    else if Concerns(Last(log), kind, id) then Says(Last(log))
    else LatestSaid(Front(log), kind, id)
  }

  lemma OneMoreSaid(log: seq<Output>, o: Output, kind: Kind, id: int)
    ensures LatestSaid(log + [o], kind, id) == if Concerns(o, kind, id) then Says(o) else LatestSaid(log, kind, id)
  {
    assert Front(log + [o]) == log;
  }

  lemma {:induction false} PublishedSay(
    log: seq<Output>, k: Kind, i: int, calls: seq<Callback>, number: Seqno, kind: Kind, id: int)
    ensures var said := LatestSaid(log, kind, id);
      LatestSaid(log + Published(k, i, calls, number), kind, id)
      == if k == kind && i == id then FlagAfter(said, calls, number) else said
    decreases |calls|
  {
    if calls == [] {
      assert log + [] == log;
    } else {
      var o, later := PublishedBy(k, i, calls[0], number), Published(k, i, calls[1..], number);
      OneMoreSaid(log, o, kind, id);
      PublishedSay(log + [o], k, i, calls[1..], number, kind, id);
      assert log + ([o] + later) == log + [o] + later;
    }
  }

  /** The flag is what the log last said about it. */
  ghost predicate AsSaid(s: System, kind: Kind, id: int) {
    LatestSaid(s.log, kind, id) == if id in s.books then s.books[id].Flag(kind) else 0
  }

  lemma CheckAsSaid(s: System, i: int, rptSeq: Seqno, frame: Seqno, kind: Kind, id: int)
    requires i in s.books && AsSaid(s, kind, id)
    ensures AsSaid(Put(s, i, CheckReport(s.books[i], i, rptSeq, frame)), kind, id)
  {
    var outs := CheckReport(s.books[i], i, rptSeq, frame).1;
    if outs == [] {
      assert s.log + outs == s.log;
    } else {
      var gap, stale, stale' := Gap(i, frame), Stale(Mbp, i), Stale(Mbo, i);
      OneMoreSaid(s.log, gap, kind, id);
      OneMoreSaid(s.log + [gap], stale, kind, id);
      OneMoreSaid(s.log + [gap] + [stale], stale', kind, id);
      assert s.log + outs == s.log + [gap] + [stale] + [stale'];
    }
  }

  lemma ToldSays(log: seq<Output>, k: Kind, i: int, script: Script, frame: Seqno, kind: Kind, id: int)
    ensures var said := LatestSaid(log, kind, id);
      LatestSaid(log + Told(k, i, script, frame), kind, id)
      == if k != kind || i != id then said
         else if script.throws then frame
         else FlagAfter(said, script.calls, frame)
  {
    var outs := Published(k, i, script.calls, frame);
    PublishedSay(log, k, i, script.calls, frame, kind, id);
    if script.throws {
      OneMoreSaid(log + outs, Threw(k, i, frame), kind, id);
      Rebracket(log, outs, [Threw(k, i, frame)]);
    }
  }

  lemma DispatchAsSaid(s: System, k: Kind, i: int, script: Script, frame: Seqno, kind: Kind, id: int)
    requires i in s.books && AsSaid(s, kind, id)
    ensures AsSaid(Put(s, i, Incrementally(s.books[i], k, i, script, frame)), kind, id)
  {
    ToldSays(s.log, k, i, script, frame, kind, id);
  }

  lemma {:induction false} ItemsAsSaid(s: System, items: seq<Item>, frame: Seqno, kind: Kind, id: int)
    requires AsSaid(s, kind, id)
    ensures AsSaid(StepItems(s, items, frame), kind, id)
    decreases |items|
  {
    if items != [] {
      if items[0].id in s.books {
        match items[0] {
          case Check(i, rptSeq) => CheckAsSaid(s, i, rptSeq, frame, kind, id);
          case Dispatch(k, i, script) => DispatchAsSaid(s, k, i, script, frame, kind, id);
        }
      }
      ItemsAsSaid(StepItem(s, items[0], frame), items[1..], frame, kind, id);
    }
  }

  lemma OfferedSay(
    log: seq<Output>, o: Output, k: Kind, i: int, calls: seq<Callback>, number: Seqno, kind: Kind, id: int)
    requires o.Offered?
    ensures var said := LatestSaid(log, kind, id);
      LatestSaid(log + ([o] + Published(k, i, calls, number)), kind, id)
      == if k == kind && i == id then FlagAfter(said, calls, number) else said
  {
    OneMoreSaid(log, o, kind, id);
    PublishedSay(log + [o], k, i, calls, number, kind, id);
    Rebracket(log, [o], Published(k, i, calls, number));
  }

  lemma RecoveredAsSaid(
    s: System, k: Kind, i: int, b: Book, script: Script, number: Seqno, contents: seq<Order>, kind: Kind, id: int)
    requires i in s.books && AsSaid(s, kind, id) && b.mbp == s.books[i].mbp && b.mbo == s.books[i].mbo
    ensures AsSaid(Put(s, i, Recovered(b, k, i, script, number, s.window, contents)), kind, id)
  {
    var flag := b.Flag(k);
    var o := Offered(k, i, number, flag, Force(s.window, flag, number), contents);
    OfferedSay(s.log, o, k, i, script.calls, number, kind, id);
  }

  lemma EventAsSaid(s: System, e: Event, kind: Kind, id: int)
    requires AsSaid(s, kind, id)
    ensures AsSaid(StepEvent(s, e), kind, id)
  {
    match e
    case Define(_) =>
    case Deliver(frame, items) =>
      OneMoreSaid(s.log, Delivered(frame), kind, id);
      ItemsAsSaid(Opened(s, frame), items, frame, kind, id);
    case ChannelReset =>
      OneMoreSaid(s.log, Reset, kind, id);
    case MbpSnapshot(i, number, nonEmpty, script) =>
      assert s.log + [] == s.log;
      if i in s.books && Passes(s.books[i].mbp, number) && nonEmpty {
        RecoveredAsSaid(s, Mbp, i, s.books[i], script, number, [], kind, id);
      }
    case MboSnapshot(i, number, current, total, ids, script) =>
      assert s.log + [] == s.log;
      if i in s.books && Passes(s.books[i].mbo, number) {
        var (assembly, call) := CA.Offer(s.books[i].assembly, CA.Chunk(current, total, Tagged(ids, number)));
        if call.Call? && call.last {
          RecoveredAsSaid(s, Mbo, i, s.books[i].(assembly := assembly), script, number, call.orders, kind, id);
        }
      }
  }

  lemma {:induction false} RunAsSaid(s: System, es: seq<Event>, kind: Kind, id: int)
    requires AsSaid(s, kind, id)
    ensures AsSaid(Execute(s, es), kind, id)
    decreases |es|
  {
    if es != [] {
      EventAsSaid(s, es[0], kind, id);
      RunAsSaid(StepEvent(s, es[0]), es[1..], kind, id);
    }
  }

  // ---------- what raises a flag has a number ----------

  predicate Raises(o: Output) { o.Gap? || o.Requested? || o.Threw? }

  ghost predicate AllNumbered(log: seq<Output>) { forall o :: o in log && Raises(o) ==> Says(o) != 0 }

  lemma {:induction false} PublishedNumbered(kind: Kind, id: int, calls: seq<Callback>, number: Seqno)
    requires number != 0
    ensures AllNumbered(Published(kind, id, calls, number))
  {
    if calls != [] {
      PublishedNumbered(kind, id, calls[1..], number);
    }
  }

  lemma {:induction false} ItemsNumbered(s: System, items: seq<Item>, frame: Seqno)
    requires AllNumbered(s.log) && frame != 0
    ensures AllNumbered(StepItems(s, items, frame).log)
    decreases |items|
  {
    if items != [] {
      if items[0].Dispatch? {
        PublishedNumbered(items[0].kind, items[0].id, items[0].script.calls, frame);
      }
      ItemsNumbered(StepItem(s, items[0], frame), items[1..], frame);
    }
  }

  lemma EventNumbered(s: System, e: Event)
    requires AllNumbered(s.log) && EventEnabled(s, e)
    ensures AllNumbered(StepEvent(s, e).log)
  {
    match e
    case Define(_) =>
    case Deliver(frame, items) => ItemsNumbered(Opened(s, frame), items, frame);
    case ChannelReset =>
    case MbpSnapshot(id, number, _, script) =>
      if number != 0 {
        PublishedNumbered(Mbp, id, script.calls, number);
      }
    case MboSnapshot(id, number, _, _, _, script) =>
      if number != 0 {
        PublishedNumbered(Mbo, id, script.calls, number);
      }
  }

  lemma {:induction false} RunNumbered(s: System, es: seq<Event>)
    requires AllNumbered(s.log) && Executable(s, es)
    ensures AllNumbered(Execute(s, es).log)
    decreases |es|
  {
    if es != [] {
      EventNumbered(s, es[0]);
      RunNumbered(StepEvent(s, es[0]), es[1..]);
    }
  }

  // ---------- the theorem ----------

  /** Entry `j` is the latest that concerns the flag of the book. */
  ghost predicate LatestWord(log: seq<Output>, j: int, kind: Kind, id: int) {
    && 0 <= j < |log| && Concerns(log[j], kind, id)
    && forall i :: j < i < |log| ==> !Concerns(log[i], kind, id)
  }

  /** The latest gap, request or throw of the book comes after its latest SNAPSHOT. */
  ghost predicate Raised(log: seq<Output>, kind: Kind, id: int) {
    exists j :: LatestWord(log, j, kind, id) && !log[j].Snapshot?
  }

  lemma {:induction false} LatestWordOf(log: seq<Output>, kind: Kind, id: int) returns (j: int)
    ensures if j < 0 then LatestSaid(log, kind, id) == 0 && forall i :: 0 <= i < |log| ==> !Concerns(log[i], kind, id)
            else LatestWord(log, j, kind, id) && LatestSaid(log, kind, id) == Says(log[j])
  {
    j := |log| - 1;
    if log != [] && !Concerns(Last(log), kind, id) {
      j := LatestWordOf(Front(log), kind, id);
    }
  }

  /** In every run, whatever the sequencers do: the flag of a book is raised if and only if its
      latest gap, request or throw comes after its latest SNAPSHOT, and then it is the number
      of that gap, request or throw. */
  lemma FlagIsRaisedIff(es: seq<Event>, kind: Kind, id: int)
    requires Executable(START, es) && id in Execute(START, es).books
    ensures var s := Execute(START, es);
      && (s.books[id].Flag(kind) != 0 <==> Raised(s.log, kind, id))
      && forall j :: LatestWord(s.log, j, kind, id) ==> s.books[id].Flag(kind) == Says(s.log[j])
  {
    RunAsSaid(START, es, kind, id);
    RunNumbered(START, es);
    var log := Execute(START, es).log;
    var j := LatestWordOf(log, kind, id);
    if j >= 0 {
      assert log[j] in log;
    }
  }

  // ---------- what is offered ----------

  /** What the callbacks publish, one entry of the log for each of them. */
  lemma {:induction false} CallbacksAreTold(kind: Kind, id: int, calls: seq<Callback>, number: Seqno)
    ensures |Published(kind, id, calls, number)| == |calls|
    ensures forall i :: 0 <= i < |calls| ==>
      var o := Published(kind, id, calls, number)[i];
      && (calls[i] == PublishUpdate ==> o == Update(kind, id))
      && (calls[i] == PublishSnapshot ==> o == Snapshot(kind, id))
      && (calls[i] == RequestSnapshot ==> o == Requested(kind, id, number))
  {
    if calls != [] {
      CallbacksAreTold(kind, id, calls[1..], number);
    }
  }

  /** The snapshot is offered now: the log grows by the offer and what the callbacks publish. */
  ghost predicate OfferedNow(s: System, s': System, o: Output, calls: seq<Callback>)
    requires o.Offered?
  {
    s'.log == s.log + ([o] + Published(o.kind, o.id, calls, o.number))
  }

  /** A price snapshot is offered if and only if the security is known and waits for one, it is
      not older than the flag, and it is not empty; otherwise nothing changes. */
  lemma PriceSnapshotIsOfferedIff(s: System, id: int, number: Seqno, nonEmpty: bool, script: Script)
    ensures var s' := StepEvent(s, MbpSnapshot(id, number, nonEmpty, script));
      if id in s.books && 0 < s.books[id].mbp <= number && nonEmpty then
        var force := s.window.first <= s.books[id].mbp && number <= s.window.last;
        OfferedNow(s, s', Offered(Mbp, id, number, s.books[id].mbp, force, []), script.calls)
      else s' == s
  {
    assert s.log + [] == s.log;
    if id in s.books {
      assert s.books[id := s.books[id]] == s.books;
    }
  }

  /** An order book snapshot is offered if and only if the security is known and waits for one,
      the chunk is not older than the flag, it is the successor of those held, and it is the
      last one it announces; otherwise the log stays as it is. */
  lemma OrderSnapshotIsOfferedIff(s: System, e: Event, held: seq<CA.Chunk<Order>>)
    requires e.MboSnapshot? && (e.id in s.books ==> CA.Holds(s.books[e.id].assembly, held))
    requires e.current == 0 ==> |held| < 0xFFFF_FFFF
    ensures var s', c := StepEvent(s, e), CA.Chunk(e.current, e.total, Tagged(e.ids, e.number));
      if e.id in s.books && 0 < s.books[e.id].mbo <= e.number && e.current == e.total == |held| + 1 then
        var flag := s.books[e.id].mbo;
        var force := s.window.first <= flag && e.number <= s.window.last;
        OfferedNow(s, s', Offered(Mbo, e.id, e.number, flag, force, Concat(CA.Entries(held + [c]))), e.script.calls)
      else s'.log == s.log
  {
    assert s.log + [] == s.log;
    if e.id in s.books {
      CA.CallSees(s.books[e.id].assembly, held, CA.Chunk(e.current, e.total, Tagged(e.ids, e.number)));
    }
  }
}
