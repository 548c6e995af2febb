/** Gap detection and book recovery: the resubscribe flags of a security, driven by the
    incremental channel and by the two recovery channels. */
module Recovery {
  import opened PacketFrame
  import opened FeedArbitration
  import CA = ChunkAssembly

  /** The two books of a security: market by price and market by order. */
  datatype Kind = Mbp | Mbo

  /** What a sequencer may do when it is called: any callbacks in any order, and then
      return or throw `BadState`. */
  datatype Callback = PublishUpdate | PublishSnapshot | RequestSnapshot
  datatype Script = Script(calls: seq<Callback>, throws: bool)

  /** An order of a recovery snapshot, tagged with the frame number the snapshot is as of. */
  datatype Order = Order(orderId: nat, asOf: Seqno)

  /** The recovery state of a security. A zero flag means "not waiting for a snapshot". */
  datatype Book = Book(rptSeq: Seqno, mbp: Seqno, mbo: Seqno, assembly: CA.Assembly<Order>) {
    function Flag(kind: Kind): Seqno { if kind == Mbp then mbp else mbo }

    function Flagged(kind: Kind, n: Seqno): Book {
      if kind == Mbp then this.(mbp := n) else this.(mbo := n)
    }
  }

  const NEW_BOOK := Book(0, 0, 0, CA.Idle())

  /** Everything observable, in order. `Offered` records a recovery snapshot handed to a
      sequencer, with the flag and the force decision of that moment; `Requested` and
      `Threw` are the requests for a snapshot and the throws on the incremental channel,
      which the program writes to its log. */
  datatype Output =
    | Delivered(frame: Seqno)
    | Reset
    | Gap(id: int, frame: Seqno)
    | Stale(kind: Kind, id: int)
    | Update(kind: Kind, id: int)
    | Snapshot(kind: Kind, id: int)
    | Requested(kind: Kind, id: int, number: Seqno)
    | Threw(kind: Kind, id: int, frame: Seqno)
    | Offered(kind: Kind, id: int, number: Seqno, flag: Seqno, force: bool, contents: seq<Order>)

  // ---------- one security ----------

  /** The gap detector: zero is the conflated feed and is ignored. */
  function IsGap(last: Seqno, rptSeq: Seqno): bool {
    rptSeq != 0 && rptSeq != Next(last)
  }

  function CheckReport(b: Book, id: int, rptSeq: Seqno, frame: Seqno): (Book, seq<Output>) {
    var b' := if rptSeq == 0 then b else b.(rptSeq := rptSeq);
    if IsGap(b.rptSeq, rptSeq) then
      (b'.(mbp := frame, mbo := frame), [Gap(id, frame), Stale(Mbp, id), Stale(Mbo, id)])
    else (b', [])
  }

  /** The flag after one callback: publishing a snapshot settles it, requesting one
      raises it to the number at hand. */
  function FlagStep(flag: Seqno, call: Callback, number: Seqno): Seqno {
    match call
    case PublishUpdate => flag
    case PublishSnapshot => 0
    case RequestSnapshot => number
  }

  function PublishedBy(kind: Kind, id: int, call: Callback, number: Seqno): Output {
    match call
    case PublishUpdate => Update(kind, id)
    case PublishSnapshot => Snapshot(kind, id)
    case RequestSnapshot => Requested(kind, id, number)
  }

  function FlagAfter(flag: Seqno, calls: seq<Callback>, number: Seqno): Seqno
    decreases |calls|
  {
    if calls == [] then flag else FlagAfter(FlagStep(flag, calls[0], number), calls[1..], number)
  }

  function Published(kind: Kind, id: int, calls: seq<Callback>, number: Seqno): seq<Output> {
    if calls == [] then [] else [PublishedBy(kind, id, calls[0], number)] + Published(kind, id, calls[1..], number)
  }

  /** What a dispatch on the incremental channel leads to. */
  function Told(kind: Kind, id: int, script: Script, frame: Seqno): seq<Output> {
    var outs := Published(kind, id, script.calls, frame);
    if script.throws then outs + [Threw(kind, id, frame)] else outs
  }

  /** A book update from the incremental channel. */
  function Incrementally(b: Book, kind: Kind, id: int, script: Script, frame: Seqno): (Book, seq<Output>) {
    (b.Flagged(kind, if script.throws then frame else FlagAfter(b.Flag(kind), script.calls, frame)),
     Told(kind, id, script, frame))
  }

  function Force(w: Window, flag: Seqno, number: Seqno): bool {
    w.first <= flag && number <= w.last
  }

  /** A recovery snapshot that has passed the gate; a throw leaves the flag alone. */
  function Recovered(b: Book, kind: Kind, id: int, script: Script, number: Seqno, w: Window, contents: seq<Order>)
    : (Book, seq<Output>)
  {
    var flag := b.Flag(kind);
    (b.Flagged(kind, FlagAfter(flag, script.calls, number)),
     [Offered(kind, id, number, flag, Force(w, flag, number), contents)]
     + Published(kind, id, script.calls, number))
  }

  /** The gate in front of both recovery channels. */
  predicate Passes(flag: Seqno, number: Seqno) { flag != 0 && number >= flag }

  function OnMbpSnapshot(b: Book, id: int, number: Seqno, nonEmpty: bool, script: Script, w: Window)
    : (Book, seq<Output>)
  {
    if Passes(b.mbp, number) && nonEmpty then Recovered(b, Mbp, id, script, number, w, []) else (b, [])
  }

  function Tagged(ids: seq<nat>, number: Seqno): seq<Order> {
    seq(|ids|, i requires 0 <= i < |ids| => Order(ids[i], number))
  }

  function OnMboSnapshot(
    b: Book, id: int, number: Seqno, current: Seqno, total: Seqno, ids: seq<nat>, script: Script, w: Window)
    : (Book, seq<Output>)
  {
    if !Passes(b.mbo, number) then (b, [])
    else
      var (assembly, call) := CA.Offer(b.assembly, CA.Chunk(current, total, Tagged(ids, number)));
      var b' := b.(assembly := assembly);
      if call.Call? && call.last then Recovered(b', Mbo, id, script, number, w, call.orders) else (b', [])
  }

  // ---------- the code ----------

  /** A security as the handlers update it in place. */
  class Security {
    var rptSeq: Seqno
    var mbpFlag: Seqno
    var mboFlag: Seqno
    const snapshot: CA.Snapshot<Order>

    ghost function View(): (b: Book)
      reads this, snapshot
    {
      Book(rptSeq, mbpFlag, mboFlag, snapshot.View())
    }

    constructor ()
      ensures View() == NEW_BOOK && fresh(snapshot)
    {
      rptSeq, mbpFlag, mboFlag := 0, 0, 0;
      snapshot := new CA.Snapshot<Order>();
    }

    method UpdateRptSeq(value: Seqno) returns (gap: bool)
      modifies `rptSeq
      ensures gap == IsGap(old(rptSeq), value)
      ensures rptSeq == if value == 0 then old(rptSeq) else value
    {
      if value == 0 {
        return false;
      }
      var next := Next(rptSeq);
      gap := value != next;
      rptSeq := value;
    }

    method CheckReportSequence(id: int, value: Seqno, frame: Seqno) returns (out: seq<Output>)
      modifies this
      ensures (View(), out) == CheckReport(old(View()), id, value, frame)
    {
      var gap := UpdateRptSeq(value);
      if !gap {
        return [];
      }
      mbpFlag := frame;
      mboFlag := frame;
      out := [Gap(id, frame), Stale(Mbp, id), Stale(Mbo, id)];
    }

    /** The sequencer running its callbacks on the flag of one book. */
    method RunCallbacks(kind: Kind, id: int, calls: seq<Callback>, number: Seqno) returns (out: seq<Output>)
      modifies `mbpFlag, `mboFlag
      ensures View() == old(View()).Flagged(kind, FlagAfter(old(View()).Flag(kind), calls, number))
      ensures out == Published(kind, id, calls, number)
      decreases |calls|
    {
      if calls == [] {
        return [];
      }
      var first := RunCallback(kind, id, calls[0], number);
      out := RunCallbacks(kind, id, calls[1..], number);
      out := [first] + out;
    }

    method RunCallback(kind: Kind, id: int, call: Callback, number: Seqno) returns (out: Output)
      modifies `mbpFlag, `mboFlag
      ensures View() == old(View()).Flagged(kind, FlagStep(old(View()).Flag(kind), call, number))
      ensures out == PublishedBy(kind, id, call, number)
    {
      match call {
        case PublishUpdate =>
          out := Update(kind, id);
        case PublishSnapshot =>
          out := Snapshot(kind, id);
          SetFlag(kind, 0);
        case RequestSnapshot =>
          out := Requested(kind, id, number);
          SetFlag(kind, number);
      }
    }

    method SetFlag(kind: Kind, n: Seqno)
      modifies `mbpFlag, `mboFlag
      ensures View() == old(View()).Flagged(kind, n)
    {
      if kind == Mbp { mbpFlag := n; } else { mboFlag := n; }
    }

    method DispatchIncremental(kind: Kind, id: int, script: Script, frame: Seqno) returns (out: seq<Output>)
      modifies this
      ensures (View(), out) == Incrementally(old(View()), kind, id, script, frame)
    {
      out := RunCallbacks(kind, id, script.calls, frame);
      if script.throws {
        out := out + [Threw(kind, id, frame)];
        SetFlag(kind, frame);
      }
    }

    method DispatchRecovery(kind: Kind, id: int, script: Script, number: Seqno, w: Window, contents: seq<Order>)
      returns (out: seq<Output>)
      modifies `mbpFlag, `mboFlag
      ensures (View(), out) == Recovered(old(View()), kind, id, script, number, w, contents)
    {
      var flag := if kind == Mbp then mbpFlag else mboFlag;
      var force := w.first <= flag && number <= w.last;
      out := RunCallbacks(kind, id, script.calls, number);
      out := [Offered(kind, id, number, flag, force, contents)] + out;
    }

    method HandleMbpSnapshot(id: int, number: Seqno, nonEmpty: bool, script: Script, w: Window)
      returns (out: seq<Output>)
      modifies this
      ensures (View(), out) == OnMbpSnapshot(old(View()), id, number, nonEmpty, script, w)
    {
      out := [];
      if mbpFlag == 0 {
        return;
      }
      if number < mbpFlag {
        return;
      }
      if nonEmpty {
        out := DispatchRecovery(Mbp, id, script, number, w, []);
      }
    }

    method HandleMboSnapshot(
      id: int, number: Seqno, current: Seqno, total: Seqno, ids: seq<nat>, script: Script, w: Window)
      returns (out: seq<Output>)
      modifies this, snapshot
      ensures (View(), out) == OnMboSnapshot(old(View()), id, number, current, total, ids, script, w)
    {
      out := [];
      if mboFlag == 0 {
        return;
      }
      if number < mboFlag {
        return;
      }
      var completed, call := snapshot.Update(CA.Chunk(current, total, Tagged(ids, number)));
      if call.Call? && call.last {
        out := DispatchRecovery(Mbo, id, script, number, w, call.orders);
      }
    }
  }

  // ---------- the whole channel ----------

  datatype System = System(window: Window, books: map<int, Book>, log: seq<Output>)

  const START := System(Window(0, 0), map[], [])

  /** What the handlers of one frame do to the securities, in the order they do it. */
  datatype Item =
    | Check(id: int, rptSeq: Seqno)
    | Dispatch(kind: Kind, id: int, script: Script)

  datatype Event =
    | Define(id: int)
    | Deliver(frame: Seqno, items: seq<Item>)
    | ChannelReset
    | MbpSnapshot(id: int, number: Seqno, nonEmpty: bool, script: Script)
    | MboSnapshot(id: int, number: Seqno, current: Seqno, total: Seqno, ids: seq<nat>, script: Script)

  function Put(s: System, id: int, r: (Book, seq<Output>)): System {
    s.(books := s.books[id := r.0], log := s.log + r.1)
  }

  function StepItem(s: System, item: Item, frame: Seqno): System {
    if item.id !in s.books then s
    else match item
      case Check(id, rptSeq) => Put(s, id, CheckReport(s.books[id], id, rptSeq, frame))
      case Dispatch(kind, id, script) => Put(s, id, Incrementally(s.books[id], kind, id, script, frame))
  }

  function StepItems(s: System, items: seq<Item>, frame: Seqno): System
    decreases |items|
  {
    if items == [] then s else StepItems(StepItem(s, items[0], frame), items[1..], frame)
  }

  function Opened(s: System, frame: Seqno): System {
    s.(window := Extend(s.window, frame), log := s.log + [Delivered(frame)])
  }

  function StepEvent(s: System, e: Event): System {
    match e
    case Define(id) => if id in s.books then s else s.(books := s.books[id := NEW_BOOK])
    case Deliver(frame, items) => StepItems(Opened(s, frame), items, frame)
    case ChannelReset => s.(window := Window(0, 0), log := s.log + [Reset])
    case MbpSnapshot(id, number, nonEmpty, script) =>
      if id !in s.books then s
      else Put(s, id, OnMbpSnapshot(s.books[id], id, number, nonEmpty, script, s.window))
    case MboSnapshot(id, number, current, total, ids, script) =>
      if id !in s.books then s
      else Put(s, id, OnMboSnapshot(s.books[id], id, number, current, total, ids, script, s.window))
  }

  /** A frame is delivered only if the window allows its number next; feed arbitration
      guarantees it. */
  predicate EventEnabled(s: System, e: Event) { e.Deliver? ==> Enabled(s.window, e.frame) }

  function Execute(s: System, es: seq<Event>): System
    decreases |es|
  {
    if es == [] then s else Execute(StepEvent(s, es[0]), es[1..])
  }

  predicate Executable(s: System, es: seq<Event>)
    decreases |es|
  {
    es == [] || (EventEnabled(s, es[0]) && Executable(StepEvent(s, es[0]), es[1..]))
  }
}
