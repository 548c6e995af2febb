/** Trade summaries: a match event may arrive in several messages, is reassembled, and is
    published security by security. */
module TradeSummary {
  import opened Market
  import opened Optional
  import opened Sequences

  /** One summary entry: `count` order slots belong to it. */
  datatype Entry = Entry(id: int, aggressor: Side, price: real, size: int, count: nat, tradeId: nat)

  /** One order slot. */
  datatype Fill = Fill(orderId: nat, qty: int)

  datatype Trade = Trade(side: Side, price: real, qty: int, tradeId: nat, taker: Option<nat>, maker: Option<nat>)

  datatype TradedOrder = TradedOrder(price: real, qty: int, orderId: nat, side: Side)

  /** Published updates: the traded orders, then the trades. */
  datatype Out = Orders(id: int, orders: seq<TradedOrder>) | Trades(id: int, trades: seq<Trade>)

  datatype Message = Message(time: nat, entries: seq<Entry>, fills: seq<Fill>)

  // ---------- one entry ----------

  /** The first slot of an entry with an aggressor belongs to the aggressor. */
  predicate HasTaker(e: Entry) { e.aggressor != Undefined }

  function UpdateOf(e: Entry, side: Side, factor: real, f: Fill): TradedOrder {
    TradedOrder(e.price * factor, f.qty, f.orderId, side)
  }

  function MakerTrade(e: Entry, taker: Option<nat>, factor: real, f: Fill): Trade {
    Trade(e.aggressor, e.price * factor, f.qty, e.tradeId, taker, Some(f.orderId))
  }

  function TakerTrade(e: Entry, factor: real, f: Fill): Trade {
    Trade(e.aggressor, e.price * factor, f.qty, e.tradeId, Some(f.orderId), None)
  }

  function UpdatesOf(e: Entry, side: Side, factor: real, slots: seq<Fill>): seq<TradedOrder> {
    if slots == [] then []
    else UpdatesOf(e, side, factor, slots[..|slots| - 1]) + [UpdateOf(e, side, factor, slots[|slots| - 1])]
  }

  function MakerTrades(e: Entry, taker: Option<nat>, factor: real, slots: seq<Fill>): seq<Trade> {
    if slots == [] then []
    else MakerTrades(e, taker, factor, slots[..|slots| - 1]) + [MakerTrade(e, taker, factor, slots[|slots| - 1])]
  }

  function Rest<T>(s: seq<T>): seq<T> { if s == [] then [] else s[1..] }

  /** An entry, the slots it counts, and the slot that stands first when it is read: an
      entry with an aggressor looks at it even if it counts no slots at all. */
  datatype Line = Line(entry: Entry, slots: seq<Fill>, head: Option<Fill>)

  function HeadAt(e: Entry, fs: seq<Fill>, offset: nat): Option<Fill> {
    if HasTaker(e) && offset < |fs| then Some(fs[offset]) else None
  }

  /** The line of an entry that counts the slots `from` to `to`. */
  function LineOver(e: Entry, fs: seq<Fill>, from: nat, to: nat): Line
    requires from <= to <= |fs|
  {
    Line(e, fs[from..to], HeadAt(e, fs, from))
  }

  /** The slot read for the aggressor carries the whole size of the entry. */
  predicate TakerMatches(l: Line) { l.head.Some? && l.head.value.qty == l.entry.size }

  function OrderSide(l: Line): Side {
    if TakerMatches(l) then Invert(l.entry.aggressor) else l.entry.aggressor
  }

  /** The slots of the counterparties: all but the aggressor's. */
  function MakerSlots(l: Line): seq<Fill> { if HasTaker(l.entry) then Rest(l.slots) else l.slots }

  function OrdersOf(l: Line, factor: real): seq<TradedOrder> {
    UpdatesOf(l.entry, OrderSide(l), factor, MakerSlots(l))
  }

  /** What the slot read for the aggressor itself contributes to the trades. */
  function TakerPart(l: Line, factor: real): seq<Trade> {
    if l.head.None? || (TakerMatches(l) && l.entry.count != 1) then []
    else [TakerTrade(l.entry, factor, l.head.value)]
  }

  function TakerId(l: Line): Option<nat> { if TakerMatches(l) then Some(l.head.value.orderId) else None }

  function TradesOf(l: Line, factor: real): seq<Trade> {
    TakerPart(l, factor) + MakerTrades(l.entry, TakerId(l), factor, MakerSlots(l))
  }

  // ---------- the one-shot specification ----------

  /** The first slot of entry `k`: slots are dealt out to the entries in order. */
  function Offset(es: seq<Entry>, k: nat): nat
    requires k <= |es|
  {
    if k == 0 then 0 else Offset(es, k - 1) + es[k - 1].count
  }

  function Total(es: seq<Entry>): nat { Offset(es, |es|) }

  /** The line of entry `k`. */
  function LineAt(es: seq<Entry>, fs: seq<Fill>, k: nat): Line
    requires k < |es| && Offset(es, k + 1) <= |fs|
  {
    LineOver(es[k], fs, Offset(es, k), Offset(es, k + 1))
  }

  /** The lines of one security among the first `k` entries. */
  function Lines(es: seq<Entry>, fs: seq<Fill>, k: nat, id: int): seq<Line>
    requires k <= |es| && Offset(es, k) <= |fs|
  {
    if k == 0 then []
    else Lines(es, fs, k - 1, id) + if es[k - 1].id == id then [LineAt(es, fs, k - 1)] else []
  }

  /** The order updates of one line. */
  function OrdersAt(factor: real): Line -> seq<TradedOrder> {
    (l: Line) => OrdersOf(l, factor)
  }

  /** The order updates of one security among the first `k` entries. */
  function FirstOrders(es: seq<Entry>, fs: seq<Fill>, k: nat, id: int, factor: real): seq<TradedOrder>
    requires k <= |es| && Offset(es, k) <= |fs|
  {
    FlatMap(Lines(es, fs, k, id), OrdersAt(factor))
  }

  /** The trades of one line. */
  function TradesAt(factor: real): Line -> seq<Trade> {
    (l: Line) => TradesOf(l, factor)
  }

  /** The trades of one security among the first `k` entries. */
  function FirstTrades(es: seq<Entry>, fs: seq<Fill>, k: nat, id: int, factor: real): seq<Trade>
    requires k <= |es| && Offset(es, k) <= |fs|
  {
    FlatMap(Lines(es, fs, k, id), TradesAt(factor))
  }

  /** What one security should receive from a whole match event, in one go. */
  function OneShotOrders(es: seq<Entry>, fs: seq<Fill>, known: Known, id: int): seq<TradedOrder>
    requires Total(es) <= |fs|
  {
    if id in known then FirstOrders(es, fs, |es|, id, known[id]) else []
  }

  function OneShotTrades(es: seq<Entry>, fs: seq<Fill>, known: Known, id: int): seq<Trade>
    requires Total(es) <= |fs|
  {
    if id in known then FirstTrades(es, fs, |es|, id, known[id]) else []
  }

  /** If entry `k` has an aggressor, the slot read for it is there. */
  predicate ReadAt(es: seq<Entry>, fs: seq<Fill>, k: nat)
    requires k < |es|
  {
    HasTaker(es[k]) ==> Offset(es, k) < |fs|
  }

  ghost predicate ReadsOf(es: seq<Entry>, fs: seq<Fill>, id: int) {
    forall k :: 0 <= k < |es| ==> OwnRead(es, fs, k, id)
  }

  predicate OwnRead(es: seq<Entry>, fs: seq<Fill>, k: nat, id: int)
    requires k < |es|
  {
    es[k].id == id ==> ReadAt(es, fs, k)
  }

  /** A flush reads nothing outside the buffer: what the program takes for granted. */
  ghost predicate ReadsInRange(es: seq<Entry>, fs: seq<Fill>, known: Known) {
    forall id :: id in known ==> ReadsOf(es, fs, id)
  }

  // ---------- flushing ----------

  /** An empty list is not published. */
  function OrderOut(id: int, orders: seq<TradedOrder>): seq<Out> {
    if orders == [] then [] else [Orders(id, orders)]
  }

  function TradeOut(id: int, trades: seq<Trade>): seq<Out> {
    if trades == [] then [] else [Trades(id, trades)]
  }

  function OrderOutOf(es: seq<Entry>, fs: seq<Fill>, known: Known): int -> seq<Out>
    requires Total(es) <= |fs|
  {
    (id: int) => OrderOut(id, OneShotOrders(es, fs, known, id))
  }

  function TradeOutOf(es: seq<Entry>, fs: seq<Fill>, known: Known): int -> seq<Out>
    requires Total(es) <= |fs|
  {
    (id: int) => TradeOut(id, OneShotTrades(es, fs, known, id))
  }

  /** The security ids of the first `k` entries, in order of first appearance. */
  function Ids(es: seq<Entry>, k: nat): (ids: seq<int>)
    requires k <= |es|
  {
    if k == 0 then [] else Insert(Ids(es, k - 1), es[k - 1].id)
  }

  function Insert(ids: seq<int>, id: int): seq<int> { if id in ids then ids else ids + [id] }

  /** The reassembly state between two messages. */
  datatype State = State(time: nat, ids: seq<int>, entries: seq<Entry>, fills: seq<Fill>, total: nat)

  const CLEARED := State(0, [], [], [], 0)

  /** Everything buffered once the message is in; another transact time starts afresh. */
  function Received(s: State, m: Message): State {
    var base := if s.time == m.time then s else CLEARED;
    var es := base.entries + m.entries;
    State(m.time, Ids(es, |es|), es, base.fills + m.fills, Total(es))
  }

  function Flushed(s: State, known: Known): seq<Out>
    requires Total(s.entries) <= |s.fills|
  {
    FlatMap(s.ids, OrderOutOf(s.entries, s.fills, known)) + FlatMap(s.ids, TradeOutOf(s.entries, s.fills, known))
  }

  /** What holds between two messages: an event is pending, or nothing is. */
  predicate Valid(s: State) {
    && s.total == Total(s.entries)
    && s.ids == Ids(s.entries, |s.entries|)
    && (|s.fills| < s.total || (s.entries == [] && s.fills == []))
  }

  /** One message: wait for more, or flush and start over. */
  function Dispatched(s: State, m: Message, known: Known): (r: (State, seq<Out>))
    requires Valid(s)
    ensures Valid(r.0)
  {
    var s' := Received(s, m);
    if |s'.fills| < s'.total then (s', []) else (CLEARED, Flushed(s', known))
  }

  /** The message is handled without a read outside the buffer. */
  ghost predicate Safe(s: State, m: Message, known: Known) {
    var s' := Received(s, m);
    |s'.fills| >= s'.total ==> ReadsInRange(s'.entries, s'.fills, known)
  }

  // ---------- the code ----------

  /** The shared buffers of the reassembly; `out` collects the published updates. */
  class Shared {
    var time: nat
    var ids: seq<int>
    var entries: seq<Entry>
    var fills: seq<Fill>
    var total: nat
    var out: seq<Out>

    ghost function View(): (s: State)
      reads this
    {
      State(time, ids, entries, fills, total)
    }

    constructor ()
      ensures View() == CLEARED && out == []
    {
      time, ids, entries, fills, total, out := 0, [], [], [], 0, [];
    }

    method ClearState()
      modifies `ids, `entries, `fills, `total
      ensures ids == [] && entries == [] && fills == [] && total == 0
    {
      ids, entries, fills, total := [], [], [], 0;
    }

    method InsertSecurityId(id: int)
      modifies `ids
      ensures ids == Insert(old(ids), id)
    {
      var i := 0;
      while i < |ids|
        invariant 0 <= i <= |ids| && ids == old(ids)
        invariant id !in ids[..i]
      {
        if ids[i] == id {
          return;
        }
        i := i + 1;
      }
      assert ids[..i] == ids;
      ids := ids + [id];
    }

    method AddEntries(es: seq<Entry>)
      requires ids == Ids(entries, |entries|) && total == Total(entries)
      modifies `ids, `entries, `total
      ensures entries == old(entries) + es
      ensures ids == Ids(entries, |entries|) && total == Total(entries)
    {
      var i := 0;
      while i < |es|
        invariant 0 <= i <= |es|
        invariant entries == old(entries) + es[..i]
        invariant ids == Ids(entries, |entries|) && total == Total(entries)
      {
        PrefixStable(entries, [es[i]], |entries|);
        InsertSecurityId(es[i].id);
        entries := entries + [es[i]];
        total := total + es[i].count;
        i := i + 1;
      }
    }

    method DispatchTradeSummary(m: Message, known: Known)
      requires Valid(View()) && Safe(View(), m, known)
      modifies this
      ensures Valid(View())
      ensures View() == Dispatched(old(View()), m, known).0
      ensures out == old(out) + Dispatched(old(View()), m, known).1
    {
      AddMessage(m);
      if |fills| < total {
        time := m.time;
        return;
      }
      Flush(known);
    }

    /** Continues the event at hand, or starts another one. */
    method AddMessage(m: Message)
      requires Valid(View())
      modifies `time, `ids, `entries, `fills, `total
      ensures View() == Received(old(View()), m)
    {
      var fragmented := m.time == time;
      if !fragmented {
        time := m.time;
        ClearState();
      }
      AddEntries(m.entries);
      fills := fills + m.fills;
    }

    method Flush(known: Known)
      requires Total(entries) <= |fills| && ReadsInRange(entries, fills, known)
      modifies this
      ensures View() == CLEARED && out == old(out) + Flushed(old(View()), known)
    {
      PublishOrders(known);
      PublishTrades(known);
      Rebracket(old(out), FlatMap(ids, OrderOutOf(entries, fills, known)),
                FlatMap(ids, TradeOutOf(entries, fills, known)));
      time := 0;
      ClearState();
    }

    method PublishOrders(known: Known)
      requires Total(entries) <= |fills| && ReadsInRange(entries, fills, known)
      modifies `out
      ensures out == old(out) + FlatMap(ids, OrderOutOf(entries, fills, known))
    {
      ghost var outs := OrderOutOf(entries, fills, known);
      var i := 0;
      while i < |ids|
        invariant 0 <= i <= |ids| && out == old(out) + Flat(ids, i, outs)
      {
        PublishOrdersOf(ids[i], known, outs);
        Rebracket(old(out), Flat(ids, i, outs), outs(ids[i]));
        i := i + 1;
      }
    }

    method PublishOrdersOf(id: int, known: Known, ghost outs: int -> seq<Out>)
      requires Total(entries) <= |fills| && ReadsInRange(entries, fills, known)
      requires outs == OrderOutOf(entries, fills, known)
      modifies `out
      ensures out == old(out) + outs(id)
    {
      if id in known {
        var orders := CollectOrders(entries, fills, id, known[id]);
        if orders != [] {
          out := out + [Orders(id, orders)];
        }
      }
    }

    method PublishTrades(known: Known)
      requires Total(entries) <= |fills| && ReadsInRange(entries, fills, known)
      modifies `out
      ensures out == old(out) + FlatMap(ids, TradeOutOf(entries, fills, known))
    {
      ghost var outs := TradeOutOf(entries, fills, known);
      var i := 0;
      while i < |ids|
        invariant 0 <= i <= |ids| && out == old(out) + Flat(ids, i, outs)
      {
        PublishTradesOf(ids[i], known, outs);
        Rebracket(old(out), Flat(ids, i, outs), outs(ids[i]));
        i := i + 1;
      }
    }

    method PublishTradesOf(id: int, known: Known, ghost outs: int -> seq<Out>)
      requires Total(entries) <= |fills| && ReadsInRange(entries, fills, known)
      requires outs == TradeOutOf(entries, fills, known)
      modifies `out
      ensures out == old(out) + outs(id)
    {
      if id in known {
        var trades := CollectTrades(entries, fills, id, known[id]);
        if trades != [] {
          out := out + [Trades(id, trades)];
        }
      }
    }
  }

  /** The inner loops of the order pass: one security, running offsets into the slots. */
  method CollectOrders(entries: seq<Entry>, fills: seq<Fill>, id: int, factor: real) returns (orders: seq<TradedOrder>)
    requires Total(entries) <= |fills| && ReadsOf(entries, fills, id)
    ensures orders == FirstOrders(entries, fills, |entries|, id, factor)
  {
    orders := [];
    var offset, k := 0, 0;
    while k < |entries|
      invariant 0 <= k <= |entries| && offset == Offset(entries, k) <= |fills|
      invariant orders == FirstOrders(entries, fills, k, id, factor)
    {
      OffsetGrows(entries, k + 1);
      assert OwnRead(entries, fills, k, id);
      var more := NextOrders(entries, fills, k, offset, id, factor);
      orders := orders + more;
      offset := offset + entries[k].count;
      k := k + 1;
    }
  }

  method NextOrders(entries: seq<Entry>, fills: seq<Fill>, k: nat, offset: nat, id: int, factor: real)
    returns (orders: seq<TradedOrder>)
    requires k < |entries| && Offset(entries, k + 1) <= |fills| && OwnRead(entries, fills, k, id)
    requires offset == Offset(entries, k)
    ensures FirstOrders(entries, fills, k + 1, id, factor) == FirstOrders(entries, fills, k, id, factor) + orders
  {
    orders := [];
    if id == entries[k].id {
      orders := EntryOrders(entries[k], factor, fills, offset);
      FlatMapMore(Lines(entries, fills, k, id), LineAt(entries, fills, k), OrdersAt(factor));
    } else {
      assert Lines(entries, fills, k + 1, id) == Lines(entries, fills, k, id);
    }
  }

  method EntryOrders(e: Entry, factor: real, fills: seq<Fill>, offset: nat) returns (orders: seq<TradedOrder>)
    requires offset + e.count <= |fills| && (HasTaker(e) ==> offset < |fills|)
    ensures orders == OrdersOf(LineOver(e, fills, offset, offset + e.count), factor)
  {
    ghost var slots := fills[offset..offset + e.count];
    var side, from := e.aggressor, 0;
    if e.aggressor != Undefined {
      if fills[offset].qty == e.size {
        side := Invert(side);
      }
      from := 1;
    }
    orders := CopyOrders(e, side, factor, fills, offset + from, offset + e.count);
    assert from <= e.count ==> fills[offset + from..offset + e.count] == slots[from..];
  }

  /** The innermost loop: slots `from` to `to`. */
  method CopyOrders(e: Entry, side: Side, factor: real, fills: seq<Fill>, from: nat, to: nat)
    returns (orders: seq<TradedOrder>)
    requires to <= |fills|
    ensures orders == UpdatesOf(e, side, factor, if from <= to then fills[from..to] else [])
  {
    orders := [];
    var i := from;
    while i < to
      invariant from <= i && (i <= to || i == from)
      invariant orders == UpdatesOf(e, side, factor, if i <= to then fills[from..i] else [])
    {
      assert fills[from..i + 1][..i - from] == fills[from..i];
      orders := orders + [UpdateOf(e, side, factor, fills[i])];
      i := i + 1;
    }
  }

  /** The inner loops of the trade pass. */
  method CollectTrades(entries: seq<Entry>, fills: seq<Fill>, id: int, factor: real) returns (trades: seq<Trade>)
    requires Total(entries) <= |fills| && ReadsOf(entries, fills, id)
    ensures trades == FirstTrades(entries, fills, |entries|, id, factor)
  {
    trades := [];
    var offset, k := 0, 0;
    while k < |entries|
      invariant 0 <= k <= |entries| && offset == Offset(entries, k) <= |fills|
      invariant trades == FirstTrades(entries, fills, k, id, factor)
    {
      OffsetGrows(entries, k + 1);
      assert OwnRead(entries, fills, k, id);
      var more := NextTrades(entries, fills, k, offset, id, factor);
      trades := trades + more;
      offset := offset + entries[k].count;
      k := k + 1;
    }
  }

  method NextTrades(entries: seq<Entry>, fills: seq<Fill>, k: nat, offset: nat, id: int, factor: real)
    returns (trades: seq<Trade>)
    requires k < |entries| && Offset(entries, k + 1) <= |fills| && OwnRead(entries, fills, k, id)
    requires offset == Offset(entries, k)
    ensures FirstTrades(entries, fills, k + 1, id, factor) == FirstTrades(entries, fills, k, id, factor) + trades
  {
    trades := [];
    if id == entries[k].id {
      trades := EntryTrades(entries[k], factor, fills, offset);
      FlatMapMore(Lines(entries, fills, k, id), LineAt(entries, fills, k), TradesAt(factor));
    } else {
      assert Lines(entries, fills, k + 1, id) == Lines(entries, fills, k, id);
    }
  }

  method EntryTrades(e: Entry, factor: real, fills: seq<Fill>, offset: nat) returns (trades: seq<Trade>)
    requires offset + e.count <= |fills| && (HasTaker(e) ==> offset < |fills|)
    ensures trades == TradesOf(LineOver(e, fills, offset, offset + e.count), factor)
  {
    ghost var l := LineOver(e, fills, offset, offset + e.count);
    trades := [];
    var taker: Option<nat> := None;
    var from := 0;
    if e.aggressor != Undefined {
      trades, taker := AggressorTrades(e, factor, fills[offset]);
      from := 1;
    }
    var makers := CopyTrades(e, taker, factor, fills, offset + from, offset + e.count);
    assert from <= e.count ==> fills[offset + from..offset + e.count] == l.slots[from..];
    trades := trades + makers;
  }

  method AggressorTrades(e: Entry, factor: real, f: Fill) returns (trades: seq<Trade>, taker: Option<nat>)
    ensures forall slots :: trades == TakerPart(Line(e, slots, Some(f)), factor)
    ensures forall slots :: taker == TakerId(Line(e, slots, Some(f)))
  {
    trades, taker := [], None;
    if f.qty == e.size {
      taker := Some(f.orderId);
      if e.count == 1 {
        trades := trades + [TakerTrade(e, factor, f)];
      }
    } else {
      trades := trades + [TakerTrade(e, factor, f)];
    }
  }

  method CopyTrades(e: Entry, taker: Option<nat>, factor: real, fills: seq<Fill>, from: nat, to: nat)
    returns (trades: seq<Trade>)
    requires to <= |fills|
    ensures trades == MakerTrades(e, taker, factor, if from <= to then fills[from..to] else [])
  {
    trades := [];
    var i := from;
    while i < to
      invariant from <= i && (i <= to || i == from)
      invariant trades == MakerTrades(e, taker, factor, if i <= to then fills[from..i] else [])
    {
      assert fills[from..i + 1][..i - from] == fills[from..i];
      trades := trades + [MakerTrade(e, taker, factor, fills[i])];
      i := i + 1;
    }
  }

  // ---------- prefixes ----------

  lemma {:induction false} OffsetGrows(es: seq<Entry>, k: nat)
    requires k <= |es|
    ensures Offset(es, k) <= Total(es)
    decreases |es| - k
  {
    if k < |es| {
      OffsetGrows(es, k + 1);
    }
  }

  /** Later entries do not move earlier ones. */
  lemma {:induction false} PrefixStable(a: seq<Entry>, b: seq<Entry>, k: nat)
    requires k <= |a|
    ensures Offset(a + b, k) == Offset(a, k)
    ensures Ids(a + b, k) == Ids(a, k)
  {
    if k > 0 {
      PrefixStable(a, b, k - 1);
    }
  }

  /** Behind entries whose slots are complete, the others start over. */
  lemma {:induction false} OffsetShifts(a: seq<Entry>, b: seq<Entry>, j: nat)
    requires j <= |b|
    ensures Offset(a + b, |a| + j) == Total(a) + Offset(b, j)
  {
    if j == 0 {
      PrefixStable(a, b, |a|);
    } else {
      OffsetShifts(a, b, j - 1);
    }
  }
}
