/** The order slots of a match event: each goes to one security, once per stream, in
    order; and the quantities add up. */
module TradeSlots {
  import opened Optional
  import opened Market
  import opened Sequences
  import opened TradeSummary

  // ---------- partition of the order slots ----------

  datatype Stream = OrderStream | TradeStream

  /** The leading slots of an entry that a stream leaves out: the order updates always
      leave out the aggressor; the trades do so when the aggressor's order covers the
      entry and has counterparties. */
  function Skip(l: Line, stream: Stream): nat {
    if l.slots == [] then 0
    else match stream
      case OrderStream => if HasTaker(l.entry) then 1 else 0
      case TradeStream => if TakerMatches(l) && l.entry.count != 1 then 1 else 0
  }

  function Range(from: nat, to: nat): seq<nat>
    requires from <= to
  {
    if from == to then [] else Range(from, to - 1) + [to - 1]
  }

  /** The slot numbers that one security finds in a stream. */
  function SlotsFor(es: seq<Entry>, fs: seq<Fill>, k: nat, id: int, stream: Stream): seq<nat>
    requires k <= |es| && Offset(es, k) <= |fs|
  {
    if k == 0 then []
    else
      SlotsFor(es, fs, k - 1, id, stream)
      + (if es[k - 1].id == id then EntrySlots(es, fs, k - 1, stream) else [])
  }

  /** Slot `n` belongs to entry `k`, and the stream does not leave it out. */
  predicate Carries(es: seq<Entry>, fs: seq<Fill>, k: nat, n: nat, stream: Stream)
    requires k < |es| && Offset(es, k + 1) <= |fs|
  {
    Offset(es, k) + Skip(LineAt(es, fs, k), stream) <= n < Offset(es, k + 1)
  }

  ghost predicate CarriedBy(es: seq<Entry>, fs: seq<Fill>, k: nat, id: int, n: nat, stream: Stream)
    requires k <= |es| && Total(es) <= |fs|
  {
    exists j :: 0 <= j < k && OwnCarries(es, fs, j, id, n, stream)
  }

  /** Entry `j` is of security `id` and carries slot `n`. */
  predicate OwnCarries(es: seq<Entry>, fs: seq<Fill>, j: nat, id: int, n: nat, stream: Stream)
    requires j < |es| && Total(es) <= |fs|
  {
    es[j].id == id && CarriesAt(es, fs, j, n, stream)
  }

  predicate CarriesAt(es: seq<Entry>, fs: seq<Fill>, j: nat, n: nat, stream: Stream)
    requires j < |es| && Total(es) <= |fs|
  {
    OffsetGrows(es, j + 1);
    Carries(es, fs, j, n, stream)
  }

  lemma {:induction false} RangeAt(from: nat, to: nat)
    requires from <= to
    ensures |Range(from, to)| == to - from
    ensures forall i :: 0 <= i < to - from ==> Range(from, to)[i] == from + i
  {
    if from < to {
      RangeAt(from, to - 1);
    }
  }

  lemma InRange(from: nat, to: nat, n: nat)
    requires from <= to
    ensures n in Range(from, to) <==> from <= n < to
  {
    RangeAt(from, to);
    if from <= n < to {
      assert Range(from, to)[n - from] == n;
    }
  }

  ghost predicate Increasing(ns: seq<nat>) {
    forall i, j :: 0 <= i < j < |ns| ==> ns[i] < ns[j]
  }

  ghost predicate Below(ns: seq<nat>, bound: nat) {
    forall i :: 0 <= i < |ns| ==> ns[i] < bound
  }

  /** Within one stream a security meets its slots in order and at most once. */
  lemma {:induction false} SlotsIncrease(es: seq<Entry>, fs: seq<Fill>, k: nat, id: int, stream: Stream)
    requires k <= |es| && Offset(es, k) <= |fs|
    ensures Increasing(SlotsFor(es, fs, k, id, stream))
    ensures Below(SlotsFor(es, fs, k, id, stream), Offset(es, k))
  {
    if k > 0 {
      SlotsIncrease(es, fs, k - 1, id, stream);
      if es[k - 1].id == id {
        RangeAt(Offset(es, k - 1) + Skip(LineAt(es, fs, k - 1), stream), Offset(es, k));
      }
    }
  }

  /** A slot is in the stream of a security exactly if its entry is of that security and
      the stream does not leave it out; so no slot goes to two securities, and none of a
      known security is lost. */
  lemma {:induction false} SlotsPartition(es: seq<Entry>, fs: seq<Fill>, k: nat, id: int, n: nat, stream: Stream)
    requires k <= |es| && Total(es) <= |fs|
    ensures Offset(es, k) <= |fs|
    ensures n in SlotsFor(es, fs, k, id, stream) <==> CarriedBy(es, fs, k, id, n, stream)
  {
    OffsetGrows(es, k);
    if k > 0 {
      SlotsPartition(es, fs, k - 1, id, n, stream);
      EntryPartition(es, fs, k - 1, n, stream);
      OneMoreCarrier(es, fs, k, id, n, stream);
    }
  }

  lemma EntryPartition(es: seq<Entry>, fs: seq<Fill>, k: nat, n: nat, stream: Stream)
    requires k < |es| && Offset(es, k + 1) <= |fs| && Total(es) <= |fs|
    ensures n in EntrySlots(es, fs, k, stream) <==> CarriesAt(es, fs, k, n, stream)
  {
    InRange(Offset(es, k) + Skip(LineAt(es, fs, k), stream), Offset(es, k + 1), n);
  }

  lemma OneMoreCarrier(es: seq<Entry>, fs: seq<Fill>, k: nat, id: int, n: nat, stream: Stream)
    requires 0 < k <= |es| && Total(es) <= |fs|
    ensures CarriedBy(es, fs, k, id, n, stream) <==>
      CarriedBy(es, fs, k - 1, id, n, stream) || OwnCarries(es, fs, k - 1, id, n, stream)
  {
  }

  /** No slot is carried by two entries. */
  lemma OneEntryPerSlot(es: seq<Entry>, fs: seq<Fill>, i: nat, j: nat, n: nat, stream: Stream)
    requires i < |es| && j < |es| && Total(es) <= |fs|
    requires CarriesAt(es, fs, i, n, stream) && CarriesAt(es, fs, j, n, stream)
    ensures i == j
  {
    if i < j {
      OffsetOrdered(es, i + 1, j);
    } else if j < i {
      OffsetOrdered(es, j + 1, i);
    }
  }

  lemma {:induction false} OffsetOrdered(es: seq<Entry>, i: nat, j: nat)
    requires i <= j <= |es|
    ensures Offset(es, i) <= Offset(es, j)
    decreases j - i
  {
    if i < j {
      OffsetOrdered(es, i, j - 1);
    }
  }

  // ---------- the contents are the slots ----------

  /** The slot an order update, or a trade, was made from. */
  function OrderFill(u: TradedOrder): Fill { Fill(u.orderId, u.qty) }

  function TradeFill(t: Trade): Fill {
    Fill(if t.maker.Some? then t.maker.value else if t.taker.Some? then t.taker.value else 0, t.qty)
  }

  /** One trade per slot, in order: same order, same quantity. */
  ghost predicate TradesMatch(ts: seq<Trade>, slots: seq<Fill>) {
    |ts| == |slots| && forall i :: 0 <= i < |ts| ==> TradeFill(ts[i]) == slots[i]
  }

  ghost predicate OrdersMatch(us: seq<TradedOrder>, slots: seq<Fill>) {
    |us| == |slots| && forall i :: 0 <= i < |us| ==> OrderFill(us[i]) == slots[i]
  }

  /** The same against slot numbers. */
  ghost predicate TradesFrom(ts: seq<Trade>, fs: seq<Fill>, ns: seq<nat>) {
    |ts| == |ns| && forall i :: 0 <= i < |ts| ==> ns[i] < |fs| && TradeFill(ts[i]) == fs[ns[i]]
  }

  ghost predicate OrdersFrom(us: seq<TradedOrder>, fs: seq<Fill>, ns: seq<nat>) {
    |us| == |ns| && forall i :: 0 <= i < |us| ==> ns[i] < |fs| && OrderFill(us[i]) == fs[ns[i]]
  }

  lemma {:induction false} UpdatesMatch(e: Entry, side: Side, factor: real, slots: seq<Fill>)
    ensures OrdersMatch(UpdatesOf(e, side, factor, slots), slots)
  {
    if slots != [] {
      UpdatesMatch(e, side, factor, slots[..|slots| - 1]);
    }
  }

  lemma {:induction false} MakersMatch(e: Entry, taker: Option<nat>, factor: real, slots: seq<Fill>)
    ensures TradesMatch(MakerTrades(e, taker, factor, slots), slots)
  {
    if slots != [] {
      MakersMatch(e, taker, factor, slots[..|slots| - 1]);
    }
  }

  /** What an entry that counts slots reads for its aggressor is its own first slot. */
  predicate ReadsItsOwn(l: Line) {
    l.slots != [] ==> l.head == if HasTaker(l.entry) then Some(l.slots[0]) else None
  }

  /** The line looks at a slot of another entry and trades it. */
  predicate Borrows(l: Line) { l.slots == [] && l.head.Some? && !TakerMatches(l) }

  function BorrowedBy(l: Line): nat { if Borrows(l) then 1 else 0 }

  /** `borrowed` trades more than slots from number `n` on; if none, one for each of them. */
  ghost predicate TailMatch(ts: seq<Trade>, slots: seq<Fill>, n: nat, borrowed: nat) {
    n <= |slots| && |ts| == |slots| - n + borrowed && (borrowed == 0 ==> TradesMatch(ts, slots[n..]))
  }

  lemma EntryTradesMatch(l: Line, factor: real)
    requires Proper(l)
    ensures TailMatch(TradesOf(l, factor), l.slots, Skip(l, TradeStream), BorrowedBy(l))
  {
    MakersMatch(l.entry, TakerId(l), factor, MakerSlots(l));
    if l.slots != [] && HasTaker(l.entry) {
      TakerMatch(l, factor);
    }
  }

  lemma TakerMatch(l: Line, factor: real)
    requires HasTaker(l.entry) && l.slots != [] && ReadsItsOwn(l) && |l.slots| == l.entry.count
    ensures TradesMatch(TradesOf(l, factor), l.slots[Skip(l, TradeStream)..])
  {
    var n, rest := Skip(l, TradeStream), l.slots[1..];
    var makers := MakerTrades(l.entry, TakerId(l), factor, rest);
    MakersMatch(l.entry, TakerId(l), factor, rest);
    assert TradesMatch(TakerPart(l, factor), l.slots[n..1]);
    TradesMatchAppend(TakerPart(l, factor), makers, l.slots[n..1], rest);
    assert l.slots[n..1] + rest == l.slots[n..];
  }

  lemma TradesMatchAppend(ts: seq<Trade>, ts': seq<Trade>, slots: seq<Fill>, slots': seq<Fill>)
    requires TradesMatch(ts, slots) && TradesMatch(ts', slots')
    ensures TradesMatch(ts + ts', slots + slots')
  {
  }

  lemma EntryOrdersMatch(l: Line, factor: real)
    ensures Skip(l, OrderStream) <= |l.slots|
    ensures OrdersMatch(OrdersOf(l, factor), l.slots[Skip(l, OrderStream)..])
  {
    UpdatesMatch(l.entry, OrderSide(l), factor, MakerSlots(l));
  }

  /** The slots of entry `k` that a stream carries. */
  function EntrySlots(es: seq<Entry>, fs: seq<Fill>, k: nat, stream: Stream): seq<nat>
    requires k < |es| && Offset(es, k + 1) <= |fs|
  {
    Range(Offset(es, k) + Skip(LineAt(es, fs, k), stream), Offset(es, k + 1))
  }

  lemma TradesFromRange(ts: seq<Trade>, slots: seq<Fill>, fs: seq<Fill>, from: nat, to: nat, n: nat, borrowed: nat)
    requires from <= to <= |fs| && slots == fs[from..to]
    requires TailMatch(ts, slots, n, borrowed)
    ensures Against(ts, fs, Range(from + n, to), borrowed)
  {
    RangeAt(from + n, to);
    assert slots[n..] == fs[from + n..to];
    assert forall i :: 0 <= i < to - from - n ==> slots[n..][i] == fs[from + n + i];
  }

  lemma OrdersFromRange(us: seq<TradedOrder>, slots: seq<Fill>, fs: seq<Fill>, from: nat, to: nat, n: nat)
    requires from <= from + n <= to <= |fs| && slots == fs[from..to] && OrdersMatch(us, slots[n..])
    ensures OrdersFrom(us, fs, Range(from + n, to))
  {
    RangeAt(from + n, to);
    assert slots[n..] == fs[from + n..to];
    assert forall i :: 0 <= i < to - from - n ==> slots[n..][i] == fs[from + n + i];
  }

  /** Trades against slots: `borrowed` trades too many, and if none, one for each slot. */
  ghost predicate Against(ts: seq<Trade>, fs: seq<Fill>, ns: seq<nat>, borrowed: nat) {
    |ts| == |ns| + borrowed && (borrowed == 0 ==> TradesFrom(ts, fs, ns))
  }

  lemma AgainstMore(
    fs: seq<Fill>, ts: seq<Trade>, ns: seq<nat>, borrowed: nat,
    more: seq<Trade>, slots: seq<Fill>, from: nat, to: nat, n: nat, borrowedMore: nat)
    requires Against(ts, fs, ns, borrowed)
    requires from <= to <= |fs| && slots == fs[from..to] && TailMatch(more, slots, n, borrowedMore)
    ensures Against(ts + more, fs, ns + Range(from + n, to), borrowed + borrowedMore)
  {
    TradesFromRange(more, slots, fs, from, to, n, borrowedMore);
    if borrowed + borrowedMore == 0 {
      TradesFromAppend(fs, ts, more, ns, Range(from + n, to));
    }
  }

  lemma TradesFromAppend(fs: seq<Fill>, a: seq<Trade>, b: seq<Trade>, na: seq<nat>, nb: seq<nat>)
    requires TradesFrom(a, fs, na) && TradesFrom(b, fs, nb)
    ensures TradesFrom(a + b, fs, na + nb)
  {
  }

  lemma OrdersFromAppend(fs: seq<Fill>, a: seq<TradedOrder>, b: seq<TradedOrder>, na: seq<nat>, nb: seq<nat>)
    requires OrdersFrom(a, fs, na) && OrdersFrom(b, fs, nb)
    ensures OrdersFrom(a + b, fs, na + nb)
  {
  }

  /** The entries of a security that trade a slot of another entry: those with an
      aggressor and no slots, which find a slot of another quantity in their place. */
  function Borrowed(es: seq<Entry>, fs: seq<Fill>, k: nat, id: int): nat
    requires k <= |es| && Offset(es, k) <= |fs|
  {
    if k == 0 then 0
    else Borrowed(es, fs, k - 1, id) + if es[k - 1].id == id then BorrowedBy(LineAt(es, fs, k - 1)) else 0
  }

  /** One more entry: nothing changes for the other securities. */
  lemma OneMoreEntry<T>(es: seq<Entry>, fs: seq<Fill>, k: nat, id: int, f: Line -> seq<T>)
    requires k < |es| && Offset(es, k + 1) <= |fs|
    ensures FlatMap(Lines(es, fs, k + 1, id), f)
         == FlatMap(Lines(es, fs, k, id), f) + if es[k].id == id then f(LineAt(es, fs, k)) else []
  {
    if es[k].id == id {
      FlatMapMore(Lines(es, fs, k, id), LineAt(es, fs, k), f);
    } else {
      assert Lines(es, fs, k + 1, id) == Lines(es, fs, k, id);
    }
  }

  /** A line as the slots of an event give it. */
  predicate Proper(l: Line) { |l.slots| == l.entry.count && ReadsItsOwn(l) }

  ghost predicate TradesPerSlot(f: Line -> seq<Trade>) {
    forall l: Line :: Proper(l) ==> TailMatch(f(l), l.slots, Skip(l, TradeStream), BorrowedBy(l))
  }

  ghost predicate OrdersPerSlot(f: Line -> seq<TradedOrder>) {
    forall l: Line :: Proper(l) ==> OrdersMatch(f(l), l.slots[Skip(l, OrderStream)..])
  }

  lemma LineIsProper(es: seq<Entry>, fs: seq<Fill>, k: nat)
    requires k < |es| && Offset(es, k + 1) <= |fs|
    ensures Proper(LineAt(es, fs, k))
  {
  }

  lemma EntryAgainst(
    es: seq<Entry>, fs: seq<Fill>, k: nat, f: Line -> seq<Trade>, ts: seq<Trade>, ns: seq<nat>, borrowed: nat)
    requires k < |es| && Offset(es, k + 1) <= |fs| && TradesPerSlot(f) && Against(ts, fs, ns, borrowed)
    ensures Against(ts + f(LineAt(es, fs, k)), fs, ns + EntrySlots(es, fs, k, TradeStream),
                    borrowed + BorrowedBy(LineAt(es, fs, k)))
  {
    var l := LineAt(es, fs, k);
    LineIsProper(es, fs, k);
    AgainstMore(fs, ts, ns, borrowed, f(l), l.slots, Offset(es, k), Offset(es, k + 1),
                Skip(l, TradeStream), BorrowedBy(l));
  }

  lemma {:induction false} TradesAgainstSlots(es: seq<Entry>, fs: seq<Fill>, k: nat, id: int, f: Line -> seq<Trade>)
    requires k <= |es| && Offset(es, k) <= |fs| && TradesPerSlot(f)
    ensures Against(FlatMap(Lines(es, fs, k, id), f), fs, SlotsFor(es, fs, k, id, TradeStream), Borrowed(es, fs, k, id))
  {
    if k > 0 {
      TradesAgainstSlots(es, fs, k - 1, id, f);
      OneMoreEntry(es, fs, k - 1, id, f);
      if es[k - 1].id == id {
        EntryAgainst(es, fs, k - 1, f, FlatMap(Lines(es, fs, k - 1, id), f),
                     SlotsFor(es, fs, k - 1, id, TradeStream), Borrowed(es, fs, k - 1, id));
      } else {
        NothingMore(FlatMap(Lines(es, fs, k - 1, id), f));
        NothingMore(SlotsFor(es, fs, k - 1, id, TradeStream));
      }
    }
  }

  lemma {:induction false} OrdersAgainstSlots(
    es: seq<Entry>, fs: seq<Fill>, k: nat, id: int, f: Line -> seq<TradedOrder>)
    requires k <= |es| && Offset(es, k) <= |fs| && OrdersPerSlot(f)
    ensures OrdersFrom(FlatMap(Lines(es, fs, k, id), f), fs, SlotsFor(es, fs, k, id, OrderStream))
  {
    if k > 0 {
      var l := LineAt(es, fs, k - 1);
      OrdersAgainstSlots(es, fs, k - 1, id, f);
      OneMoreEntry(es, fs, k - 1, id, f);
      if es[k - 1].id == id {
        LineIsProper(es, fs, k - 1);
        OrdersFromRange(f(l), l.slots, fs, Offset(es, k - 1), Offset(es, k), Skip(l, OrderStream));
        OrdersFromAppend(fs, FlatMap(Lines(es, fs, k - 1, id), f), f(l),
                         SlotsFor(es, fs, k - 1, id, OrderStream), EntrySlots(es, fs, k - 1, OrderStream));
      } else {
        NothingMore(FlatMap(Lines(es, fs, k - 1, id), f));
        NothingMore(SlotsFor(es, fs, k - 1, id, OrderStream));
      }
    }
  }

  /** The trades of a security are its slots of the trade stream, in order, same orders and
      same quantities, if and only if none of its entries borrows a slot; each that does
      adds one trade to those. */
  lemma TradesAreTheSlotsIff(es: seq<Entry>, fs: seq<Fill>, k: nat, id: int, factor: real)
    requires k <= |es| && Offset(es, k) <= |fs|
    ensures var ts, ns := FirstTrades(es, fs, k, id, factor), SlotsFor(es, fs, k, id, TradeStream);
      && |ts| == |ns| + Borrowed(es, fs, k, id)
      && (TradesFrom(ts, fs, ns) <==> Borrowed(es, fs, k, id) == 0)
  {
    forall l: Line | Proper(l)
      ensures TailMatch(TradesAt(factor)(l), l.slots, Skip(l, TradeStream), BorrowedBy(l))
    {
      EntryTradesMatch(l, factor);
    }
    TradesAgainstSlots(es, fs, k, id, TradesAt(factor));
  }

  /** In particular if every aggressor of the security reports at least one order. */
  lemma {:induction false} NothingBorrowed(es: seq<Entry>, fs: seq<Fill>, k: nat, id: int)
    requires k <= |es| && Offset(es, k) <= |fs|
    requires forall e :: e in es && e.id == id && HasTaker(e) ==> e.count >= 1
    ensures Borrowed(es, fs, k, id) == 0
  {
    if k > 0 {
      NothingBorrowed(es, fs, k - 1, id);
      assert es[k - 1] in es;
    }
  }

  /** The order updates of a security are always its slots of the order stream. */
  lemma OrdersAreTheSlots(es: seq<Entry>, fs: seq<Fill>, k: nat, id: int, factor: real)
    requires k <= |es| && Offset(es, k) <= |fs|
    ensures OrdersFrom(FirstOrders(es, fs, k, id, factor), fs, SlotsFor(es, fs, k, id, OrderStream))
  {
    forall l: Line | Proper(l)
      ensures OrdersMatch(OrdersAt(factor)(l), l.slots[Skip(l, OrderStream)..])
    {
      EntryOrdersMatch(l, factor);
    }
    OrdersAgainstSlots(es, fs, k, id, OrdersAt(factor));
  }

  // ---------- the terms of what is published ----------

  /** A trade on the terms of its entry; only a trade between an aggressor whose order
      carries the entry's size and a counterparty names both. */
  predicate OnTerms(t: Trade, l: Line, factor: real) {
    && t.price == l.entry.price * factor && t.side == l.entry.aggressor && t.tradeId == l.entry.tradeId
    && (t.taker.Some? && t.maker.Some? ==> TakerMatches(l) && t.taker.value == l.head.value.orderId)
    && (t.maker.Some? && t.taker.None? ==> !TakerMatches(l))
  }

  /** An order update on the terms of its entry: resting orders are on the opposite side
      of an aggressor whose order carries the entry's size. */
  predicate OnOrderTerms(u: TradedOrder, l: Line, factor: real) {
    && u.price == l.entry.price * factor
    && u.side == if TakerMatches(l) then Invert(l.entry.aggressor) else l.entry.aggressor
  }

  lemma {:induction false} MakersOnTerms(e: Entry, taker: Option<nat>, factor: real, slots: seq<Fill>, i: nat)
    requires i < |MakerTrades(e, taker, factor, slots)|
    ensures var t := MakerTrades(e, taker, factor, slots)[i];
      t.price == e.price * factor && t.side == e.aggressor && t.tradeId == e.tradeId
      && t.taker == taker && t.maker.Some?
  {
    if i < |MakerTrades(e, taker, factor, slots)| - 1 {
      MakersOnTerms(e, taker, factor, slots[..|slots| - 1], i);
    }
  }

  lemma {:induction false} UpdatesOnTerms(e: Entry, side: Side, factor: real, slots: seq<Fill>, i: nat)
    requires i < |UpdatesOf(e, side, factor, slots)|
    ensures var u := UpdatesOf(e, side, factor, slots)[i]; u.price == e.price * factor && u.side == side
  {
    if i < |UpdatesOf(e, side, factor, slots)| - 1 {
      UpdatesOnTerms(e, side, factor, slots[..|slots| - 1], i);
    }
  }

  /** Every trade of an entry is on its terms. */
  lemma TradesOnTerms(l: Line, factor: real, i: nat)
    requires i < |TradesOf(l, factor)|
    ensures OnTerms(TradesOf(l, factor)[i], l, factor)
  {
    var n := |TakerPart(l, factor)|;
    if i >= n {
      MakersOnTerms(l.entry, TakerId(l), factor, MakerSlots(l), i - n);
    }
  }

  /** Every order update of an entry is on its terms. */
  lemma OrdersOnTerms(l: Line, factor: real, i: nat)
    requires i < |OrdersOf(l, factor)|
    ensures OnOrderTerms(OrdersOf(l, factor)[i], l, factor)
  {
    UpdatesOnTerms(l.entry, OrderSide(l), factor, MakerSlots(l), i);
  }

  // ---------- an entry, case by case ----------

  /** The price, side and id of a trade of entry `e`. */
  predicate OfEntry(t: Trade, e: Entry, factor: real) {
    t.price == e.price * factor && t.side == e.aggressor && t.tradeId == e.tradeId
  }

  /** The trade is made from the slot, between the two orders. */
  predicate Between(t: Trade, e: Entry, factor: real, f: Fill, taker: Option<nat>, maker: Option<nat>) {
    OfEntry(t, e, factor) && t.qty == f.qty && t.taker == taker && t.maker == maker
  }

  /** The order update of the slot. */
  predicate Updates(u: TradedOrder, e: Entry, factor: real, f: Fill, side: Side) {
    u.price == e.price * factor && u.orderId == f.orderId && u.qty == f.qty && u.side == side
  }

  lemma {:induction false} MakersAre(e: Entry, taker: Option<nat>, factor: real, slots: seq<Fill>)
    ensures var ts := MakerTrades(e, taker, factor, slots);
      |ts| == |slots|
      && forall i :: 0 <= i < |ts| ==> Between(ts[i], e, factor, slots[i], taker, Some(slots[i].orderId))
  {
    if slots != [] {
      MakersAre(e, taker, factor, slots[..|slots| - 1]);
    }
  }

  lemma {:induction false} UpdatesAre(e: Entry, side: Side, factor: real, slots: seq<Fill>)
    ensures var us := UpdatesOf(e, side, factor, slots);
      |us| == |slots| && forall i :: 0 <= i < |us| ==> Updates(us[i], e, factor, slots[i], side)
  {
    if slots != [] {
      UpdatesAre(e, side, factor, slots[..|slots| - 1]);
    }
  }

  /** Without an aggressor, every slot makes a trade that names it as the maker, and an order
      update without a side. */
  lemma WithoutAggressor(l: Line, factor: real)
    requires Proper(l) && l.entry.aggressor == Undefined && l.head.None?
    ensures var ts, us := TradesOf(l, factor), OrdersOf(l, factor);
      && |ts| == |us| == l.entry.count
      && forall i :: 0 <= i < l.entry.count ==>
           && Between(ts[i], l.entry, factor, l.slots[i], None, Some(l.slots[i].orderId))
           && Updates(us[i], l.entry, factor, l.slots[i], Undefined)
  {
    MakersAre(l.entry, None, factor, l.slots);
    UpdatesAre(l.entry, Undefined, factor, l.slots);
  }

  /** Where the aggressor's order carries the whole entry and has counterparties: one trade for
      each of them, with that order as the taker; and their order updates are on the other
      side. */
  lemma CoveringAggressor(l: Line, factor: real)
    requires Proper(l) && (l.entry.aggressor == Buy || l.entry.aggressor == Sell)
    requires l.entry.count >= 2 && l.slots[0].qty == l.entry.size
    ensures var ts, us := TradesOf(l, factor), OrdersOf(l, factor);
      var other := if l.entry.aggressor == Buy then Sell else Buy;
      && |ts| == |us| == l.entry.count - 1
      && forall i :: 0 <= i < l.entry.count - 1 ==>
           var f := l.slots[i + 1];
           && Between(ts[i], l.entry, factor, f, Some(l.slots[0].orderId), Some(f.orderId))
           && Updates(us[i], l.entry, factor, f, other)
  {
    MakersAre(l.entry, Some(l.slots[0].orderId), factor, l.slots[1..]);
    UpdatesAre(l.entry, if l.entry.aggressor == Buy then Sell else Buy, factor, l.slots[1..]);
  }

  /** Where it does not, or has no counterparties: one trade for every slot, the first with the
      aggressor's order as the taker and the others with theirs as the maker, and never both;
      the order updates of the others are on the aggressor's side. */
  lemma PartialAggressor(l: Line, factor: real)
    requires Proper(l) && (l.entry.aggressor == Buy || l.entry.aggressor == Sell)
    requires l.entry.count >= 1 && (l.slots[0].qty != l.entry.size || l.entry.count == 1)
    ensures var ts, us := TradesOf(l, factor), OrdersOf(l, factor);
      && |ts| == l.entry.count && |us| == l.entry.count - 1
      && Between(ts[0], l.entry, factor, l.slots[0], Some(l.slots[0].orderId), None)
      && forall i :: 1 <= i < l.entry.count ==>
           && Between(ts[i], l.entry, factor, l.slots[i], None, Some(l.slots[i].orderId))
           && Updates(us[i - 1], l.entry, factor, l.slots[i], l.entry.aggressor)
  {
    var rest := l.slots[1..];
    MakersAre(l.entry, TakerId(l), factor, rest);
    UpdatesAre(l.entry, OrderSide(l), factor, rest);
    assert TradesOf(l, factor)
        == [TakerTrade(l.entry, factor, l.slots[0])] + MakerTrades(l.entry, TakerId(l), factor, rest);
    assert forall i :: 1 <= i < l.entry.count ==> rest[i - 1] == l.slots[i];
  }

  /** An aggressor entry that counts no slots trades the slot it finds in front of it, with
      that order as the taker, unless it carries the size of the entry; and makes no order
      updates. */
  lemma SlotlessAggressor(l: Line, factor: real)
    requires Proper(l) && l.entry.count == 0 && l.head.Some?
    ensures OrdersOf(l, factor) == []
    ensures var ts, f := TradesOf(l, factor), l.head.value;
      if f.qty == l.entry.size then ts == []
      else |ts| == 1 && Between(ts[0], l.entry, factor, f, Some(f.orderId), None)
  {
  }

  // ---------- conservation ----------

  function Quantity(fs: seq<Fill>): int {
    if fs == [] then 0 else fs[0].qty + Quantity(fs[1..])
  }

  function Traded(ts: seq<Trade>): int {
    if ts == [] then 0 else ts[0].qty + Traded(ts[1..])
  }

  lemma {:induction false} MatchingQuantities(ts: seq<Trade>, slots: seq<Fill>)
    requires TradesMatch(ts, slots)
    ensures Traded(ts) == Quantity(slots)
  {
    if ts != [] {
      assert TradeFill(ts[0]) == slots[0];
      MatchingQuantities(ts[1..], slots[1..]);
    }
  }

  /** An aggressor entry whose first slot carries its size trades exactly its size if and
      only if it has no counterparties or they add up to it. */
  lemma AggressorTradesItsSize(l: Line, factor: real)
    requires Proper(l) && l.entry.count >= 1 && TakerMatches(l)
    ensures Traded(TradesOf(l, factor)) == l.entry.size <==>
      l.entry.count == 1 || Quantity(l.slots[1..]) == l.entry.size
  {
    EntryTradesMatch(l, factor);
    MatchingQuantities(TradesOf(l, factor), l.slots[Skip(l, TradeStream)..]);
    if l.entry.count == 1 {
      assert l.slots[1..] == [] && l.slots[0..] == l.slots;
    }
  }

  // ---------- range of the reads ----------

  /** A slot of the entry itself or of a later one, or a surplus slot, follows. */
  ghost predicate SlotFollows(es: seq<Entry>, fs: seq<Fill>, k: nat) {
    |fs| > Total(es) || exists j :: k <= j < |es| && es[j].count > 0
  }

  /** Once all slots are in, a flush reads nothing outside the buffer if and only if a slot
      follows every aggressor entry of a known security. */
  lemma ReadsInRangeIff(es: seq<Entry>, fs: seq<Fill>, known: Known)
    requires Total(es) <= |fs|
    ensures ReadsInRange(es, fs, known) <==>
      forall k :: 0 <= k < |es| && es[k].id in known && HasTaker(es[k]) ==> SlotFollows(es, fs, k)
  {
    forall k | 0 <= k < |es|
      ensures Offset(es, k) < |fs| <==> SlotFollows(es, fs, k)
    {
      RoomIff(es, k);
    }
    if ReadsInRange(es, fs, known) {
      forall k | 0 <= k < |es| && es[k].id in known && HasTaker(es[k])
        ensures SlotFollows(es, fs, k)
      {
        assert ReadsOf(es, fs, es[k].id);
        assert OwnRead(es, fs, k, es[k].id);
      }
    }
  }

  lemma {:induction false} RoomIff(es: seq<Entry>, k: nat)
    requires k <= |es|
    ensures Offset(es, k) <= Total(es)
    ensures Offset(es, k) < Total(es) <==> exists j :: k <= j < |es| && es[j].count > 0
    decreases |es| - k
  {
    if k < |es| {
      RoomIff(es, k + 1);
      assert es[k].count > 0 ==> exists j :: k <= j < |es| && es[j].count > 0;
    }
  }

  // ---------- where the promise ends ----------

  /** An aggressor entry without orders of its own takes the next entry's slot for the
      aggressor's: one slot makes two trades. */
  lemma SlotTradesTwice() returns (es: seq<Entry>, fs: seq<Fill>)
    ensures |fs| == Total(es) == 1 && ReadsInRange(es, fs, map[7 := 1.0])
    ensures Borrowed(es, fs, |es|, 7) == 1 && |SlotsFor(es, fs, |es|, 7, TradeStream)| == 1
    ensures |FirstTrades(es, fs, |es|, 7, 1.0)| == 2
  {
    var e, e' := Entry(7, Buy, 1.0, 5, 0, 1), Entry(7, Undefined, 1.0, 3, 1, 2);
    es, fs := [e, e'], [Fill(1, 3)];
    BorrowingPair(es, fs, e, e');
    TradesAreTheSlotsIff(es, fs, 2, 7, 1.0);
  }

  lemma BorrowingPair(es: seq<Entry>, fs: seq<Fill>, e: Entry, e': Entry)
    requires es == [e, e'] && |fs| == 1 && e.id == e'.id == 7 && HasTaker(e) && !HasTaker(e')
    requires e.count == 0 && e'.count == 1 && fs[0].qty != e.size
    ensures Total(es) == 1 && ReadsInRange(es, fs, map[7 := 1.0])
    ensures Borrowed(es, fs, 2, 7) == 1 && |SlotsFor(es, fs, 2, 7, TradeStream)| == 1
  {
    assert Offset(es, 0) == 0 && Offset(es, 1) == 0 && Offset(es, 2) == 1;
    assert Borrowed(es, fs, 0, 7) == 0 && Borrowed(es, fs, 1, 7) == 1;
    assert SlotsFor(es, fs, 0, 7, TradeStream) == [] && SlotsFor(es, fs, 1, 7, TradeStream) == [];
    assert Range(0, 0) == [] && Range(0, 1) == [0];
  }
}
