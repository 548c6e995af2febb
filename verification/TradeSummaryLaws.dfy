/** What the published trade summaries amount to: fragmentation does not show, every
    order slot goes to one security, and quantities add up. */
module TradeSummaryLaws {
  import opened Market
  import opened Optional
  import opened Sequences
  import opened TradeSummary

  // ---------- reading the output per security ----------

  function TradesIn(id: int): Out -> seq<Trade> {
    (out: Out) => if out.Trades? && out.id == id then out.trades else []
  }

  function OrdersIn(id: int): Out -> seq<TradedOrder> {
    (out: Out) => if out.Orders? && out.id == id then out.orders else []
  }

  /** All trades published for one security, in order. */
  function TradesFor(outs: seq<Out>, id: int): seq<Trade> { FlatMap(outs, TradesIn(id)) }

  /** All order updates published for one security, in order. */
  function OrdersFor(outs: seq<Out>, id: int): seq<TradedOrder> { FlatMap(outs, OrdersIn(id)) }

  lemma ForAppend(a: seq<Out>, b: seq<Out>, id: int)
    ensures TradesFor(a + b, id) == TradesFor(a, id) + TradesFor(b, id)
    ensures OrdersFor(a + b, id) == OrdersFor(a, id) + OrdersFor(b, id)
  {
    FlatMapAppend(a, b, TradesIn(id));
    FlatMapAppend(a, b, OrdersIn(id));
  }

  // ---------- a flush publishes the one-shot result ----------

  lemma {:induction false} IdsAreDistinct(es: seq<Entry>, k: nat)
    requires k <= |es|
    ensures Distinct(Ids(es, k))
    ensures forall j :: 0 <= j < k ==> es[j].id in Ids(es, k)
  {
    if k > 0 {
      IdsAreDistinct(es, k - 1);
    }
  }

  /** Where an id appears first. */
  function FirstEntry(es: seq<Entry>, id: int): (n: nat)
    ensures n <= |es|
  {
    if es == [] || es[0].id == id then 0 else 1 + FirstEntry(es[1..], id)
  }

  lemma {:induction false} FirstEntryIs(es: seq<Entry>, id: int, n: nat)
    requires n < |es| && es[n].id == id && forall j :: 0 <= j < n ==> es[j].id != id
    ensures FirstEntry(es, id) == n
  {
    if n > 0 {
      assert es[1..][n - 1].id == id;
      FirstEntryIs(es[1..], id, n - 1);
    }
  }

  lemma NewIsFirst(es: seq<Entry>, n: nat, ids: seq<int>)
    requires n < |es| && ids == Ids(es, n) && es[n].id !in ids
    ensures FirstEntry(es, es[n].id) == n
  {
    IdsAreDistinct(es, n);
    FirstEntryIs(es, es[n].id, n);
  }

  lemma {:induction false} IdAppears(es: seq<Entry>, k: nat, id: int)
    requires k <= |es| && id in Ids(es, k)
    ensures FirstEntry(es, id) < k
  {
    var n := k - 1;
    if id in Ids(es, n) {
      IdAppears(es, n, id);
    } else {
      NewIsFirst(es, n, Ids(es, n));
    }
  }

  /** The securities of an event are served in the order in which they first appear in it. */
  lemma {:induction false} ServedByFirstAppearance(es: seq<Entry>, k: nat, i: nat, j: nat)
    requires k <= |es| && i < j < |Ids(es, k)|
    ensures FirstEntry(es, Ids(es, k)[i]) < FirstEntry(es, Ids(es, k)[j])
  {
    var n := k - 1;
    if j < |Ids(es, n)| {
      ServedByFirstAppearance(es, n, i, j);
    } else {
      NewIsLater(es, n, Ids(es, n), i);
    }
  }

  lemma NewIsLater(es: seq<Entry>, n: nat, ids: seq<int>, i: nat)
    requires n < |es| && ids == Ids(es, n) && es[n].id !in ids && i < |ids|
    ensures FirstEntry(es, ids[i]) < FirstEntry(es, es[n].id)
  {
    assert ids[i] in ids;
    IdAppears(es, n, ids[i]);
    NewIsFirst(es, n, ids);
  }

  lemma {:induction false} AbsentHasNone(es: seq<Entry>, fs: seq<Fill>, k: nat, id: int)
    requires k <= |es| && Offset(es, k) <= |fs|
    requires forall j :: 0 <= j < k ==> es[j].id != id
    ensures Lines(es, fs, k, id) == []
  {
    if k > 0 {
      AbsentHasNone(es, fs, k - 1, id);
    }
  }

  lemma OneTradeOut(i: int, own: seq<Trade>, id: int)
    ensures TradesFor(TradeOut(i, own), id) == if i == id then own else []
    ensures OrdersFor(TradeOut(i, own), id) == []
  {
    FlatMapOne(Trades(i, own), TradesIn(id));
    FlatMapOne(Trades(i, own), OrdersIn(id));
  }

  /** Outputs per id, seen through `g`: those of `id`, once, if only its own are seen. */
  lemma OutsFor<T>(ids: seq<int>, f: int -> seq<Out>, g: Out -> seq<T>, id: int, own: seq<T>)
    requires Distinct(ids) && forall i :: FlatMap(f(i), g) == if i == id then own else []
    ensures FlatMap(FlatMap(ids, f), g) == if id in ids then own else []
  {
    var h := (i: int) => if i == id then own else [];
    FlatFlat(ids, |ids|, f, g, h);
    FlatOnce(ids, h, id);
  }

  lemma NoOutsFor<T>(ids: seq<int>, f: int -> seq<Out>, g: Out -> seq<T>)
    requires forall i :: FlatMap(f(i), g) == []
    ensures FlatMap(FlatMap(ids, f), g) == []
  {
    var none: int -> seq<T> := (i: int) => [];
    forall i: int
      ensures none(i) == FlatMap(f(i), g)
    {
    }
    FlatFlat(ids, |ids|, f, g, none);
    FlatNone(ids, |ids|, none);
  }

  lemma TradeOutsFor(ids: seq<int>, es: seq<Entry>, fs: seq<Fill>, known: Known, id: int)
    requires Distinct(ids) && Total(es) <= |fs|
    ensures TradesFor(FlatMap(ids, TradeOutOf(es, fs, known)), id)
         == if id in ids then OneShotTrades(es, fs, known, id) else []
    ensures OrdersFor(FlatMap(ids, TradeOutOf(es, fs, known)), id) == []
  {
    var f, own := TradeOutOf(es, fs, known), OneShotTrades(es, fs, known, id);
    forall i
      ensures FlatMap(f(i), TradesIn(id)) == if i == id then own else []
      ensures FlatMap(f(i), OrdersIn(id)) == []
    {
      OneTradeOut(i, OneShotTrades(es, fs, known, i), id);
    }
    OutsFor(ids, f, TradesIn(id), id, own);
    NoOutsFor(ids, f, OrdersIn(id));
  }

  lemma OneOrderOut(i: int, own: seq<TradedOrder>, id: int)
    ensures OrdersFor(OrderOut(i, own), id) == if i == id then own else []
    ensures TradesFor(OrderOut(i, own), id) == []
  {
    FlatMapOne(Orders(i, own), OrdersIn(id));
    FlatMapOne(Orders(i, own), TradesIn(id));
  }

  lemma OrderOutsFor(ids: seq<int>, es: seq<Entry>, fs: seq<Fill>, known: Known, id: int)
    requires Distinct(ids) && Total(es) <= |fs|
    ensures OrdersFor(FlatMap(ids, OrderOutOf(es, fs, known)), id)
         == if id in ids then OneShotOrders(es, fs, known, id) else []
    ensures TradesFor(FlatMap(ids, OrderOutOf(es, fs, known)), id) == []
  {
    var f, own := OrderOutOf(es, fs, known), OneShotOrders(es, fs, known, id);
    forall i
      ensures FlatMap(f(i), OrdersIn(id)) == if i == id then own else []
      ensures FlatMap(f(i), TradesIn(id)) == []
    {
      OneOrderOut(i, OneShotOrders(es, fs, known, i), id);
    }
    OutsFor(ids, f, OrdersIn(id), id, own);
    NoOutsFor(ids, f, TradesIn(id));
  }

  lemma AbsentOneShot(es: seq<Entry>, fs: seq<Fill>, known: Known, id: int)
    requires Total(es) <= |fs| && forall j :: 0 <= j < |es| ==> es[j].id != id
    ensures OneShotTrades(es, fs, known, id) == [] && OneShotOrders(es, fs, known, id) == []
  {
    AbsentHasNone(es, fs, |es|, id);
  }

  /** A flush publishes, for every security, exactly its one-shot trades and orders. */
  lemma FlushIsOneShot(s: State, known: Known, id: int)
    requires Total(s.entries) <= |s.fills| && s.ids == Ids(s.entries, |s.entries|)
    ensures TradesFor(Flushed(s, known), id) == OneShotTrades(s.entries, s.fills, known, id)
    ensures OrdersFor(Flushed(s, known), id) == OneShotOrders(s.entries, s.fills, known, id)
  {
    var es, fs := s.entries, s.fills;
    IdsAreDistinct(es, |es|);
    OrderOutsFor(s.ids, es, fs, known, id);
    TradeOutsFor(s.ids, es, fs, known, id);
    ForAppend(FlatMap(s.ids, OrderOutOf(es, fs, known)), FlatMap(s.ids, TradeOutOf(es, fs, known)), id);
    if id !in s.ids {
      AbsentOneShot(es, fs, known, id);
    }
  }

  lemma {:induction false} FlatAll<S>(ids: seq<S>, n: nat, f: S -> seq<Out>, orders: bool)
    requires n <= |ids| && forall id, i :: 0 <= i < |f(id)| ==> f(id)[i].Orders? == orders
    ensures forall i :: 0 <= i < |Flat(ids, n, f)| ==> Flat(ids, n, f)[i].Orders? == orders
  {
    if n > 0 {
      FlatAll(ids, n - 1, f, orders);
    }
  }

  /** A flush publishes all order updates before the first trade. */
  lemma OrdersComeFirst(s: State, known: Known, i: nat, j: nat)
    requires Total(s.entries) <= |s.fills| && i < j < |Flushed(s, known)|
    ensures Flushed(s, known)[j].Orders? ==> Flushed(s, known)[i].Orders?
  {
    FlatAll(s.ids, |s.ids|, OrderOutOf(s.entries, s.fills, known), true);
    FlatAll(s.ids, |s.ids|, TradeOutOf(s.entries, s.fills, known), false);
  }

  // ---------- one-shot results split at complete prefixes ----------

  lemma LineOfPrefix(a: seq<Entry>, b: seq<Entry>, fa: seq<Fill>, fb: seq<Fill>, k: nat)
    requires k < |a| && Total(a) == |fa| && ReadAt(a, fa, k)
    ensures Offset(a, k + 1) <= |fa| && Offset(a + b, k + 1) <= |fa + fb|
    ensures LineAt(a + b, fa + fb, k) == LineAt(a, fa, k)
  {
    OffsetGrows(a, k + 1);
    PrefixStable(a, b, k);
    PrefixStable(a, b, k + 1);
    LongerLine(a[k], fa, fb, Offset(a, k), Offset(a, k + 1));
    assert (a + b)[k] == a[k];
  }

  lemma {:induction false} LinesOfPrefix(a: seq<Entry>, b: seq<Entry>, fa: seq<Fill>, fb: seq<Fill>, k: nat, id: int)
    requires k <= |a| && Total(a) == |fa| && ReadsOf(a, fa, id)
    ensures Offset(a, k) <= |fa| && Offset(a + b, k) <= |fa + fb|
    ensures Lines(a + b, fa + fb, k, id) == Lines(a, fa, k, id)
  {
    OffsetGrows(a, k);
    PrefixStable(a, b, k);
    if k > 0 {
      LinesOfPrefix(a, b, fa, fb, k - 1, id);
      assert OwnRead(a, fa, k - 1, id);
      if a[k - 1].id == id {
        LineOfPrefix(a, b, fa, fb, k - 1);
      }
    }
  }

  lemma SuffixOffsets(a: seq<Entry>, b: seq<Entry>, j: nat)
    requires j < |b|
    ensures Offset(a + b, |a| + j) == Total(a) + Offset(b, j)
    ensures Offset(a + b, |a| + j + 1) == Total(a) + Offset(b, j + 1)
    ensures (a + b)[|a| + j] == b[j]
  {
    OffsetShifts(a, b, j);
    OffsetShifts(a, b, j + 1);
  }

  lemma LineOfSuffix(a: seq<Entry>, b: seq<Entry>, fa: seq<Fill>, fb: seq<Fill>, j: nat)
    requires j < |b| && Total(a) == |fa| && Offset(b, j + 1) <= |fb|
    ensures Offset(a + b, |a| + j + 1) <= |fa + fb|
    ensures LineAt(a + b, fa + fb, |a| + j) == LineAt(b, fb, j)
  {
    SuffixOffsets(a, b, j);
    SameLine(a + b, fa, fb, |a| + j, b, j);
  }

  /** Lines of the same entry, the slots of the one `|fa|` places behind those of the other. */
  lemma SameLine(es: seq<Entry>, fa: seq<Fill>, fb: seq<Fill>, k: nat, es': seq<Entry>, k': nat)
    requires k < |es| && k' < |es'| && es[k] == es'[k'] && Offset(es', k' + 1) <= |fb|
    requires Offset(es, k) == |fa| + Offset(es', k') && Offset(es, k + 1) == |fa| + Offset(es', k' + 1)
    ensures LineAt(es, fa + fb, k) == LineAt(es', fb, k')
  {
    ShiftedLine(es'[k'], fa, fb, Offset(es', k'), Offset(es', k' + 1));
  }

  lemma ShiftedLine(e: Entry, fa: seq<Fill>, fb: seq<Fill>, from: nat, to: nat)
    requires from <= to <= |fb|
    ensures LineOver(e, fa + fb, |fa| + from, |fa| + to) == LineOver(e, fb, from, to)
  {
    SliceShifts(fa, fb, from, to);
  }

  lemma LongerLine(e: Entry, fa: seq<Fill>, fb: seq<Fill>, from: nat, to: nat)
    requires from <= to <= |fa| && (HasTaker(e) ==> from < |fa|)
    ensures LineOver(e, fa + fb, from, to) == LineOver(e, fa, from, to)
  {
  }

  /** The lines of the first `|a| + j` entries of `a + b`. */
  lemma {:induction false} LinesSplit(a: seq<Entry>, b: seq<Entry>, fa: seq<Fill>, fb: seq<Fill>, j: nat, id: int)
    requires j <= |b| && Total(a) == |fa| && Offset(b, j) <= |fb| && ReadsOf(a, fa, id)
    ensures Offset(a + b, |a| + j) <= |fa + fb|
    ensures Lines(a + b, fa + fb, |a| + j, id) == Lines(a, fa, |a|, id) + Lines(b, fb, j, id)
  {
    OffsetShifts(a, b, j);
    if j == 0 {
      LinesOfPrefix(a, b, fa, fb, |a|, id);
    } else {
      LinesSplit(a, b, fa, fb, j - 1, id);
      LineOfSuffix(a, b, fa, fb, j - 1);
      assert (a + b)[|a| + j - 1] == b[j - 1];
    }
  }

  /** Once a prefix of a match event is complete, the rest is on its own. */
  lemma OneShotSplits(a: seq<Entry>, b: seq<Entry>, fa: seq<Fill>, fb: seq<Fill>, known: Known, id: int)
    requires Total(a) == |fa| && Total(b) <= |fb| && ReadsInRange(a, fa, known)
    ensures Total(a + b) <= |fa + fb|
    ensures OneShotTrades(a + b, fa + fb, known, id)
         == OneShotTrades(a, fa, known, id) + OneShotTrades(b, fb, known, id)
    ensures OneShotOrders(a + b, fa + fb, known, id)
         == OneShotOrders(a, fa, known, id) + OneShotOrders(b, fb, known, id)
  {
    TotalOfAppend(a, b);
    if id in known {
      ResultsSplit(a, b, fa, fb, id, known[id]);
    }
  }

  lemma ResultsSplit(a: seq<Entry>, b: seq<Entry>, fa: seq<Fill>, fb: seq<Fill>, id: int, factor: real)
    requires Total(a) == |fa| && Total(b) <= |fb| && Total(a + b) <= |fa + fb| && ReadsOf(a, fa, id)
    ensures FirstTrades(a + b, fa + fb, |a + b|, id, factor)
         == FirstTrades(a, fa, |a|, id, factor) + FirstTrades(b, fb, |b|, id, factor)
    ensures FirstOrders(a + b, fa + fb, |a + b|, id, factor)
         == FirstOrders(a, fa, |a|, id, factor) + FirstOrders(b, fb, |b|, id, factor)
  {
    LinesSplit(a, b, fa, fb, |b|, id);
    FlatMapAppend(Lines(a, fa, |a|, id), Lines(b, fb, |b|, id), TradesAt(factor));
    FlatMapAppend(Lines(a, fa, |a|, id), Lines(b, fb, |b|, id), OrdersAt(factor));
  }

  // ---------- fragment independence ----------

  function Publish(s: State, ms: seq<Message>, known: Known): seq<Out>
    requires Valid(s)
    decreases |ms|
  {
    if ms == [] then []
    else
      var (s', outs) := Dispatched(s, ms[0], known);
      outs + Publish(s', ms[1..], known)
  }

  /** No message of the run makes the program read outside its buffer. */
  ghost predicate SafeRun(s: State, ms: seq<Message>, known: Known)
    requires Valid(s)
    decreases |ms|
  {
    ms != [] ==> Safe(s, ms[0], known) && SafeRun(Dispatched(s, ms[0], known).0, ms[1..], known)
  }

  ghost predicate AllAt(ms: seq<Message>, time: nat) { forall m :: m in ms ==> m.time == time }

  function Entries(ms: seq<Message>): seq<Entry> {
    if ms == [] then [] else ms[0].entries + Entries(ms[1..])
  }

  function Fills(ms: seq<Message>): seq<Fill> {
    if ms == [] then [] else ms[0].fills + Fills(ms[1..])
  }

  /** With `due` order slots outstanding, the messages never deliver more slots than have
      been reported, and end with none outstanding. */
  predicate NeverAhead(due: int, ms: seq<Message>)
    decreases |ms|
  {
    && due >= 0
    && (if ms == [] then due == 0 else NeverAhead(due + Total(ms[0].entries) - |ms[0].fills|, ms[1..]))
  }

  /** What is already buffered for the match event at `time`. */
  function Pending(s: State, time: nat): State { if s.time == time then s else CLEARED }

  lemma TotalOfAppend(a: seq<Entry>, b: seq<Entry>)
    ensures Total(a + b) == Total(a) + Total(b)
  {
    OffsetShifts(a, b, |b|);
  }

  /** `outs` gives security `id` exactly its share of a complete match event. */
  predicate Exact(outs: seq<Out>, es: seq<Entry>, fs: seq<Fill>, known: Known, id: int) {
    && Total(es) == |fs|
    && TradesFor(outs, id) == OneShotTrades(es, fs, known, id)
    && OrdersFor(outs, id) == OneShotOrders(es, fs, known, id)
  }

  lemma ExactAppends(
    outs: seq<Out>, es: seq<Entry>, fs: seq<Fill>,
    outs': seq<Out>, es': seq<Entry>, fs': seq<Fill>, known: Known, id: int)
    requires Exact(outs, es, fs, known, id) && Exact(outs', es', fs', known, id) && ReadsInRange(es, fs, known)
    ensures Exact(outs + outs', es + es', fs + fs', known, id)
  {
    TotalOfAppend(es, es');
    ForAppend(outs, outs', id);
    OneShotSplits(es, es', fs, fs', known, id);
  }

  lemma FlushedInFront(r: State, known: Known, id: int, later: seq<Out>, es: seq<Entry>, fs: seq<Fill>)
    requires r.ids == Ids(r.entries, |r.entries|) && Total(r.entries) == |r.fills|
    requires ReadsInRange(r.entries, r.fills, known) && Exact(later, es, fs, known, id)
    ensures Exact(Flushed(r, known) + later, r.entries + es, r.fills + fs, known, id)
  {
    FlushIsOneShot(r, known, id);
    ExactAppends(Flushed(r, known), r.entries, r.fills, later, es, fs, known, id);
  }

  /** What one message leads to: it waits, or it is flushed with what is pending. */
  lemma MessageOutcome(s: State, m: Message, known: Known, e: seq<Entry>, f: seq<Fill>) returns (r: State)
    requires Valid(s) && Safe(s, m, known)
    requires e == Pending(s, m.time).entries + m.entries && f == Pending(s, m.time).fills + m.fills
    ensures r.entries == e && r.fills == f && r.ids == Ids(e, |e|)
    ensures var (s', outs), p' := Dispatched(s, m, known), Pending(Dispatched(s, m, known).0, m.time);
      if |f| < Total(e) then outs == [] && p'.entries == e && p'.fills == f
      else outs == Flushed(r, known) && p'.entries == [] && p'.fills == [] && ReadsInRange(e, f, known)
  {
    r := Received(s, m);
  }

  /** Outputs of a message in front of those of others: nothing, and what is pending goes over
      to them, or the flush of all that is buffered. */
  lemma OneFragment(
    r: State, outs: seq<Out>, pe: seq<Entry>, pf: seq<Fill>, known: Known, id: int,
    later: seq<Out>, es: seq<Entry>, fs: seq<Fill>)
    requires r.ids == Ids(r.entries, |r.entries|) && Total(r.entries) >= |r.fills|
    requires if |r.fills| < Total(r.entries) then outs == [] && pe == r.entries && pf == r.fills
             else outs == Flushed(r, known) && pe == [] && pf == [] && ReadsInRange(r.entries, r.fills, known)
    requires Exact(later, pe + es, pf + fs, known, id)
    ensures Exact(outs + later, r.entries + es, r.fills + fs, known, id)
  {
    if |r.fills| < Total(r.entries) {
      assert outs + later == later;
    } else {
      assert pe + es == es && pf + fs == fs;
      FlushedInFront(r, known, id, later, es, fs);
    }
  }

  /** However a match event is cut into messages with one transact time, and wherever an
      early prefix happens to be complete and is flushed on the way, every security gets
      exactly the trades and order updates of the whole event. */
  lemma {:induction false} FragmentsDoNotShow(s: State, ms: seq<Message>, time: nat, known: Known, id: int)
    requires Valid(s) && AllAt(ms, time) && SafeRun(s, ms, known)
    requires var p := Pending(s, time); NeverAhead(Total(p.entries) - |p.fills|, ms)
    ensures var p := Pending(s, time);
      Exact(Publish(s, ms, known), p.entries + Entries(ms), p.fills + Fills(ms), known, id)
    decreases |ms|
  {
    var p := Pending(s, time);
    if ms == [] {
      assert p.entries + [] == p.entries && p.fills + [] == p.fills;
    } else {
      var m, rest := ms[0], ms[1..];
      var s' := Dispatched(s, m, known).0;
      TotalOfAppend(p.entries, m.entries);
      assert forall x :: x in rest ==> x in ms;
      FragmentsDoNotShow(s', rest, time, known, id);
      Rebracket(p.entries, m.entries, Entries(rest));
      Rebracket(p.fills, m.fills, Fills(rest));
      var r := MessageOutcome(s, m, known, p.entries + m.entries, p.fills + m.fills);
      OneFragment(r, Dispatched(s, m, known).1, Pending(s', time).entries, Pending(s', time).fills, known, id,
                  Publish(s', rest, known), Entries(rest), Fills(rest));
    }
  }

  // ---------- when nothing is left behind ----------

  function After(s: State, ms: seq<Message>, known: Known): (s': State)
    requires Valid(s)
    ensures Valid(s')
    decreases |ms|
  {
    if ms == [] then s else After(Dispatched(s, ms[0], known).0, ms[1..], known)
  }

  /** The slots still outstanding for the match event at `time`. */
  function Due(s: State, time: nat): int {
    Total(Pending(s, time).entries) - |Pending(s, time).fills|
  }

  predicate NothingPending(s: State, time: nat) {
    Pending(s, time).entries == [] && Pending(s, time).fills == []
  }

  /** Outstanding slots, counted over the messages. */
  function Balance(ms: seq<Message>): int {
    if ms == [] then 0 else Total(ms[0].entries) - |ms[0].fills| + Balance(ms[1..])
  }

  /** One message: the outstanding slots add up, but a surplus is forgotten. */
  lemma DueAfter(s: State, m: Message, known: Known)
    requires Valid(s)
    ensures Due(s, m.time) >= 0
    ensures var due := Due(s, m.time) + Total(m.entries) - |m.fills|;
      Due(Dispatched(s, m, known).0, m.time) == if due > 0 then due else 0
  {
    var p := Pending(s, m.time);
    TotalOfAppend(p.entries, m.entries);
    assert Total([]) == 0;
  }

  /** The outstanding slots after the messages: a surplus is forgotten each time. */
  function DueRun(due: int, ms: seq<Message>): int
    decreases |ms|
  {
    if ms == [] then due
    else
      var d := due + Total(ms[0].entries) - |ms[0].fills|;
      DueRun(if d > 0 then d else 0, ms[1..])
  }

  lemma {:induction false} DueFollows(s: State, ms: seq<Message>, time: nat, known: Known)
    requires Valid(s) && AllAt(ms, time)
    ensures Due(After(s, ms, known), time) == DueRun(Due(s, time), ms)
    decreases |ms|
  {
    if ms != [] {
      DueAfter(s, ms[0], known);
      DueFollows(Dispatched(s, ms[0], known).0, ms[1..], time, known);
    }
  }

  /** Forgetting a surplus only adds to what stays outstanding. */
  lemma {:induction false} StaysDue(due: int, ms: seq<Message>)
    ensures DueRun(due, ms) >= due + Balance(ms)
    decreases |ms|
  {
    if ms != [] {
      var d := due + Total(ms[0].entries) - |ms[0].fills|;
      StaysDue(if d > 0 then d else 0, ms[1..]);
    }
  }

  /** For messages of one match event whose slots and counts balance in the end, nothing
      stays behind if and only if the slots never run ahead of the counts. */
  lemma NothingLeftIff(s: State, ms: seq<Message>, time: nat, known: Known)
    requires Valid(s) && AllAt(ms, time) && Due(s, time) + Balance(ms) == 0
    ensures NothingPending(After(s, ms, known), time) <==> NeverAhead(Due(s, time), ms)
  {
    DueIsNatural(s, time);
    DueIsNatural(After(s, ms, known), time);
    DueFollows(s, ms, time, known);
    NothingDueIff(Due(s, time), ms);
  }

  lemma {:induction false} NothingDueIff(due: int, ms: seq<Message>)
    requires due >= 0 && due + Balance(ms) == 0
    ensures DueRun(due, ms) == 0 <==> NeverAhead(due, ms)
    decreases |ms|
  {
    if ms != [] {
      var d := due + Total(ms[0].entries) - |ms[0].fills|;
      if d >= 0 {
        NothingDueIff(d, ms[1..]);
      } else {
        StaysDue(0, ms[1..]);
      }
    }
  }

  lemma DueIsNatural(s: State, time: nat)
    requires Valid(s)
    ensures Due(s, time) >= 0
    ensures Due(s, time) == 0 <==> NothingPending(s, time)
  {
    assert Total([]) == 0;
  }

  /** If slots run ahead of the reported counts the law fails: the surplus slot of the
      first message is dropped with its flush, and the second message waits for it. */
  lemma SlotsAheadAreLost() returns (a: Message, b: Message, known: Known)
    ensures a.time == b.time == 1 && SafeRun(CLEARED, [a, b], known)
    ensures Total(a.entries + b.entries) == |a.fills + b.fills|
    ensures |a.fills| > Total(a.entries)
    ensures var (s, outs) := Dispatched(CLEARED, a, known);
      var (s', outs') := Dispatched(s, b, known);
      |OneShotTrades(a.entries + b.entries, a.fills + b.fills, known, 7)| == 2
      && |TradesFor(outs + outs', 7)| == 1
  {
    var e := Entry(7, Undefined, 1.0, 5, 1, 1);
    var fs := [Fill(1, 5), Fill(2, 5)];
    a, b, known := Message(1, [e], fs), Message(1, [e], []), map[7 := 1.0];
    TwoAreSafe(a, b, known);
    assert a.entries + b.entries == [e, e] && fs + b.fills == fs;
    TwoEntries(e, fs);
    SurplusIsDropped(e, fs, a, b, known);
  }

  lemma SurplusIsDropped(e: Entry, fs: seq<Fill>, a: Message, b: Message, known: Known)
    requires e.id == 7 && e.count == 1 && !HasTaker(e) && |fs| == 2 && known == map[7 := 1.0]
    requires a == Message(1, [e], fs) && b == Message(1, [e], [])
    ensures var (s, outs) := Dispatched(CLEARED, a, known);
      s == CLEARED && |TradesFor(outs + Dispatched(s, b, known).1, 7)| == 1
  {
    var r := Received(CLEARED, a);
    FirstFlushes(e, fs, a, known);
    SecondWaits(e, b, known);
    TwoEntries(e, fs);
    FlushIsOneShot(r, known, 7);
    NothingMore(Flushed(r, known));
  }

  lemma FirstFlushes(e: Entry, fs: seq<Fill>, a: Message, known: Known)
    requires e.count == 1 && |fs| == 2 && a == Message(1, [e], fs)
    ensures var r := Received(CLEARED, a);
      && r.entries == [e] && r.fills == fs && r.ids == Ids([e], 1) && Total(r.entries) == 1
      && Dispatched(CLEARED, a, known) == (CLEARED, Flushed(r, known))
  {
    assert [] + [e] == [e] && [] + fs == fs;
    assert Offset([e], 0) == 0 && Offset([e], 1) == 1;
  }

  lemma SecondWaits(e: Entry, b: Message, known: Known)
    requires e.count == 1 && b == Message(1, [e], [])
    ensures Dispatched(CLEARED, b, known).1 == []
  {
    assert [] + [e] == [e] && [] + b.fills == [];
    assert Offset([e], 0) == 0 && Offset([e], 1) == 1;
  }

  lemma TwoAreSafe(a: Message, b: Message, known: Known)
    requires forall e :: e in a.entries || e in b.entries ==> !HasTaker(e)
    ensures SafeRun(CLEARED, [a, b], known)
  {
    NoTakersAreSafe(CLEARED, a, known);
    var s := Dispatched(CLEARED, a, known).0;
    NoTakersAreSafe(s, b, known);
    assert [a, b][1..] == [b] && [b][1..] == [];
  }

  lemma NoTakersAreSafe(s: State, m: Message, known: Known)
    requires Valid(s) && (forall e :: e in s.entries || e in m.entries ==> !HasTaker(e))
    ensures Safe(s, m, known)
    ensures forall e :: e in Dispatched(s, m, known).0.entries ==> !HasTaker(e)
  {
  }

  lemma TwoEntries(e: Entry, fs: seq<Fill>)
    requires e.count == 1 && !HasTaker(e) && |fs| == 2
    ensures Total([e]) == 1 && Total([e, e]) == 2
    ensures |FirstTrades([e], fs, 1, e.id, 1.0)| == 1 && |FirstTrades([e, e], fs, 2, e.id, 1.0)| == 2
  {
    assert Offset([e], 0) == 0 && Offset([e], 1) == 1;
    var es := [e, e];
    assert Offset(es, 0) == 0 && Offset(es, 1) == 1 && Offset(es, 2) == 2;
    var l, l' := Line(e, [fs[0]], None), Line(e, [fs[1]], None);
    assert fs[0..1] == [fs[0]] && fs[1..2] == [fs[1]];
    assert LineAt([e], fs, 0) == l && LineAt(es, fs, 0) == l && LineAt(es, fs, 1) == l';
    assert Lines([e], fs, 0, e.id) == [] && Lines([e], fs, 1, e.id) == [l];
    assert Lines(es, fs, 0, e.id) == [] && Lines(es, fs, 1, e.id) == [l] && Lines(es, fs, 2, e.id) == [l] + [l'];
    OneSlot(l, fs[0]);
    OneSlot(l', fs[1]);
    FlatMapOne(l, TradesAt(1.0));
    FlatMapMore([l], l', TradesAt(1.0));
  }

  lemma OneSlot(l: Line, f: Fill)
    requires !HasTaker(l.entry) && l.head.None? && l.slots == [f]
    ensures |TradesOf(l, 1.0)| == 1
  {
    assert [f][..0] == [];
    assert MakerTrades(l.entry, None, 1.0, [f])
        == MakerTrades(l.entry, None, 1.0, []) + [MakerTrade(l.entry, None, 1.0, f)];
  }
}
