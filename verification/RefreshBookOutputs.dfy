/** What else a book refresh publishes: the report numbers that are checked, the top of book
    and the snapshot marks, under which securities and in which order. */
module RefreshBookOutputs {
  import opened Grouping
  import opened Market
  import opened Optional
  import opened RefreshBook
  import opened RefreshBookLaws
  import opened Sequences

  // ---------- reading the output per security ----------

  function ReportsIn(id: int): Out -> seq<nat> {
    (out: Out) => if out.Check? && out.id == id then [out.rptSeq] else []
  }

  function TopsIn(id: int): Out -> seq<Layer> {
    (out: Out) => if out.TopOfBook? && out.id == id then [out.layer] else []
  }

  function LevelMarksIn(id: int): Out -> seq<bool> {
    (out: Out) => if out.Levels? && out.id == id then [out.snapshot] else []
  }

  function OrderMarksIn(id: int): Out -> seq<bool> {
    (out: Out) => if out.Orders? && out.id == id then [out.snapshot] else []
  }

  function OutsIn(id: int): Out -> seq<Out> {
    (out: Out) => if out.id == id then [out] else []
  }

  // ---------- what should be published ----------

  function ReportOf(): Level -> seq<nat> { (l: Level) => [l.rptSeq] }

  /** The last price of a kind among the levels `a` to `k`. */
  function LastBest(es: Book, a: nat, k: nat, factor: real, kind: LevelKind): Price
    requires a <= k <= |es|
  {
    if a == k then None
    else if es[k - 1].item.kind == kind then DuePrice(es[k - 1].item.price, factor)
    else LastBest(es, a, k - 1, factor, kind)
  }

  /** The last best bid and the last best offer of a run, if there is either. */
  function DueTop(es: Book, factor: real): (nat, nat) -> seq<Layer> {
    (a: nat, b: nat) =>
      if !(a <= b <= |es|) then []
      else
        var bid, ask := LastBest(es, a, b, factor, MarketBestBid), LastBest(es, a, b, factor, MarketBestOffer);
        if bid.None? && ask.None? then [] else [Layer(bid, ask)]
  }

  predicate HasKind(es: Book, a: nat, k: nat, kind: LevelKind)
    requires a <= k <= |es|
  {
    exists i :: a <= i < k && es[i].item.kind == kind
  }

  /** Report number one marks a snapshot. */
  predicate StartsOver(es: Book, a: nat, k: nat)
    requires a <= k <= |es|
  {
    exists i :: a <= i < k && es[i].item.rptSeq == 1
  }

  predicate HasClear(es: Book, a: nat, k: nat, o: Options)
    requires a <= k <= |es|
  {
    exists i :: a <= i < k && DueToClear(es[i].item, o)
  }

  /** The levels of a run, if there are any, are a snapshot if one of its levels starts over. */
  function DueLevelMark(es: Book): (nat, nat) -> seq<bool> {
    (a: nat, b: nat) =>
      if a <= b <= |es| && (HasKind(es, a, b, Bid) || HasKind(es, a, b, Offer)) then [StartsOver(es, a, b)] else []
  }

  /** Cleared orders are never a snapshot. */
  function DueClearMark(es: Book, o: Options): (nat, nat) -> seq<bool> {
    (a: nat, b: nat) => if a <= b <= |es| && HasClear(es, a, b, o) then [false] else []
  }

  /** The order entries are a snapshot if any level of the message starts over. */
  function DueOrderMark(es: Book): (nat, nat) -> seq<bool> {
    (a: nat, b: nat) => [StartsOver(es, 0, |es|)]
  }

  // ---------- the pieces of a run ----------

  lemma {:induction false} ChecksGiveReports(es: Book, a: nat, k: nat, at: int, id: int)
    requires a <= k <= |es| && forall i :: a <= i < k ==> es[i].id == at
    ensures FlatMap(Checks(es, a, k), ReportsIn(id)) == if at == id then Part(es, a, k, ReportOf()) else []
  {
    if a < k {
      ChecksGiveReports(es, a, k - 1, at, id);
      FlatMapMore(Checks(es, a, k - 1), Check(es[k - 1].id, es[k - 1].item.rptSeq), ReportsIn(id));
    }
  }

  lemma {:induction false} LayerIsLastBest(es: Book, a: nat, k: nat, factor: real)
    requires a <= k <= |es|
    ensures LayerOf(es, a, k, factor)
         == Layer(LastBest(es, a, k, factor, MarketBestBid), LastBest(es, a, k, factor, MarketBestOffer))
  {
    if a < k {
      LayerIsLastBest(es, a, k - 1, factor);
    }
  }

  lemma {:induction false} UpdatesEmptyIff(es: Book, a: nat, k: nat, factor: real, kind: LevelKind)
    requires a <= k <= |es|
    ensures Updates(es, a, k, factor, kind) == [] <==> !HasKind(es, a, k, kind)
  {
    if a < k {
      UpdatesEmptyIff(es, a, k - 1, factor, kind);
    }
  }

  lemma {:induction false} ClearedEmptyIff(es: Book, a: nat, k: nat, factor: real, o: Options)
    requires a <= k <= |es|
    ensures ClearedLevels(es, a, k, factor, o) == [] <==> !HasClear(es, a, k, o)
  {
    if a < k {
      ClearedEmptyIff(es, a, k - 1, factor, o);
    }
  }

  lemma PiecesGive(
    at: int, layer: Layer, bids: seq<LevelUpdate>, asks: seq<LevelUpdate>, snapshot: bool, cleared: seq<OrderUpdate>,
    id: int)
    ensures FlatMap(LayerOut(at, layer), TopsIn(id)) == if layer == NO_LAYER || at != id then [] else [layer]
    ensures FlatMap(LevelsOut(at, bids, asks, snapshot), LevelMarksIn(id))
         == if (bids == [] && asks == []) || at != id then [] else [snapshot]
    ensures FlatMap(ClearedOut(at, cleared), OrderMarksIn(id)) == if cleared == [] || at != id then [] else [false]
  {
    FlatMapOne(TopOfBook(at, layer), TopsIn(id));
    FlatMapOne(Levels(at, bids, asks, snapshot), LevelMarksIn(id));
    FlatMapOne(Orders(at, cleared, false), OrderMarksIn(id));
  }

  lemma NoneThrough<T>(outs: seq<Out>, g: Out -> seq<T>)
    requires forall i :: 0 <= i < |outs| ==> g(outs[i]) == []
    ensures FlatMap(outs, g) == []
  {
    FlatNone(outs, |outs|, g);
  }

  /** Four pieces seen through `g`: what each of them gives, if the others give nothing. */
  lemma PiecesThrough<T>(checks: seq<Out>, top: seq<Out>, levels: seq<Out>, cleared: seq<Out>, g: Out -> seq<T>)
    ensures var c, t, l, r := FlatMap(checks, g), FlatMap(top, g), FlatMap(levels, g), FlatMap(cleared, g);
      var all := FlatMap(checks + (top + levels + cleared), g);
      && (t == [] && l == [] && r == [] ==> all == c)
      && (c == [] && l == [] && r == [] ==> all == t)
      && (c == [] && t == [] && r == [] ==> all == l)
      && (c == [] && t == [] && l == [] ==> all == r)
  {
    FlatMapAppend(top, levels, g);
    FlatMapAppend(top + levels, cleared, g);
    FlatMapAppend(checks, top + levels + cleared, g);
  }

  /** What the end of a run gives behind its checks. */
  lemma ClosingGives(
    checks: seq<Out>, at: int, layer: Layer, bids: seq<LevelUpdate>, asks: seq<LevelUpdate>, snapshot: bool,
    cleared: seq<OrderUpdate>, id: int)
    requires forall i :: 0 <= i < |checks| ==> checks[i].Check?
    ensures var outs := checks + Closing(at, layer, bids, asks, snapshot, cleared);
      && FlatMap(outs, ReportsIn(id)) == FlatMap(checks, ReportsIn(id))
      && FlatMap(outs, TopsIn(id)) == (if layer == NO_LAYER || at != id then [] else [layer])
      && FlatMap(outs, LevelMarksIn(id)) == (if (bids == [] && asks == []) || at != id then [] else [snapshot])
      && FlatMap(outs, OrderMarksIn(id)) == if cleared == [] || at != id then [] else [false]
  {
    var top, levels, last := LayerOut(at, layer), LevelsOut(at, bids, asks, snapshot), ClearedOut(at, cleared);
    PiecesGive(at, layer, bids, asks, snapshot, cleared, id);
    OthersGiveNone(checks, top, levels, last, id);
    PiecesThrough(checks, top, levels, last, ReportsIn(id));
    PiecesThrough(checks, top, levels, last, TopsIn(id));
    PiecesThrough(checks, top, levels, last, LevelMarksIn(id));
    PiecesThrough(checks, top, levels, last, OrderMarksIn(id));
  }

  lemma OthersGiveNone(checks: seq<Out>, top: seq<Out>, levels: seq<Out>, last: seq<Out>, id: int)
    requires forall i :: 0 <= i < |checks| ==> checks[i].Check?
    requires forall i :: 0 <= i < |top| ==> top[i].TopOfBook?
    requires forall i :: 0 <= i < |levels| ==> levels[i].Levels?
    requires forall i :: 0 <= i < |last| ==> last[i].Orders?
    ensures FlatMap(checks, TopsIn(id)) == [] && FlatMap(checks, LevelMarksIn(id)) == []
    ensures FlatMap(checks, OrderMarksIn(id)) == []
    ensures FlatMap(top, ReportsIn(id)) == [] && FlatMap(top, LevelMarksIn(id)) == []
    ensures FlatMap(top, OrderMarksIn(id)) == []
    ensures FlatMap(levels, ReportsIn(id)) == [] && FlatMap(levels, TopsIn(id)) == []
    ensures FlatMap(levels, OrderMarksIn(id)) == []
    ensures FlatMap(last, ReportsIn(id)) == [] && FlatMap(last, TopsIn(id)) == []
    ensures FlatMap(last, LevelMarksIn(id)) == []
  {
    NotReports(top, id);
    NotReports(levels, id);
    NotReports(last, id);
    NotTops(checks, id);
    NotTops(levels, id);
    NotTops(last, id);
    NotLevels(checks, id);
    NotLevels(top, id);
    NotLevels(last, id);
    NotOrders(checks, id);
    NotOrders(top, id);
    NotOrders(levels, id);
  }

  lemma NotReports(outs: seq<Out>, id: int)
    requires forall i :: 0 <= i < |outs| ==> !outs[i].Check?
    ensures FlatMap(outs, ReportsIn(id)) == []
  {
    NoneThrough(outs, ReportsIn(id));
  }

  lemma NotTops(outs: seq<Out>, id: int)
    requires forall i :: 0 <= i < |outs| ==> !outs[i].TopOfBook?
    ensures FlatMap(outs, TopsIn(id)) == []
  {
    NoneThrough(outs, TopsIn(id));
  }

  lemma NotLevels(outs: seq<Out>, id: int)
    requires forall i :: 0 <= i < |outs| ==> !outs[i].Levels?
    ensures FlatMap(outs, LevelMarksIn(id)) == []
  {
    NoneThrough(outs, LevelMarksIn(id));
  }

  lemma NotOrders(outs: seq<Out>, id: int)
    requires forall i :: 0 <= i < |outs| ==> !outs[i].Orders?
    ensures FlatMap(outs, OrderMarksIn(id)) == []
  {
    NoneThrough(outs, OrderMarksIn(id));
  }

  // ---------- one run ----------

  lemma {:induction false} ChecksAreChecks(es: Book, a: nat, k: nat)
    requires a <= k <= |es|
    ensures forall i :: 0 <= i < |Checks(es, a, k)| ==> Checks(es, a, k)[i].Check?
  {
    if a < k {
      ChecksAreChecks(es, a, k - 1);
    }
  }

  /** A run ends with what was collected for it. */
  lemma RunEnds(
    es: Book, a: nat, b: nat, factor: real, o: Options, checks: seq<Out>, layer: Layer, bids: seq<LevelUpdate>,
    asks: seq<LevelUpdate>, snapshot: bool, cleared: seq<OrderUpdate>)
    requires a < b <= |es| && checks == Checks(es, a, b) && layer == LayerOf(es, a, b, factor)
    requires bids == Updates(es, a, b, factor, Bid) && asks == Updates(es, a, b, factor, Offer)
    requires snapshot == AnySnapshot(es, a, b) && cleared == ClearedLevels(es, a, b, factor, o)
    ensures RunOut(es, a, b, factor, o) == checks + Closing(es[a].id, layer, bids, asks, snapshot, cleared)
    ensures forall i :: 0 <= i < |checks| ==> checks[i].Check?
  {
    ChecksAreChecks(es, a, b);
  }

  lemma RunGivesReports(es: Book, a: nat, b: nat, factor: real, o: Options, id: int)
    requires a < b <= |es| && Uniform(es, a, b)
    ensures FlatMap(RunOut(es, a, b, factor, o), ReportsIn(id))
         == if es[a].id == id then Part(es, a, b, ReportOf()) else []
  {
    var checks, layer := Checks(es, a, b), LayerOf(es, a, b, factor);
    var bids, asks := Updates(es, a, b, factor, Bid), Updates(es, a, b, factor, Offer);
    var snapshot, cleared := AnySnapshot(es, a, b), ClearedLevels(es, a, b, factor, o);
    RunEnds(es, a, b, factor, o, checks, layer, bids, asks, snapshot, cleared);
    ClosingGives(checks, es[a].id, layer, bids, asks, snapshot, cleared, id);
    ChecksGiveReports(es, a, b, es[a].id, id);
  }

  lemma RunGivesTops(es: Book, a: nat, b: nat, factor: real, o: Options, id: int)
    requires a < b <= |es|
    ensures FlatMap(RunOut(es, a, b, factor, o), TopsIn(id))
         == if es[a].id == id then DueTop(es, factor)(a, b) else []
  {
    var checks, layer := Checks(es, a, b), LayerOf(es, a, b, factor);
    var bids, asks := Updates(es, a, b, factor, Bid), Updates(es, a, b, factor, Offer);
    var snapshot, cleared := AnySnapshot(es, a, b), ClearedLevels(es, a, b, factor, o);
    RunEnds(es, a, b, factor, o, checks, layer, bids, asks, snapshot, cleared);
    ClosingGives(checks, es[a].id, layer, bids, asks, snapshot, cleared, id);
    TopIsLayer(es, a, b, factor, layer);
  }

  lemma TopIsLayer(es: Book, a: nat, b: nat, factor: real, layer: Layer)
    requires a < b <= |es| && layer == LayerOf(es, a, b, factor)
    ensures DueTop(es, factor)(a, b) == if layer == NO_LAYER then [] else [layer]
  {
    LayerIsLastBest(es, a, b, factor);
  }

  lemma RunGivesLevelMarks(es: Book, a: nat, b: nat, factor: real, o: Options, id: int)
    requires a < b <= |es|
    ensures FlatMap(RunOut(es, a, b, factor, o), LevelMarksIn(id))
         == if es[a].id == id then DueLevelMark(es)(a, b) else []
  {
    var checks, layer := Checks(es, a, b), LayerOf(es, a, b, factor);
    var bids, asks := Updates(es, a, b, factor, Bid), Updates(es, a, b, factor, Offer);
    var snapshot, cleared := AnySnapshot(es, a, b), ClearedLevels(es, a, b, factor, o);
    RunEnds(es, a, b, factor, o, checks, layer, bids, asks, snapshot, cleared);
    ClosingGives(checks, es[a].id, layer, bids, asks, snapshot, cleared, id);
    MarkIsSnapshot(es, a, b, factor, bids, asks, snapshot);
  }

  lemma MarkIsSnapshot(
    es: Book, a: nat, b: nat, factor: real, bids: seq<LevelUpdate>, asks: seq<LevelUpdate>, snapshot: bool)
    requires a < b <= |es| && snapshot == AnySnapshot(es, a, b)
    requires bids == Updates(es, a, b, factor, Bid) && asks == Updates(es, a, b, factor, Offer)
    ensures DueLevelMark(es)(a, b) == if bids == [] && asks == [] then [] else [snapshot]
  {
    UpdatesEmptyIff(es, a, b, factor, Bid);
    UpdatesEmptyIff(es, a, b, factor, Offer);
  }

  lemma RunGivesOrderMarks(es: Book, a: nat, b: nat, factor: real, o: Options, id: int)
    requires a < b <= |es|
    ensures FlatMap(RunOut(es, a, b, factor, o), OrderMarksIn(id))
         == if es[a].id == id then DueClearMark(es, o)(a, b) else []
  {
    var checks, layer := Checks(es, a, b), LayerOf(es, a, b, factor);
    var bids, asks := Updates(es, a, b, factor, Bid), Updates(es, a, b, factor, Offer);
    var snapshot, cleared := AnySnapshot(es, a, b), ClearedLevels(es, a, b, factor, o);
    RunEnds(es, a, b, factor, o, checks, layer, bids, asks, snapshot, cleared);
    ClosingGives(checks, es[a].id, layer, bids, asks, snapshot, cleared, id);
    ClearIsMarked(es, a, b, factor, o, cleared);
  }

  lemma ClearIsMarked(es: Book, a: nat, b: nat, factor: real, o: Options, cleared: seq<OrderUpdate>)
    requires a < b <= |es| && cleared == ClearedLevels(es, a, b, factor, o)
    ensures DueClearMark(es, o)(a, b) == if cleared == [] then [] else [false]
  {
    ClearedEmptyIff(es, a, b, factor, o);
  }

  /** The same of the block of a run. */
  lemma BlockGivesAll(es: Book, a: nat, b: nat, known: Known, o: Options, id: int)
    requires id in known
    ensures var block := RunBlock(es, known, o);
      && BlockGives(es, a, b, id, block, ReportsIn(id), PartOf(es, ReportOf()))
      && BlockGives(es, a, b, id, block, TopsIn(id), DueTop(es, known[id]))
      && BlockGives(es, a, b, id, block, LevelMarksIn(id), DueLevelMark(es))
      && BlockGives(es, a, b, id, block, OrderMarksIn(id), DueClearMark(es, o))
  {
    if a < b <= |es| && Uniform(es, a, b) && RunKnown(es, a, known) {
      RunGivesReports(es, a, b, known[es[a].id], o, id);
      RunGivesTops(es, a, b, known[es[a].id], o, id);
      RunGivesLevelMarks(es, a, b, known[es[a].id], o, id);
      RunGivesOrderMarks(es, a, b, known[es[a].id], o, id);
    }
  }

  function Rank(out: Out): nat {
    match out
    case Check(_, _) => 0
    case TopOfBook(_, _) => 1
    case Levels(_, _, _, _) => 2
    case Orders(_, _, _) => 3
  }

  /** What a run leads to comes in order: the checks, then the top of book, then the levels,
      then the cleared orders, and of the last three at most one each. */
  lemma RunIsInOrder(es: Book, a: nat, b: nat, factor: real, o: Options, i: nat, j: nat)
    requires a < b <= |es| && i < j < |RunOut(es, a, b, factor, o)|
    ensures var outs := RunOut(es, a, b, factor, o);
      Rank(outs[i]) < Rank(outs[j]) || Rank(outs[i]) == Rank(outs[j]) == 0
  {
    ChecksAreChecks(es, a, b);
    ClosingIsInOrder(Checks(es, a, b), es[a].id, LayerOf(es, a, b, factor), Updates(es, a, b, factor, Bid),
                     Updates(es, a, b, factor, Offer), AnySnapshot(es, a, b), ClearedLevels(es, a, b, factor, o), i, j);
  }

  lemma ClosingIsInOrder(
    checks: seq<Out>, at: int, layer: Layer, bids: seq<LevelUpdate>, asks: seq<LevelUpdate>, snapshot: bool,
    cleared: seq<OrderUpdate>, i: nat, j: nat)
    requires forall k :: 0 <= k < |checks| ==> checks[k].Check?
    requires i < j < |checks + Closing(at, layer, bids, asks, snapshot, cleared)|
    ensures var outs := checks + Closing(at, layer, bids, asks, snapshot, cleared);
      Rank(outs[i]) < Rank(outs[j]) || Rank(outs[i]) == Rank(outs[j]) == 0
  {
  }

  // ---------- a message ----------

  /** The outputs of the second pass. */
  function SecondPass(es: Book, rs: seq<OrderRef>, known: Known, o: Options): seq<Out> {
    var xs := Resolve(es, rs, |rs|);
    if o.marketByOrder then OrderOuts(xs, |xs|, known, AnySnapshot(es, 0, |es|)) else []
  }

  lemma PublishedThrough<T>(
    es: Book, rs: seq<OrderRef>, known: Known, o: Options, id: int, g: Out -> seq<T>, h: (nat, nat) -> seq<T>)
    requires forall a, b :: BlockGives(es, a, b, id, RunBlock(es, known, o), g, h)
    ensures FlatMap(Published(es, rs, known, o), g)
         == PerRun(es, |es|, id, h) + FlatMap(SecondPass(es, rs, known, o), g)
  {
    BlocksArePerRun(es, |es|, id, RunBlock(es, known, o), g, h);
    OutsAreBlocks(es, |es|, known, o);
    FlatMapAppend(Outs(es, |es|, known, o), SecondPass(es, rs, known, o), g);
  }

  /** Only orders are published in the second pass. */
  lemma SecondPassHasNone<T>(es: Book, rs: seq<OrderRef>, known: Known, o: Options, g: Out -> seq<T>)
    requires forall out: Out :: out.Orders? ==> g(out) == []
    ensures FlatMap(SecondPass(es, rs, known, o), g) == []
  {
    var xs, snapshot := Resolve(es, rs, |rs|), AnySnapshot(es, 0, |es|);
    var block := OrderBlock(xs, known, snapshot);
    forall a: nat, b: nat
      ensures FlatMap(block(a, b), g) == []
    {
      NoneThrough(block(a, b), g);
    }
    BlocksHaveNone(xs, |xs|, block, g);
    OrderOutsAreBlocks(xs, |xs|, known, snapshot);
  }

  /** Every report number of a known security is checked once, in order, under that security,
      if and only if the security does not have id zero or no level of id zero leads. */
  lemma EveryReportOnceIff(es: Book, rs: seq<OrderRef>, known: Known, o: Options, id: int)
    requires id in known
    ensures FlatMap(Published(es, rs, known, o), ReportsIn(id)) == Own(es, |es|, id, ReportOf())
      <==> (id == 0 ==> es == [] || es[0].id != 0)
  {
    ReportsAreLive(es, rs, known, o, id);
    LiveIsOwnIff(es, id, ReportOf());
    ReportsLostIff(es);
  }

  lemma ReportsAreLive(es: Book, rs: seq<OrderRef>, known: Known, o: Options, id: int)
    requires id in known
    ensures FlatMap(Published(es, rs, known, o), ReportsIn(id)) == Live(es, |es|, id, ReportOf())
  {
    var h := PartOf(es, ReportOf());
    forall a: nat, b: nat
      ensures BlockGives(es, a, b, id, RunBlock(es, known, o), ReportsIn(id), h)
    {
      BlockGivesAll(es, a, b, known, o, id);
    }
    PublishedThrough(es, rs, known, o, id, ReportsIn(id), h);
    SecondPassHasNone(es, rs, known, o, ReportsIn(id));
    NothingMore(PerRun(es, |es|, id, h));
    PartsAreKept(es, |es|, id, ReportOf());
    KeptIsLive(es, id, ReportOf());
  }

  lemma ReportsLostIff(es: Book)
    ensures AllEmpty(es, Lead(es), ReportOf()) <==> es == [] || es[0].id != 0
  {
    LeadFromIs(es, 0);
    assert Lead(es) > 0 ==> ReportOf()(es[0].item) != [];
  }

  /** The tops of book of a known security: for each of its runs that is looked up, the last
      best bid and offer, if there is either. */
  lemma TopsAreLastBest(es: Book, rs: seq<OrderRef>, known: Known, o: Options, id: int)
    requires id in known
    ensures FlatMap(Published(es, rs, known, o), TopsIn(id)) == PerRun(es, |es|, id, DueTop(es, known[id]))
  {
    var h := DueTop(es, known[id]);
    forall a: nat, b: nat
      ensures BlockGives(es, a, b, id, RunBlock(es, known, o), TopsIn(id), h)
    {
      BlockGivesAll(es, a, b, known, o, id);
    }
    PublishedThrough(es, rs, known, o, id, TopsIn(id), h);
    SecondPassHasNone(es, rs, known, o, TopsIn(id));
    NothingMore(PerRun(es, |es|, id, h));
  }

  /** The levels of a known security come run by run; they are marked as a snapshot exactly if
      a level of their own run has report number one. */
  lemma LevelMarksAreDue(es: Book, rs: seq<OrderRef>, known: Known, o: Options, id: int)
    requires id in known
    ensures FlatMap(Published(es, rs, known, o), LevelMarksIn(id)) == PerRun(es, |es|, id, DueLevelMark(es))
  {
    var h := DueLevelMark(es);
    forall a: nat, b: nat
      ensures BlockGives(es, a, b, id, RunBlock(es, known, o), LevelMarksIn(id), h)
    {
      BlockGivesAll(es, a, b, known, o, id);
    }
    PublishedThrough(es, rs, known, o, id, LevelMarksIn(id), h);
    SecondPassHasNone(es, rs, known, o, LevelMarksIn(id));
    NothingMore(PerRun(es, |es|, id, h));
  }

  /** The orders of a known security: cleared ones run by run, never marked as a snapshot, and
      then the order entries run by run, marked exactly if any level of the message, of
      whatever security, has report number one. */
  lemma OrderMarksAreDue(es: Book, rs: seq<OrderRef>, known: Known, o: Options, id: int)
    requires id in known
    ensures var xs := Resolve(es, rs, |rs|);
      FlatMap(Published(es, rs, known, o), OrderMarksIn(id))
      == PerRun(es, |es|, id, DueClearMark(es, o))
       + if o.marketByOrder then PerRun(xs, |xs|, id, DueOrderMark(es)) else []
  {
    var h := DueClearMark(es, o);
    forall a: nat, b: nat
      ensures BlockGives(es, a, b, id, RunBlock(es, known, o), OrderMarksIn(id), h)
    {
      BlockGivesAll(es, a, b, known, o, id);
    }
    PublishedThrough(es, rs, known, o, id, OrderMarksIn(id), h);
    EntriesAreMarked(es, Resolve(es, rs, |rs|), known, id);
  }

  lemma EntriesAreMarked(es: Book, xs: seq<Keyed<Resolved>>, known: Known, id: int)
    requires id in known
    ensures FlatMap(OrderOuts(xs, |xs|, known, AnySnapshot(es, 0, |es|)), OrderMarksIn(id))
         == PerRun(xs, |xs|, id, DueOrderMark(es))
  {
    var snapshot := AnySnapshot(es, 0, |es|);
    forall a: nat, b: nat
      ensures BlockGives(xs, a, b, id, OrderBlock(xs, known, snapshot), OrderMarksIn(id), DueOrderMark(es))
    {
      if a < b <= |xs| && RunKnown(xs, a, known) {
        FlatMapOne(Orders(xs[a].id, OrdersOf(xs, a, b, known[xs[a].id]), snapshot), OrderMarksIn(id));
      }
    }
    BlocksArePerRun(xs, |xs|, id, OrderBlock(xs, known, snapshot), OrderMarksIn(id), DueOrderMark(es));
    OrderOutsAreBlocks(xs, |xs|, known, snapshot);
  }

  // ---------- unknown securities ----------

  lemma {:induction false} NothingPerRun<S, T>(xs: seq<Keyed<S>>, k: nat, id: int, h: (nat, nat) -> seq<T>)
    requires k <= |xs| && forall a, b :: h(a, b) == []
    ensures PerRun(xs, k, id, h) == []
  {
    if k > 0 {
      NothingPerRun(xs, k - 1, id, h);
    }
  }

  lemma {:induction false} ChecksAreOf(es: Book, a: nat, k: nat, at: int)
    requires a <= k <= |es| && forall i :: a <= i < k ==> es[i].id == at
    ensures forall i :: 0 <= i < |Checks(es, a, k)| ==> Checks(es, a, k)[i].id == at
  {
    if a < k {
      ChecksAreOf(es, a, k - 1, at);
    }
  }

  lemma RunIsOf(es: Book, a: nat, b: nat, factor: real, o: Options, id: int)
    requires a < b <= |es| && Uniform(es, a, b) && es[a].id != id
    ensures FlatMap(RunOut(es, a, b, factor, o), OutsIn(id)) == []
  {
    ChecksAreOf(es, a, b, es[a].id);
    ClosingIsOf(Checks(es, a, b), es[a].id, LayerOf(es, a, b, factor), Updates(es, a, b, factor, Bid),
                Updates(es, a, b, factor, Offer), AnySnapshot(es, a, b), ClearedLevels(es, a, b, factor, o), id);
  }

  lemma ClosingIsOf(
    checks: seq<Out>, at: int, layer: Layer, bids: seq<LevelUpdate>, asks: seq<LevelUpdate>, snapshot: bool,
    cleared: seq<OrderUpdate>, id: int)
    requires at != id && forall k :: 0 <= k < |checks| ==> checks[k].id == at
    ensures FlatMap(checks + Closing(at, layer, bids, asks, snapshot, cleared), OutsIn(id)) == []
  {
    NoneThrough(checks + Closing(at, layer, bids, asks, snapshot, cleared), OutsIn(id));
  }

  lemma BlockIsOf(es: Book, a: nat, b: nat, known: Known, o: Options, id: int, none: (nat, nat) -> seq<Out>)
    requires id !in known && none(a, b) == []
    ensures BlockGives(es, a, b, id, RunBlock(es, known, o), OutsIn(id), none)
  {
    if a < b <= |es| && Uniform(es, a, b) && RunKnown(es, a, known) {
      RunIsOf(es, a, b, known[es[a].id], o, id);
    }
  }

  lemma NoEntriesForUnknown(es: Book, rs: seq<OrderRef>, known: Known, o: Options, id: int)
    requires id !in known
    ensures FlatMap(SecondPass(es, rs, known, o), OutsIn(id)) == []
  {
    var xs, snapshot := Resolve(es, rs, |rs|), AnySnapshot(es, 0, |es|);
    var block := OrderBlock(xs, known, snapshot);
    forall a: nat, b: nat
      ensures FlatMap(block(a, b), OutsIn(id)) == []
    {
      NoneThrough(block(a, b), OutsIn(id));
    }
    BlocksHaveNone(xs, |xs|, block, OutsIn(id));
    OrderOutsAreBlocks(xs, |xs|, known, snapshot);
  }

  /** Nothing at all is published for a security that is not known. */
  lemma NothingForUnknown(es: Book, rs: seq<OrderRef>, known: Known, o: Options, id: int)
    requires id !in known
    ensures FlatMap(Published(es, rs, known, o), OutsIn(id)) == []
  {
    var none: (nat, nat) -> seq<Out> := (a, b) => [];
    forall a: nat, b: nat
      ensures BlockGives(es, a, b, id, RunBlock(es, known, o), OutsIn(id), none)
    {
      BlockIsOf(es, a, b, known, o, id, none);
    }
    PublishedThrough(es, rs, known, o, id, OutsIn(id), none);
    NothingPerRun(es, |es|, id, none);
    NoEntriesForUnknown(es, rs, known, o, id);
  }
}
