/** Regrouping neither loses, repeats, reorders nor misdirects anything, except for what
    a leading run of id zero holds. */
module RefreshBookLaws {
  import opened Grouping
  import opened Market
  import opened Optional
  import opened RefreshBook
  import opened Sequences

  // ---------- reading the output per security ----------

  function LevelsIn(id: int, kind: LevelKind): Out -> seq<LevelUpdate> {
    (out: Out) => if out.Levels? && out.id == id then (if kind == Bid then out.bids else out.asks) else []
  }

  /** All levels of one kind published for a security, in order. */
  function LevelsFor(outs: seq<Out>, id: int, kind: LevelKind): seq<LevelUpdate> { FlatMap(outs, LevelsIn(id, kind)) }

  function OrdersIn(id: int): Out -> seq<OrderUpdate> {
    (out: Out) => if out.Orders? && out.id == id then out.orders else []
  }

  /** All orders published for a security, in order. */
  function OrdersFor(outs: seq<Out>, id: int): seq<OrderUpdate> { FlatMap(outs, OrdersIn(id)) }

  // ---------- what should be published ----------

  /** A price under a display factor; a null price stays null. */
  function DuePrice(price: Price, factor: real): Price {
    match price
    case None => None
    case Some(p) => Some(p * factor)
  }

  /** Bids are bought, offers are sold, and no other kind has a side. */
  function DueSide(kind: LevelKind): Side { if kind == Bid then Buy else if kind == Offer then Sell else Undefined }

  /** A level as it should be published: a deletion has quantity zero, whatever quantity came
      with it, and levels are counted from zero. */
  function LevelOf(factor: real, kind: LevelKind): Level -> seq<LevelUpdate> {
    (l: Level) =>
      if l.kind != kind then []
      else
        var size := if l.action == Delete then 0 else l.size;
        [LevelUpdate(DuePrice(l.price, factor), size, l.orders, l.action, if l.depth == 0 then 0 else l.depth - 1)]
  }

  /** A deleted bid or offer clears the orders of its level, if the options say so. */
  predicate DueToClear(l: Level, o: Options) {
    l.action == Delete && (l.kind == Bid || l.kind == Offer) && o.marketByOrder && o.clearPriceLevel
  }

  /** A cleared level: no quantity, no priority and no order id. */
  function ClearOf(factor: real, o: Options): Level -> seq<OrderUpdate> {
    (l: Level) =>
      if DueToClear(l, o) then [OrderUpdate(DuePrice(l.price, factor), 0, 0, None, DueSide(l.kind), Delete)] else []
  }

  function OrderOf(factor: real): Resolved -> seq<OrderUpdate> {
    (x: Resolved) => [OrderFor(x, factor)]
  }

  /** The order entry `r` under a display factor: side and price are those of the level
      it refers to, counted from one. */
  function OrderAt(es: Book, r: OrderRef, factor: real): OrderUpdate
    requires 1 <= r.reference <= |es|
  {
    var l := es[r.reference - 1].item;
    OrderUpdate(DuePrice(l.price, factor), r.size, r.priority, Some(r.orderId), DueSide(l.kind), r.action)
  }

  /** The orders that the message holds for a security: the valid references to its levels. */
  function OrdersOfSecurity(es: Book, rs: seq<OrderRef>, k: nat, id: int, factor: real): seq<OrderUpdate>
    requires k <= |rs|
  {
    if k == 0 then []
    else OrdersOfSecurity(es, rs, k - 1, id, factor)
         + (if 1 <= rs[k - 1].reference <= |es| && es[rs[k - 1].reference - 1].id == id
            then [OrderAt(es, rs[k - 1], factor)] else [])
  }

  // ---------- the parts of a run ----------

  lemma {:induction false} UpdatesArePart(es: Book, a: nat, k: nat, factor: real, kind: LevelKind)
    requires a <= k <= |es|
    ensures Updates(es, a, k, factor, kind) == Part(es, a, k, LevelOf(factor, kind))
  {
    if a < k {
      UpdatesArePart(es, a, k - 1, factor, kind);
    }
  }

  lemma {:induction false} ClearedArePart(es: Book, a: nat, k: nat, factor: real, o: Options)
    requires a <= k <= |es|
    ensures ClearedLevels(es, a, k, factor, o) == Part(es, a, k, ClearOf(factor, o))
  {
    if a < k {
      ClearedArePart(es, a, k - 1, factor, o);
    }
  }

  lemma {:induction false} OrdersArePart(xs: seq<Keyed<Resolved>>, a: nat, k: nat, factor: real)
    requires a <= k <= |xs|
    ensures OrdersOf(xs, a, k, factor) == Part(xs, a, k, OrderOf(factor))
  {
    if a < k {
      OrdersArePart(xs, a, k - 1, factor);
    }
  }

  // ---------- what one run publishes ----------

  lemma {:induction false} ChecksHaveNone<T>(es: Book, a: nat, k: nat, g: Out -> seq<T>)
    requires a <= k <= |es| && forall id, n :: g(Check(id, n)) == []
    ensures FlatMap(Checks(es, a, k), g) == []
  {
    if a < k {
      ChecksHaveNone(es, a, k - 1, g);
      FlatMapMore(Checks(es, a, k - 1), Check(es[k - 1].id, es[k - 1].item.rptSeq), g);
    }
  }

  /** A block of outputs in four pieces, of which only the last two matter. */
  lemma FourPieces<T>(checks: seq<Out>, top: seq<Out>, levels: seq<Out>, cleared: seq<Out>, g: Out -> seq<T>,
                      x: seq<T>, y: seq<T>)
    requires FlatMap(checks, g) == [] && FlatMap(top, g) == [] && FlatMap(levels, g) == x && FlatMap(cleared, g) == y
    ensures FlatMap(checks + (top + levels + cleared), g) == x + y
  {
    FlatMapBoth(top, levels, g, [], x);
    FlatMapBoth(top + levels, cleared, g, [] + x, y);
    FlatMapBoth(checks, top + levels + cleared, g, [], [] + x + y);
  }

  lemma PiecesGiveLevels(
    at: int, layer: Layer, bids: seq<LevelUpdate>, asks: seq<LevelUpdate>, snapshot: bool, cleared: seq<OrderUpdate>,
    id: int, kind: LevelKind)
    ensures LevelsFor(LayerOut(at, layer), id, kind) == []
    ensures LevelsFor(LevelsOut(at, bids, asks, snapshot), id, kind)
         == if at == id then (if kind == Bid then bids else asks) else []
    ensures LevelsFor(ClearedOut(at, cleared), id, kind) == []
  {
    var g := LevelsIn(id, kind);
    FlatMapOne(TopOfBook(at, layer), g);
    FlatMapOne(Levels(at, bids, asks, snapshot), g);
    FlatMapOne(Orders(at, cleared, false), g);
  }

  lemma PiecesGiveOrders(
    at: int, layer: Layer, bids: seq<LevelUpdate>, asks: seq<LevelUpdate>, snapshot: bool, cleared: seq<OrderUpdate>,
    id: int)
    ensures OrdersFor(LayerOut(at, layer), id) == []
    ensures OrdersFor(LevelsOut(at, bids, asks, snapshot), id) == []
    ensures OrdersFor(ClearedOut(at, cleared), id) == if at == id then cleared else []
  {
    var g := OrdersIn(id);
    FlatMapOne(TopOfBook(at, layer), g);
    FlatMapOne(Levels(at, bids, asks, snapshot), g);
    FlatMapOne(Orders(at, cleared, false), g);
  }

  /** The outputs of the run `a..b`, if its security is looked up and known. */
  function RunBlock(es: Book, known: Known, o: Options): (nat, nat) -> seq<Out> {
    (a: nat, b: nat) => if a < b <= |es| && RunKnown(es, a, known) then RunOut(es, a, b, known[es[a].id], o) else []
  }

  lemma RunOutLevels(es: Book, a: nat, b: nat, factor: real, o: Options, id: int, kind: LevelKind)
    requires a < b <= |es| && (kind == Bid || kind == Offer)
    ensures FlatMap(RunOut(es, a, b, factor, o), LevelsIn(id, kind))
         == if es[a].id == id then Part(es, a, b, LevelOf(factor, kind)) else []
  {
    var at, layer, snapshot := es[a].id, LayerOf(es, a, b, factor), AnySnapshot(es, a, b);
    var bids, asks := Updates(es, a, b, factor, Bid), Updates(es, a, b, factor, Offer);
    var cleared := ClearedLevels(es, a, b, factor, o);
    ChecksHaveNone(es, a, b, LevelsIn(id, kind));
    PiecesGiveLevels(at, layer, bids, asks, snapshot, cleared, id, kind);
    FourPieces(Checks(es, a, b), LayerOut(at, layer), LevelsOut(at, bids, asks, snapshot), ClearedOut(at, cleared),
               LevelsIn(id, kind), if at == id then Updates(es, a, b, factor, kind) else [], []);
    UpdatesArePart(es, a, b, factor, kind);
  }

  lemma RunOutOrders(es: Book, a: nat, b: nat, factor: real, o: Options, id: int)
    requires a < b <= |es|
    ensures FlatMap(RunOut(es, a, b, factor, o), OrdersIn(id))
         == if es[a].id == id then Part(es, a, b, ClearOf(factor, o)) else []
  {
    var at, layer, snapshot := es[a].id, LayerOf(es, a, b, factor), AnySnapshot(es, a, b);
    var bids, asks := Updates(es, a, b, factor, Bid), Updates(es, a, b, factor, Offer);
    var cleared := ClearedLevels(es, a, b, factor, o);
    ChecksHaveNone(es, a, b, OrdersIn(id));
    PiecesGiveOrders(at, layer, bids, asks, snapshot, cleared, id);
    FourPieces(Checks(es, a, b), LayerOut(at, layer), LevelsOut(at, bids, asks, snapshot), ClearedOut(at, cleared),
               OrdersIn(id), [], if at == id then cleared else []);
    ClearedArePart(es, a, b, factor, o);
  }

  lemma BlockGivesLevels(es: Book, a: nat, b: nat, known: Known, o: Options, id: int, kind: LevelKind)
    requires id in known && (kind == Bid || kind == Offer)
    ensures BlockGives(es, a, b, id, RunBlock(es, known, o), LevelsIn(id, kind), PartOf(es, LevelOf(known[id], kind)))
  {
    if a < b <= |es| && RunKnown(es, a, known) {
      RunOutLevels(es, a, b, known[es[a].id], o, id, kind);
    }
  }

  lemma BlockGivesOrders(es: Book, a: nat, b: nat, known: Known, o: Options, id: int)
    requires id in known
    ensures BlockGives(es, a, b, id, RunBlock(es, known, o), OrdersIn(id), PartOf(es, ClearOf(known[id], o)))
  {
    if a < b <= |es| && RunKnown(es, a, known) {
      RunOutOrders(es, a, b, known[es[a].id], o, id);
    }
  }

  // ---------- all runs ----------

  lemma {:induction false} OutsAreBlocks(es: Book, k: nat, known: Known, o: Options)
    requires k <= |es|
    ensures Outs(es, k, known, o) == Blocks(es, k, RunBlock(es, known, o))
  {
    if k > 0 {
      OutsAreBlocks(es, k - 1, known, o);
    }
  }

  lemma LevelsAreLive(es: Book, known: Known, o: Options, id: int, kind: LevelKind)
    requires id in known && (kind == Bid || kind == Offer)
    ensures LevelsFor(Outs(es, |es|, known, o), id, kind) == Live(es, |es|, id, LevelOf(known[id], kind))
  {
    forall a, b
      ensures BlockGives(es, a, b, id, RunBlock(es, known, o), LevelsIn(id, kind), PartOf(es, LevelOf(known[id], kind)))
    {
      BlockGivesLevels(es, a, b, known, o, id, kind);
    }
    BlocksAreLive(es, id, RunBlock(es, known, o), LevelsIn(id, kind), LevelOf(known[id], kind));
    OutsAreBlocks(es, |es|, known, o);
  }

  lemma ClearedAreLive(es: Book, known: Known, o: Options, id: int)
    requires id in known
    ensures OrdersFor(Outs(es, |es|, known, o), id) == Live(es, |es|, id, ClearOf(known[id], o))
  {
    forall a, b
      ensures BlockGives(es, a, b, id, RunBlock(es, known, o), OrdersIn(id), PartOf(es, ClearOf(known[id], o)))
    {
      BlockGivesOrders(es, a, b, known, o, id);
    }
    BlocksAreLive(es, id, RunBlock(es, known, o), OrdersIn(id), ClearOf(known[id], o));
    OutsAreBlocks(es, |es|, known, o);
  }

  // ---------- the second pass ----------

  function OrderBlock(xs: seq<Keyed<Resolved>>, known: Known, snapshot: bool): (nat, nat) -> seq<Out> {
    (a: nat, b: nat) =>
      if a < b <= |xs| && RunKnown(xs, a, known)
      then [Orders(xs[a].id, OrdersOf(xs, a, b, known[xs[a].id]), snapshot)] else []
  }

  lemma {:induction false} OrderOutsAreBlocks(xs: seq<Keyed<Resolved>>, k: nat, known: Known, snapshot: bool)
    requires k <= |xs|
    ensures OrderOuts(xs, k, known, snapshot) == Blocks(xs, k, OrderBlock(xs, known, snapshot))
  {
    if k > 0 {
      OrderOutsAreBlocks(xs, k - 1, known, snapshot);
    }
  }

  lemma OrderBlockGives(xs: seq<Keyed<Resolved>>, a: nat, b: nat, known: Known, snapshot: bool, id: int)
    requires id in known
    ensures BlockGives(xs, a, b, id, OrderBlock(xs, known, snapshot), OrdersIn(id), PartOf(xs, OrderOf(known[id])))
  {
    if a < b <= |xs| && RunKnown(xs, a, known) {
      OrdersArePart(xs, a, b, known[xs[a].id]);
      FlatMapOne(Orders(xs[a].id, OrdersOf(xs, a, b, known[xs[a].id]), snapshot), OrdersIn(id));
    }
  }

  lemma OrdersAreLive(xs: seq<Keyed<Resolved>>, known: Known, snapshot: bool, id: int)
    requires id in known
    ensures OrdersFor(OrderOuts(xs, |xs|, known, snapshot), id) == Live(xs, |xs|, id, OrderOf(known[id]))
  {
    forall a, b
      ensures BlockGives(xs, a, b, id, OrderBlock(xs, known, snapshot), OrdersIn(id), PartOf(xs, OrderOf(known[id])))
    {
      OrderBlockGives(xs, a, b, known, snapshot, id);
    }
    BlocksAreLive(xs, id, OrderBlock(xs, known, snapshot), OrdersIn(id), OrderOf(known[id]));
    OrderOutsAreBlocks(xs, |xs|, known, snapshot);
  }

  /** The second pass publishes no levels. */
  lemma OrderOutsHaveNoLevels(xs: seq<Keyed<Resolved>>, known: Known, snapshot: bool, id: int, kind: LevelKind)
    ensures LevelsFor(OrderOuts(xs, |xs|, known, snapshot), id, kind) == []
  {
    var block := OrderBlock(xs, known, snapshot);
    forall a, b
      ensures FlatMap(block(a, b), LevelsIn(id, kind)) == []
    {
      FlatNone(block(a, b), |block(a, b)|, LevelsIn(id, kind));
    }
    BlocksHaveNone(xs, |xs|, block, LevelsIn(id, kind));
    OrderOutsAreBlocks(xs, |xs|, known, snapshot);
  }

  // ---------- levels ----------

  lemma PublishedLevels(es: Book, rs: seq<OrderRef>, known: Known, o: Options, id: int, kind: LevelKind)
    requires id in known && (kind == Bid || kind == Offer)
    ensures LevelsFor(Published(es, rs, known, o), id, kind) == Live(es, |es|, id, LevelOf(known[id], kind))
  {
    var xs := Resolve(es, rs, |rs|);
    var second := if o.marketByOrder then OrderOuts(xs, |xs|, known, AnySnapshot(es, 0, |es|)) else [];
    OrderOutsHaveNoLevels(xs, known, AnySnapshot(es, 0, |es|), id, kind);
    LevelsAreLive(es, known, o, id, kind);
    FlatMapBoth(Outs(es, |es|, known, o), second, LevelsIn(id, kind), Live(es, |es|, id, LevelOf(known[id], kind)), []);
  }

  /** No level of a kind stands in a leading run of id zero. */
  ghost predicate NoLeadingLevel(es: Book, kind: LevelKind) {
    forall k :: 0 <= k < Lead(es) ==> es[k].item.kind != kind
  }

  /** Every bid (or offer) that a message holds for a known security is published once, in
      order of arrival, under that security, if and only if the security does not have id
      zero or no such level stands in a leading run of id zero. */
  lemma EveryLevelOnceIff(es: Book, rs: seq<OrderRef>, known: Known, o: Options, id: int, kind: LevelKind)
    requires id in known && (kind == Bid || kind == Offer)
    ensures LevelsFor(Published(es, rs, known, o), id, kind) == Own(es, |es|, id, LevelOf(known[id], kind))
      <==> (id == 0 ==> NoLeadingLevel(es, kind))
  {
    PublishedLevels(es, rs, known, o, id, kind);
    LiveIsOwnIff(es, id, LevelOf(known[id], kind));
    LevelsLostIff(es, kind, known[id]);
  }

  lemma LevelsLostIff(es: Book, kind: LevelKind, factor: real)
    ensures AllEmpty(es, Lead(es), LevelOf(factor, kind)) <==> NoLeadingLevel(es, kind)
  {
    var f := LevelOf(factor, kind);
    assert forall j :: 0 <= j < |es| ==> (f(es[j].item) == [] <==> es[j].item.kind != kind);
  }

  // ---------- top of book ----------

  ghost predicate NoneOfKind(es: Book, a: nat, k: nat, kind: LevelKind)
    requires a <= k <= |es|
  {
    forall i :: a <= i < k ==> es[i].item.kind != kind
  }

  function Best(layer: Layer, kind: LevelKind): Price { if kind == MarketBestBid then layer.bid else layer.ask }

  /** The best bid of a run is its last one; and so for the offer. */
  lemma {:induction false} BestIsLast(es: Book, a: nat, k: nat, factor: real, kind: LevelKind, j: nat)
    requires a <= j < k <= |es| && (kind == MarketBestBid || kind == MarketBestOffer)
    requires es[j].item.kind == kind && NoneOfKind(es, j + 1, k, kind)
    ensures Best(LayerOf(es, a, k, factor), kind) == DuePrice(es[j].item.price, factor)
  {
    if j < k - 1 {
      BestIsLast(es, a, k - 1, factor, kind, j);
    }
  }

  /** A run without a best bid has none; and so for the offer. */
  lemma {:induction false} BestIsNone(es: Book, a: nat, k: nat, factor: real, kind: LevelKind)
    requires a <= k <= |es| && (kind == MarketBestBid || kind == MarketBestOffer) && NoneOfKind(es, a, k, kind)
    ensures Best(LayerOf(es, a, k, factor), kind) == None
  {
    if a < k {
      BestIsNone(es, a, k - 1, factor, kind);
    }
  }

  // ---------- orders ----------

  lemma {:induction false} OwnPrefix<S, T>(xs: seq<Keyed<S>>, ys: seq<Keyed<S>>, k: nat, id: int, f: S -> seq<T>)
    requires k <= |xs|
    ensures Own(xs + ys, k, id, f) == Own(xs, k, id, f)
  {
    if k > 0 {
      OwnPrefix(xs, ys, k - 1, id, f);
      assert (xs + ys)[k - 1] == xs[k - 1];
    }
  }

  lemma ResolvedIsDue(es: Book, r: OrderRef, factor: real)
    requires ValidReference(r, |es|)
    ensures var l := es[r.reference - 1].item;
      OrderOf(factor)(Resolved(r, SideOf(l.kind), l.price)) == [OrderAt(es, r, factor)]
  {
    var l := es[r.reference - 1].item;
    assert SideOf(l.kind) == DueSide(l.kind) && Scaled(l.price, factor) == DuePrice(l.price, factor);
  }

  lemma {:induction false} ResolvedIsOwn(es: Book, rs: seq<OrderRef>, k: nat, id: int, factor: real)
    requires k <= |rs|
    ensures var xs := Resolve(es, rs, k); Own(xs, |xs|, id, OrderOf(factor)) == OrdersOfSecurity(es, rs, k, id, factor)
  {
    if k > 0 {
      ResolvedIsOwn(es, rs, k - 1, id, factor);
      var xs := Resolve(es, rs, k - 1);
      if ValidReference(rs[k - 1], |es|) {
        var x := es[rs[k - 1].reference - 1];
        var last := Keyed(x.id, Resolved(rs[k - 1], SideOf(x.item.kind), x.item.price));
        ResolvedIsDue(es, rs[k - 1], factor);
        OwnPrefix(xs, [last], |xs|, id, OrderOf(factor));
        assert Resolve(es, rs, k) == xs + [last] && (xs + [last])[|xs|] == last;
      } else {
        assert Resolve(es, rs, k) == xs;
      }
    }
  }

  /** The first order entry with a valid reference points at a level of id zero. */
  ghost predicate FirstReferenceIsZero(es: Book, rs: seq<OrderRef>) {
    exists i :: 0 <= i < |rs| && 1 <= rs[i].reference <= |es| && es[rs[i].reference - 1].id == 0
      && forall j :: 0 <= j < i ==> rs[j].reference == 0 || rs[j].reference > |es|
  }

  lemma {:induction false} FirstResolved(es: Book, rs: seq<OrderRef>, k: nat)
    requires k <= |rs|
    ensures var xs := Resolve(es, rs, k);
      if xs == [] then forall j :: 0 <= j < k ==> rs[j].reference == 0 || rs[j].reference > |es|
      else exists i :: 0 <= i < k && 1 <= rs[i].reference <= |es| && es[rs[i].reference - 1].id == xs[0].id
             && forall j :: 0 <= j < i ==> rs[j].reference == 0 || rs[j].reference > |es|
  {
    if k > 0 {
      FirstResolved(es, rs, k - 1);
    }
  }

  /** A leading run of id zero among the resolved entries loses orders unless it is empty. */
  lemma OrdersLostIff(es: Book, rs: seq<OrderRef>, id: int, factor: real)
    ensures NoneLost(Resolve(es, rs, |rs|), id, OrderOf(factor)) <==> (id == 0 ==> !FirstReferenceIsZero(es, rs))
  {
    var xs := Resolve(es, rs, |rs|);
    FirstResolved(es, rs, |rs|);
    assert Lead(xs) == 0 <==> xs == [] || xs[0].id != 0;
    if Lead(xs) > 0 {
      assert OrderOf(factor)(xs[0].item) != [];
    }
  }

  lemma ClearsLostIff(es: Book, factor: real, o: Options)
    ensures AllEmpty(es, Lead(es), ClearOf(factor, o)) <==> NoLeadingClear(es, o)
  {
    var f := ClearOf(factor, o);
    assert forall j :: 0 <= j < |es| ==> (f(es[j].item) == [] <==> !DueToClear(es[j].item, o));
  }

  lemma PublishedOrders(es: Book, rs: seq<OrderRef>, known: Known, o: Options, id: int)
    requires id in known
    ensures var xs := Resolve(es, rs, |rs|);
      OrdersFor(Published(es, rs, known, o), id) == Live(es, |es|, id, ClearOf(known[id], o))
        + if o.marketByOrder then Live(xs, |xs|, id, OrderOf(known[id])) else []
  {
    var xs, f := Resolve(es, rs, |rs|), known[id];
    var snapshot := AnySnapshot(es, 0, |es|);
    var second := if o.marketByOrder then OrderOuts(xs, |xs|, known, snapshot) else [];
    ClearedAreLive(es, known, o, id);
    OrdersAreLive(xs, known, snapshot, id);
    FlatMapBoth(Outs(es, |es|, known, o), second, OrdersIn(id), Live(es, |es|, id, ClearOf(f, o)),
                if o.marketByOrder then Live(xs, |xs|, id, OrderOf(f)) else []);
  }

  /** The cleared levels of a security, then its order entries. */
  function OrdersDue(es: Book, rs: seq<OrderRef>, id: int, factor: real, o: Options): seq<OrderUpdate> {
    Own(es, |es|, id, ClearOf(factor, o)) + if o.marketByOrder then OrdersOfSecurity(es, rs, |rs|, id, factor) else []
  }

  /** No level to be cleared stands in a leading run of id zero. */
  ghost predicate NoLeadingClear(es: Book, o: Options) {
    forall k :: 0 <= k < Lead(es) ==> !DueToClear(es[k].item, o)
  }

  /** With market by order, the orders published for a known security are its cleared
      levels and then its order entries with a valid reference, each once, in order and
      with the side and price of the level referred to, if and only if the security does
      not have id zero, or neither a level to be cleared nor a valid reference leads with
      id zero. */
  lemma EveryOrderOnceIff(es: Book, rs: seq<OrderRef>, known: Known, o: Options, id: int)
    requires id in known
    ensures OrdersFor(Published(es, rs, known, o), id) == OrdersDue(es, rs, id, known[id], o)
      <==> (id == 0 ==> NoLeadingClear(es, o) && (o.marketByOrder ==> !FirstReferenceIsZero(es, rs)))
  {
    var xs, f := Resolve(es, rs, |rs|), known[id];
    PublishedOrders(es, rs, known, o, id);
    LiveIsOwnIff(es, id, ClearOf(f, o));
    LiveIsOwnIff(xs, id, OrderOf(f));
    ResolvedIsOwn(es, rs, |rs|, id, f);
    OrdersLostIff(es, rs, id, f);
    ClearsLostIff(es, f, o);
  }
}
