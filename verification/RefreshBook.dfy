/** The incremental book refresh: price levels regrouped by security, and order entries
    that refer back to the levels by position. */
module RefreshBook {
  import opened Grouping
  import opened Market
  import opened Optional
  import opened Sequences

  datatype Action = New | Change | Delete | Other

  datatype LevelKind =
    | Bid | Offer | ImpliedBid | ImpliedOffer | BookReset | MarketBestOffer | MarketBestBid | NullKind

  /** A price may be null. */
  type Price = Option<real>

  /** One price level entry, without its security id. */
  datatype Level = Level(
    rptSeq: nat, kind: LevelKind, price: Price, size: int, orders: nat, depth: nat, action: Action)

  /** One order entry; it names a level by its position, counted from one. */
  datatype OrderRef = OrderRef(reference: nat, orderId: nat, priority: nat, size: int, action: Action)

  datatype LevelUpdate = LevelUpdate(price: Price, size: int, orders: nat, action: Action, level: nat)

  datatype OrderUpdate = OrderUpdate(
    price: Price, size: int, priority: nat, orderId: Option<nat>, side: Side, action: Action)

  datatype Layer = Layer(bid: Price, ask: Price)

  const NO_LAYER := Layer(None, None)

  /** What a level leaves behind for the order entries. */
  datatype Trace = Trace(id: int, side: Side, price: Price, action: Action)

  /** Calls made for a security, in order. */
  datatype Out =
    | Check(id: int, rptSeq: nat)
    | TopOfBook(id: int, layer: Layer)
    | Levels(id: int, bids: seq<LevelUpdate>, asks: seq<LevelUpdate>, snapshot: bool)
    | Orders(id: int, orders: seq<OrderUpdate>, snapshot: bool)

  datatype Options = Options(marketByOrder: bool, clearPriceLevel: bool)

  type Book = seq<Keyed<Level>>

  // ---------- one level ----------

  function Scaled(price: Price, factor: real): Price {
    if price.None? then None else Some(price.value * factor)
  }

  function SideOf(kind: LevelKind): Side {
    match kind
    case Bid => Buy
    case Offer => Sell
    case _ => Undefined
  }

  /** The exchange sends the old quantity with a deletion; it is published as zero. */
  function UpdateFor(l: Level, factor: real): LevelUpdate {
    LevelUpdate(Scaled(l.price, factor), if l.action == Delete then 0 else l.size, l.orders, l.action,
                if l.depth > 0 then l.depth - 1 else 0)
  }

  function ClearFor(l: Level, factor: real): OrderUpdate {
    OrderUpdate(Scaled(l.price, factor), 0, 0, None, SideOf(l.kind), l.action)
  }

  function TraceFor(x: Keyed<Level>): Trace {
    Trace(x.id, SideOf(x.item.kind), x.item.price, x.item.action)
  }

  predicate Clears(l: Level, o: Options) {
    o.marketByOrder && o.clearPriceLevel && l.action == Delete && SideOf(l.kind) != Undefined
  }

  // ---------- one run of levels ----------

  /** The updates of one kind, bids or offers, in order. */
  function Updates(es: Book, a: nat, k: nat, factor: real, kind: LevelKind): seq<LevelUpdate>
    requires a <= k <= |es|
  {
    if a == k then []
    else Updates(es, a, k - 1, factor, kind)
         + (if es[k - 1].item.kind == kind then [UpdateFor(es[k - 1].item, factor)] else [])
  }

  function ClearedLevels(es: Book, a: nat, k: nat, factor: real, o: Options): seq<OrderUpdate>
    requires a <= k <= |es|
  {
    if a == k then []
    else ClearedLevels(es, a, k - 1, factor, o)
         + (if Clears(es[k - 1].item, o) then [ClearFor(es[k - 1].item, factor)] else [])
  }

  /** The last best bid and best offer of the run. */
  function LayerOf(es: Book, a: nat, k: nat, factor: real): Layer
    requires a <= k <= |es|
  {
    if a == k then NO_LAYER
    else
      var l := es[k - 1].item;
      var before := LayerOf(es, a, k - 1, factor);
      match l.kind
      case MarketBestBid => before.(bid := Scaled(l.price, factor))
      case MarketBestOffer => before.(ask := Scaled(l.price, factor))
      case _ => before
  }

  function AnySnapshot(es: Book, a: nat, k: nat): bool
    requires a <= k <= |es|
  {
    exists i :: a <= i < k && es[i].item.rptSeq == 1
  }

  function Checks(es: Book, a: nat, k: nat): seq<Out>
    requires a <= k <= |es|
  {
    if a == k then [] else Checks(es, a, k - 1) + [Check(es[k - 1].id, es[k - 1].item.rptSeq)]
  }

  function LayerOut(id: int, layer: Layer): seq<Out> {
    if layer == NO_LAYER then [] else [TopOfBook(id, layer)]
  }

  function LevelsOut(id: int, bids: seq<LevelUpdate>, asks: seq<LevelUpdate>, snapshot: bool): seq<Out> {
    if bids == [] && asks == [] then [] else [Levels(id, bids, asks, snapshot)]
  }

  function ClearedOut(id: int, cleared: seq<OrderUpdate>): seq<Out> {
    if cleared == [] then [] else [Orders(id, cleared, false)]
  }

  /** What is published when a run of a known security ends. */
  function Closing(id: int, layer: Layer, bids: seq<LevelUpdate>, asks: seq<LevelUpdate>, snapshot: bool,
                   cleared: seq<OrderUpdate>): seq<Out> {
    LayerOut(id, layer) + LevelsOut(id, bids, asks, snapshot) + ClearedOut(id, cleared)
  }

  /** Everything a run of a known security leads to. */
  function RunOut(es: Book, a: nat, b: nat, factor: real, o: Options): seq<Out>
    requires a < b <= |es|
  {
    Checks(es, a, b)
    + Closing(es[a].id, LayerOf(es, a, b, factor), Updates(es, a, b, factor, Bid), Updates(es, a, b, factor, Offer),
              AnySnapshot(es, a, b), ClearedLevels(es, a, b, factor, o))
  }

  /** A run is published if its security is known; the search starts from id zero, so a
      leading run of id zero is never looked up. */
  predicate RunKnown<T>(xs: seq<Keyed<T>>, a: nat, known: Known)
    requires a < |xs|
  {
    xs[a].id in known && !Skipped(xs, a)
  }

  function FactorOf<T>(xs: seq<Keyed<T>>, a: nat, known: Known): Option<real>
    requires a < |xs|
  {
    if RunKnown(xs, a, known) then Some(known[xs[a].id]) else None
  }

  /** One output block for each maximal run that ends within the first `k` levels. */
  function Outs(es: Book, k: nat, known: Known, o: Options): seq<Out>
    requires k <= |es|
  {
    if k == 0 then []
    else
      var a := StartOf(es, k);
      Outs(es, k - 1, known, o)
      + (if Boundary(es, k) && RunKnown(es, a, known) then RunOut(es, a, k, known[es[a].id], o) else [])
  }

  lemma OutsCloses(es: Book, k: nat, known: Known, o: Options, start: seq<Out>)
    requires 1 <= k <= |es| && Boundary(es, k)
    ensures var a := StartOf(es, k);
      start + Outs(es, k, known, o) ==
      if RunKnown(es, a, known) then
        var f := known[es[a].id];
        start + Outs(es, k - 1, known, o) + Checks(es, a, k)
        + Closing(es[a].id, LayerOf(es, a, k, f), Updates(es, a, k, f, Bid), Updates(es, a, k, f, Offer),
                  AnySnapshot(es, a, k), ClearedLevels(es, a, k, f, o))
      else start + Outs(es, k - 1, known, o)
  {
    var a := StartOf(es, k);
    var f := if RunKnown(es, a, known) then known[es[a].id] else 0.0;
    var closing := Closing(es[a].id, LayerOf(es, a, k, f), Updates(es, a, k, f, Bid), Updates(es, a, k, f, Offer),
                           AnySnapshot(es, a, k), ClearedLevels(es, a, k, f, o));
    var before := Outs(es, k - 1, known, o);
    if RunKnown(es, a, known) {
      Rebracket(start, before, Checks(es, a, k) + closing);
      Rebracket(start + before, Checks(es, a, k), closing);
    }
  }

  // ---------- the order entries ----------

  /** An order entry together with the level it refers to. */
  datatype Resolved = Resolved(order: OrderRef, side: Side, price: Price)

  predicate ValidReference(r: OrderRef, levels: nat) { 1 <= r.reference <= levels }

  /** The order entries with a valid reference, each under the security of its level. */
  function Resolve(es: Book, rs: seq<OrderRef>, k: nat): seq<Keyed<Resolved>>
    requires k <= |rs|
  {
    if k == 0 then []
    else
      var r := rs[k - 1];
      Resolve(es, rs, k - 1)
      + (if ValidReference(r, |es|)
         then var x := es[r.reference - 1]; [Keyed(x.id, Resolved(r, SideOf(x.item.kind), x.item.price))]
         else [])
  }

  function OrderFor(x: Resolved, factor: real): OrderUpdate {
    OrderUpdate(Scaled(x.price, factor), x.order.size, x.order.priority, Some(x.order.orderId), x.side, x.order.action)
  }

  function OrdersOf(xs: seq<Keyed<Resolved>>, a: nat, k: nat, factor: real): seq<OrderUpdate>
    requires a <= k <= |xs|
  {
    if a == k then [] else OrdersOf(xs, a, k - 1, factor) + [OrderFor(xs[k - 1].item, factor)]
  }

  function OrderOuts(xs: seq<Keyed<Resolved>>, k: nat, known: Known, snapshot: bool): seq<Out>
    requires k <= |xs|
  {
    if k == 0 then []
    else
      var a := StartOf(xs, k);
      OrderOuts(xs, k - 1, known, snapshot)
      + (if Boundary(xs, k) && RunKnown(xs, a, known)
         then [Orders(xs[a].id, OrdersOf(xs, a, k, known[xs[a].id]), snapshot)] else [])
  }

  // ---------- the code ----------

  class Handler {
    const options: Options
    var traces: seq<Trace>
    var bids: seq<LevelUpdate>
    var asks: seq<LevelUpdate>
    var cleared: seq<OrderUpdate>
    var layer: Layer
    var orders: seq<OrderUpdate>
    var securityId: int
    var security: Option<real>
    var isSnapshot: bool
    var anySnapshot: bool
    var out: seq<Out>

    constructor (options: Options)
      ensures this.options == options && out == [] && orders == []
    {
      this.options := options;
      traces, bids, asks, cleared, layer, orders := [], [], [], [], NO_LAYER, [];
      securityId, security, isSnapshot, anySnapshot, out := 0, None, false, false, [];
    }

    /** `traces` describes the first `k` levels, one by one, known security or not. */
    ghost predicate Traced(es: Book, k: nat)
      requires k <= |es|
      reads `traces
    {
      if options.marketByOrder then |traces| == k && forall i :: 0 <= i < k ==> traces[i] == TraceFor(es[i])
      else traces == []
    }

    /** The state of the level loop after `k` levels. */
    ghost predicate At(es: Book, k: nat, known: Known, start: seq<Out>)
      requires k <= |es|
      reads `out, `layer, `bids, `asks, `cleared, `securityId, `security, `isSnapshot, `traces, `anySnapshot
    {
      && anySnapshot == AnySnapshot(es, 0, k)
      && Traced(es, k)
      && (if k == 0 then securityId == 0 && security == None && Empty() && !isSnapshot && out == start
          else
            var a := StartOf(es, k);
            && securityId == es[a].id == es[k - 1].id
            && security == FactorOf(es, a, known)
            && isSnapshot == AnySnapshot(es, a, k)
            && Open(es, a, k, security, start + Outs(es, k - 1, known, options)))
    }

    ghost predicate Empty()
      reads `layer, `bids, `asks, `cleared
    {
      layer == NO_LAYER && bids == [] && asks == [] && cleared == []
    }

    /** The scratch buffers hold the run `a..k`. */
    ghost predicate Open(es: Book, a: nat, k: nat, factor: Option<real>, before: seq<Out>)
      requires a <= k <= |es|
      reads `layer, `bids, `asks, `cleared, `out
    {
      if factor.None? then Empty() && out == before
      else
        && layer == LayerOf(es, a, k, factor.value)
        && bids == Updates(es, a, k, factor.value, Bid)
        && asks == Updates(es, a, k, factor.value, Offer)
        && cleared == ClearedLevels(es, a, k, factor.value, options)
        && out == before + Checks(es, a, k)
    }

    /** Publishes and clears the scratch buffers. */
    method DispatchRun()
      modifies `out, `layer, `bids, `asks, `cleared
      ensures out == old(out) + Closing(securityId, old(layer), old(bids), old(asks), isSnapshot, old(cleared))
      ensures Empty()
    {
      DispatchLayer();
      DispatchLevels();
      DispatchCleared();
      Rebracket(old(out), LayerOut(securityId, old(layer)), LevelsOut(securityId, old(bids), old(asks), isSnapshot));
      Rebracket(old(out), LayerOut(securityId, old(layer)) + LevelsOut(securityId, old(bids), old(asks), isSnapshot),
                ClearedOut(securityId, old(cleared)));
    }

    method DispatchLayer()
      modifies `out, `layer
      ensures out == old(out) + LayerOut(securityId, old(layer)) && layer == NO_LAYER
    {
      if !(layer.bid.None? && layer.ask.None?) {
        out := out + [TopOfBook(securityId, layer)];
        layer := NO_LAYER;
      }
    }

    method DispatchLevels()
      modifies `out, `bids, `asks
      ensures out == old(out) + LevelsOut(securityId, old(bids), old(asks), isSnapshot) && bids == [] && asks == []
    {
      if bids != [] || asks != [] {
        out := out + [Levels(securityId, bids, asks, isSnapshot)];
        bids, asks := [], [];
      }
    }

    method DispatchCleared()
      modifies `out, `cleared
      ensures out == old(out) + ClearedOut(securityId, old(cleared)) && cleared == []
    {
      if cleared != [] {
        out := out + [Orders(securityId, cleared, false)];
        cleared := [];
      }
    }

    method Emplace(l: Level, factor: real)
      modifies `bids, `asks, `layer, `cleared
      ensures bids == old(bids) + if l.kind == Bid then [UpdateFor(l, factor)] else []
      ensures asks == old(asks) + if l.kind == Offer then [UpdateFor(l, factor)] else []
      ensures layer.bid == if l.kind == MarketBestBid then Scaled(l.price, factor) else old(layer).bid
      ensures layer.ask == if l.kind == MarketBestOffer then Scaled(l.price, factor) else old(layer).ask
      ensures cleared == old(cleared) + if Clears(l, options) then [ClearFor(l, factor)] else []
    {
      match l.kind {
        case Bid => bids := bids + [UpdateFor(l, factor)];
        case Offer => asks := asks + [UpdateFor(l, factor)];
        case MarketBestBid => layer := layer.(bid := Scaled(l.price, factor));
        case MarketBestOffer => layer := layer.(ask := Scaled(l.price, factor));
        case _ =>
      }
      if options.marketByOrder {
        var side := SideOf(l.kind);
        if l.action == Delete && side != Undefined && options.clearPriceLevel {
          cleared := cleared + [OrderUpdate(Scaled(l.price, factor), 0, 0, None, side, l.action)];
        }
      }
    }

    /** Level `k` is about to be added: its run, and no other, is open. */
    ghost predicate Ready(es: Book, k: nat, known: Known, start: seq<Out>)
      requires k < |es|
      reads `out, `layer, `bids, `asks, `cleared, `securityId, `security, `isSnapshot
    {
      var a := StartOf(es, k + 1);
      && securityId == es[a].id == es[k].id
      && security == FactorOf(es, a, known)
      && isSnapshot == AnySnapshot(es, a, k)
      && Open(es, a, k, security, start + Outs(es, k, known, options))
    }

    /** Ends the current run, if any, and looks up the next security. */
    method SwitchTo(ghost es: Book, ghost k: nat, id: int, known: Known, ghost start: seq<Out>)
      requires k < |es| && At(es, k, known, start) && es[k].id == id && id != securityId
      modifies `out, `layer, `bids, `asks, `cleared, `securityId, `security, `isSnapshot
      ensures Ready(es, k, known, start)
    {
      ghost var boundary := k > 0 && Boundary(es, k);
      if boundary {
        OutsCloses(es, k, known, options, start);
      }
      if security.Some? {
        DispatchRun();
      }
      securityId := id;
      security := if id in known then Some(known[id]) else None;
      isSnapshot := false;
    }

    /** Appends the level to the buffers of its security. */
    method AddLevel(es: Book, k: nat, ghost known: Known, ghost start: seq<Out>)
      requires k < |es| && Ready(es, k, known, start)
      requires anySnapshot == AnySnapshot(es, 0, k) && Traced(es, k)
      modifies `out, `layer, `bids, `asks, `cleared, `securityId, `security, `isSnapshot, `traces, `anySnapshot
      ensures At(es, k + 1, known, start)
    {
      ghost var a := StartOf(es, k + 1);
      Record(es, a, k);
      if security.Some? {
        AddToRun(es, a, k, es[k], security.value, start + Outs(es, k, known, options));
      }
    }

    method Record(es: Book, ghost a: nat, k: nat)
      requires a <= k < |es| && securityId == es[k].id
      requires isSnapshot == AnySnapshot(es, a, k) && anySnapshot == AnySnapshot(es, 0, k) && Traced(es, k)
      modifies `traces, `isSnapshot, `anySnapshot
      ensures isSnapshot == AnySnapshot(es, a, k + 1) && anySnapshot == AnySnapshot(es, 0, k + 1) && Traced(es, k + 1)
    {
      var l := es[k].item;
      SnapshotGrows(es, a, k);
      SnapshotGrows(es, 0, k);
      if l.rptSeq == 1 {
        isSnapshot := true;
        anySnapshot := true;
      }
      if options.marketByOrder {
        traces := traces + [Trace(securityId, SideOf(l.kind), l.price, l.action)];
      }
    }

    method AddToRun(ghost es: Book, ghost a: nat, ghost k: nat, x: Keyed<Level>, factor: real, ghost before: seq<Out>)
      requires a <= k < |es| && x == es[k] && Open(es, a, k, Some(factor), before)
      modifies `out, `bids, `asks, `layer, `cleared
      ensures Open(es, a, k + 1, Some(factor), before)
    {
      out := out + [Check(x.id, x.item.rptSeq)];
      Emplace(x.item, factor);
    }

    method ProcessLevel(es: Book, k: nat, known: Known, ghost start: seq<Out>)
      requires k < |es| && At(es, k, known, start)
      modifies `out, `layer, `bids, `asks, `cleared, `securityId, `security, `isSnapshot, `traces, `anySnapshot
      ensures At(es, k + 1, known, start)
    {
      if es[k].id != securityId {
        SwitchTo(es, k, es[k].id, known, start);
      } else {
        RunContinues(es, k, known, start);
      }
      AddLevel(es, k, known, start);
    }

    lemma RunContinues(es: Book, k: nat, known: Known, start: seq<Out>)
      requires k < |es| && At(es, k, known, start) && es[k].id == securityId
      ensures Ready(es, k, known, start)
    {
      if k > 0 {
        assert Outs(es, k, known, options) == Outs(es, k - 1, known, options);
      } else {
        assert start + [] == start;
      }
    }

    /** The first pass: all levels, then the last open run. */
    method ProcessLevels(es: Book, known: Known)
      modifies `out, `layer, `bids, `asks, `cleared, `securityId, `security, `isSnapshot, `traces, `anySnapshot
      ensures out == old(out) + Outs(es, |es|, known, options) && Empty()
      ensures anySnapshot == AnySnapshot(es, 0, |es|) && Traced(es, |es|)
    {
      traces, anySnapshot := [], false;
      layer, bids, asks, cleared := NO_LAYER, [], [], [];
      securityId, security, isSnapshot := 0, None, false;
      ghost var start := out;
      ForEachLevel(es, known, start);
      LastRun(es, known, start);
    }

    method ForEachLevel(es: Book, known: Known, ghost start: seq<Out>)
      requires At(es, 0, known, start)
      modifies `out, `layer, `bids, `asks, `cleared, `securityId, `security, `isSnapshot, `traces, `anySnapshot
      ensures At(es, |es|, known, start)
    {
      var k := 0;
      while k < |es|
        invariant 0 <= k <= |es| && At(es, k, known, start)
      {
        ProcessLevel(es, k, known, start);
        k := k + 1;
      }
    }

    method LastRun(ghost es: Book, ghost known: Known, ghost start: seq<Out>)
      requires At(es, |es|, known, start)
      modifies `out, `layer, `bids, `asks, `cleared
      ensures out == start + Outs(es, |es|, known, options) && Empty()
    {
      ghost var n := |es|;
      if n > 0 {
        OutsCloses(es, n, known, options, start);
      }
      if security.Some? {
        DispatchRun();
      }
    }

    // ---------- second pass: the order entries ----------

    /** The state of the order loop after `j` resolved entries. */
    ghost predicate AtOrders(xs: seq<Keyed<Resolved>>, j: nat, known: Known, start: seq<Out>)
      requires j <= |xs|
      reads `out, `orders, `securityId, `security, `anySnapshot
    {
      if j == 0 then securityId == 0 && security == None && orders == [] && out == start
      else
        var a := StartOf(xs, j);
        && securityId == xs[a].id == xs[j - 1].id
        && security == FactorOf(xs, a, known)
        && out == start + OrderOuts(xs, j - 1, known, anySnapshot)
        && orders == if security.Some? then OrdersOf(xs, a, j, security.value) else []
    }

    ghost predicate ReadyForOrder(xs: seq<Keyed<Resolved>>, j: nat, known: Known, start: seq<Out>)
      requires j < |xs|
      reads `out, `orders, `securityId, `security, `anySnapshot
    {
      var a := StartOf(xs, j + 1);
      && securityId == xs[a].id == xs[j].id
      && security == FactorOf(xs, a, known)
      && out == start + OrderOuts(xs, j, known, anySnapshot)
      && orders == if security.Some? then OrdersOf(xs, a, j, security.value) else []
    }

    method DispatchOrders()
      modifies `out, `orders
      ensures orders == []
      ensures out == old(out) + if old(orders) == [] then [] else [Orders(securityId, old(orders), anySnapshot)]
    {
      if orders == [] {
        return;
      }
      out := out + [Orders(securityId, orders, anySnapshot)];
      orders := [];
    }

    method SwitchOrdersTo(ghost xs: seq<Keyed<Resolved>>, ghost j: nat, id: int, known: Known, ghost start: seq<Out>)
      requires j < |xs| && AtOrders(xs, j, known, start) && xs[j].id == id && id != securityId
      modifies `out, `orders, `securityId, `security
      ensures ReadyForOrder(xs, j, known, start)
    {
      ghost var boundary := j > 0 && Boundary(xs, j);
      if boundary {
        OrderOutsCloses(xs, j, known, anySnapshot, start);
      }
      if security.Some? {
        DispatchOrders();
      }
      securityId := id;
      security := if id in known then Some(known[id]) else None;
    }

    method ProcessOrder(
      ghost xs: seq<Keyed<Resolved>>, ghost j: nat, t: Trace, r: OrderRef, known: Known, ghost start: seq<Out>)
      requires j < |xs| && AtOrders(xs, j, known, start) && xs[j] == Keyed(t.id, Resolved(r, t.side, t.price))
      modifies `out, `orders, `securityId, `security
      ensures AtOrders(xs, j + 1, known, start)
    {
      if t.id != securityId {
        SwitchOrdersTo(xs, j, t.id, known, start);
      }
      assert ReadyForOrder(xs, j, known, start);
      if security.Some? {
        orders := orders + [OrderFor(Resolved(r, t.side, t.price), security.value)];
      }
    }

    /** All order entries, then the last open run. */
    method ProcessOrders(ghost es: Book, rs: seq<OrderRef>, known: Known)
      requires orders == []
      requires options.marketByOrder && Traced(es, |es|)
      modifies `out, `orders, `securityId, `security
      ensures orders == []
      ensures var xs := Resolve(es, rs, |rs|); out == old(out) + OrderOuts(xs, |xs|, known, anySnapshot)
    {
      ghost var xs := Resolve(es, rs, |rs|);
      ghost var start := out;
      securityId, security := 0, None;
      ForEachOrder(es, rs, xs, known, start);
      LastOrders(xs, known, start);
    }

    /** The state of the order loop after `i` order entries, `j` of them resolved. */
    ghost predicate AfterEntries(
      es: Book, rs: seq<OrderRef>, i: nat, xs: seq<Keyed<Resolved>>, j: nat, known: Known, start: seq<Out>)
      reads `traces, `out, `orders, `securityId, `security, `anySnapshot
    {
      && options.marketByOrder && Traced(es, |es|)
      && i <= |rs| && xs == Resolve(es, rs, |rs|) && j == |Resolve(es, rs, i)| <= |xs|
      && AtOrders(xs, j, known, start)
    }

    method ForEachOrder(
      ghost es: Book, rs: seq<OrderRef>, ghost xs: seq<Keyed<Resolved>>, known: Known, ghost start: seq<Out>)
      requires AfterEntries(es, rs, 0, xs, 0, known, start)
      modifies `out, `orders, `securityId, `security
      ensures AfterEntries(es, rs, |rs|, xs, |xs|, known, start)
    {
      ghost var j := 0;
      var i := 0;
      while i < |rs|
        invariant 0 <= i <= |rs| && AfterEntries(es, rs, i, xs, j, known, start)
      {
        j := ProcessReference(es, rs, i, xs, j, known, start);
        i := i + 1;
      }
    }

    /** Entries without a reference, or with one beyond the levels, are skipped. */
    method ProcessReference(
      ghost es: Book, rs: seq<OrderRef>, i: nat, ghost xs: seq<Keyed<Resolved>>, ghost j: nat, known: Known,
      ghost start: seq<Out>) returns (ghost j': nat)
      requires i < |rs| && AfterEntries(es, rs, i, xs, j, known, start)
      modifies `out, `orders, `securityId, `security
      ensures AfterEntries(es, rs, i + 1, xs, j', known, start)
    {
      var r := rs[i];
      j' := j;
      NextResolved(es, rs, i, xs, j);
      if r.reference == 0 {
        return;
      }
      var index := r.reference - 1;
      if !(index < |traces|) {
        return;
      }
      ProcessOrder(xs, j, traces[index], r, known, start);
      j' := j + 1;
    }

    method LastOrders(ghost xs: seq<Keyed<Resolved>>, ghost known: Known, ghost start: seq<Out>)
      requires AtOrders(xs, |xs|, known, start)
      modifies `out, `orders
      ensures orders == []
      ensures out == start + OrderOuts(xs, |xs|, known, anySnapshot)
    {
      ghost var n := |xs|;
      if n > 0 {
        OrderOutsCloses(xs, n, known, anySnapshot, start);
      }
      if security.Some? {
        DispatchOrders();
      }
    }

    /** The handler of one message. */
    method Handle(es: Book, rs: seq<OrderRef>, known: Known)
      requires orders == []
      modifies this
      ensures Empty() && orders == []
      ensures out == old(out) + Published(es, rs, known, options)
    {
      ProcessLevels(es, known);
      if options.marketByOrder {
        ProcessOrders(es, rs, known);
        ghost var xs := Resolve(es, rs, |rs|);
        Rebracket(old(out), Outs(es, |es|, known, options), OrderOuts(xs, |xs|, known, anySnapshot));
      } else {
        assert Published(es, rs, known, options) == Outs(es, |es|, known, options);
      }
    }
  }

  /** Everything one message leads to. */
  function Published(es: Book, rs: seq<OrderRef>, known: Known, o: Options): seq<Out> {
    var xs := Resolve(es, rs, |rs|);
    Outs(es, |es|, known, o)
    + (if o.marketByOrder then OrderOuts(xs, |xs|, known, AnySnapshot(es, 0, |es|)) else [])
  }

  lemma OrderOutsCloses(xs: seq<Keyed<Resolved>>, k: nat, known: Known, snapshot: bool, start: seq<Out>)
    requires 1 <= k <= |xs| && Boundary(xs, k)
    ensures var a := StartOf(xs, k);
      start + OrderOuts(xs, k, known, snapshot) == start + OrderOuts(xs, k - 1, known, snapshot) +
      if RunKnown(xs, a, known) then [Orders(xs[a].id, OrdersOf(xs, a, k, known[xs[a].id]), snapshot)] else []
  {
  }

  lemma {:induction false} ResolvePrefix(es: Book, rs: seq<OrderRef>, i: nat, n: nat)
    requires i <= n <= |rs|
    ensures Resolve(es, rs, i) <= Resolve(es, rs, n)
    decreases n
  {
    if i < n {
      ResolvePrefix(es, rs, i, n - 1);
    }
  }

  /** If `r` is valid, it is the resolved entry number `j`. */
  ghost predicate PointsAt(es: Book, r: OrderRef, xs: seq<Keyed<Resolved>>, j: nat) {
    ValidReference(r, |es|) ==>
      var t := TraceFor(es[r.reference - 1]);
      j < |xs| && xs[j] == Keyed(t.id, Resolved(r, t.side, t.price))
  }

  lemma NextResolved(es: Book, rs: seq<OrderRef>, i: nat, xs: seq<Keyed<Resolved>>, j: nat)
    requires i < |rs| && xs == Resolve(es, rs, |rs|) && j == |Resolve(es, rs, i)|
    ensures PointsAt(es, rs[i], xs, j)
    ensures |Resolve(es, rs, i + 1)| == if ValidReference(rs[i], |es|) then j + 1 else j
  {
    ResolvePrefix(es, rs, i + 1, |rs|);
  }

  lemma SnapshotGrows(es: Book, a: nat, k: nat)
    requires a <= k < |es|
    ensures AnySnapshot(es, a, k + 1) == (AnySnapshot(es, a, k) || es[k].item.rptSeq == 1)
  {
  }
}
