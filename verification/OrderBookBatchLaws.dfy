/** Over whole runs, every security receives its own updates, once, in order, at the
    end of each event, however many other securities share the batch. */
module OrderBookBatchLaws {
  import opened Grouping
  import opened Market
  import opened Optional
  import opened RefreshBook
  import opened OrderBookBatch
  import opened Sequences
  import Laws = RefreshBookLaws

  // ---------- the reference: one security on its own ----------

  /** What one security has been sent, and what still waits. */
  datatype Ledger = Ledger(sent: seq<OrderUpdate>, waiting: seq<OrderUpdate>)

  /** The share of its security in an entry: bids are bought, offers are sold, and everything
      else is left out. */
  function ShareIn(factor: real): Item -> seq<OrderUpdate> {
    (x: Item) =>
      var price := Laws.DuePrice(x.price, factor);
      if x.kind == Bid then [OrderUpdate(price, x.size, x.priority, Some(x.orderId), Buy, x.action)]
      else if x.kind == Offer then [OrderUpdate(price, x.size, x.priority, Some(x.orderId), Sell, x.action)]
      else []
  }

  /** What the entries of a message hold for a security. */
  function Share(m: Message, id: int): seq<OrderUpdate> {
    if id in m.known then Own(m.entries, |m.entries|, id, ShareIn(m.known[id])) else []
  }

  /** Updates wait until a message ends the event; a reset drops those that wait. */
  function Book(l: Ledger, e: Event, id: int): Ledger {
    match e
    case Reset => l.(waiting := [])
    case Arrive(m) =>
      var waiting := l.waiting + Share(m, id);
      if m.last then Ledger(l.sent + waiting, []) else l.(waiting := waiting)
  }

  function BookAll(l: Ledger, es: seq<Event>, id: int): Ledger
    decreases |es|
  {
    if es == [] then l else BookAll(Book(l, es[0], id), es[1..], id)
  }

  // ---------- runs ----------

  /** A security stays known once it is known. */
  predicate Grows(known: set<int>, es: seq<Event>)
    decreases |es|
  {
    es == [] ||
    (match es[0]
     case Reset => Grows(known, es[1..])
     case Arrive(m) => known <= m.known.Keys && Grows(m.known.Keys, es[1..]))
  }

  ghost predicate Run(trace: seq<State>, es: seq<Event>)
    decreases |es|
  {
    && |trace| == |es| + 1
    && (es != [] ==> Step(trace[0], es[0], trace[1]) && Run(trace[1..], es[1..]))
  }

  function SentIn(id: int): Dispatch -> seq<OrderUpdate> {
    (d: Dispatch) => if d.id == id then d.orders else []
  }

  /** All updates sent to a security, in order. */
  function SentFor(outs: seq<Dispatch>, id: int): seq<OrderUpdate> { FlatMap(outs, SentIn(id)) }

  /** Every waiting update is of a touched security, and those are known. */
  ghost predicate Inv(s: State, known: set<int>) {
    && s.ids <= known
    && forall i :: 0 <= i < |s.pending| ==> s.pending[i].id in s.ids
  }

  // ---------- selection ----------

  lemma LiveIsKnown(xs: seq<Keyed<Item>>, k: nat, known: Known)
    requires k < |xs|
    ensures IsLive(xs, k, known) <==> xs[k].id in known && !SkippedAt(xs, k)
  {
    StartsUniform(xs, k + 1);
  }

  /** What entry `j` adds for a security is `f` of it, if it is looked up. */
  ghost predicate AddsAs(xs: seq<Keyed<Item>>, j: nat, known: Known, id: int, f: Item -> seq<OrderUpdate>)
    requires j < |xs|
  {
    Waiting(AddedBy(xs, j, known), id) == if xs[j].id == id && !SkippedAt(xs, j) then f(xs[j].item) else []
  }

  lemma AddsItsShare(xs: seq<Keyed<Item>>, j: nat, known: Known, id: int)
    requires j < |xs| && id in known
    ensures AddsAs(xs, j, known, id, ShareIn(known[id]))
  {
    LiveIsKnown(xs, j, known);
    var one := AddedBy(xs, j, known);
    if one != [] {
      FlatMapOne(one[0], UpdateIn(id));
    }
  }

  lemma {:induction false} AddedIsLive(
    xs: seq<Keyed<Item>>, k: nat, known: Known, id: int, f: Item -> seq<OrderUpdate>)
    requires k <= |xs| && forall j :: 0 <= j < |xs| ==> AddsAs(xs, j, known, id, f)
    ensures Waiting(Added(xs, k, known), id) == Live(xs, k, id, f)
  {
    if k > 0 {
      AddedIsLive(xs, k - 1, known, id, f);
      assert AddsAs(xs, k - 1, known, id, f);
      WaitingAppends(Added(xs, k - 1, known), AddedBy(xs, k - 1, known), id);
    }
  }

  lemma WaitingAppends(a: seq<Pending>, b: seq<Pending>, id: int)
    ensures Waiting(a + b, id) == Waiting(a, id) + Waiting(b, id)
  {
    FlatMapAppend(a, b, UpdateIn(id));
  }

  lemma {:induction false} AddedAreKnown(xs: seq<Keyed<Item>>, k: nat, known: Known)
    requires k <= |xs|
    ensures forall i :: 0 <= i < |Added(xs, k, known)| ==> Added(xs, k, known)[i].id in known
  {
    if k > 0 {
      AddedAreKnown(xs, k - 1, known);
    }
  }

  /** Unknown securities are not in the batch. */
  lemma NoneAdded(xs: seq<Keyed<Item>>, known: Known, id: int)
    requires id !in known
    ensures Waiting(Added(xs, |xs|, known), id) == []
  {
    AddedAreKnown(xs, |xs|, known);
    NoneWaiting(Added(xs, |xs|, known), id);
  }

  lemma NoneWaiting(ps: seq<Pending>, id: int)
    requires forall i :: 0 <= i < |ps| ==> ps[i].id != id
    ensures Waiting(ps, id) == []
  {
    FlatNone(ps, |ps|, UpdateIn(id));
  }

  /** No bid or offer of a known security zero leads the message. */
  ghost predicate NothingLeads(m: Message, id: int) {
    id == 0 && id in m.known ==>
      forall k :: 0 <= k < Lead(m.entries) ==>
        m.entries[k].item.kind != Bid && m.entries[k].item.kind != Offer
  }

  lemma SharesLostIff(xs: seq<Keyed<Item>>, factor: real)
    ensures AllEmpty(xs, Lead(xs), ShareIn(factor)) <==>
      forall k :: 0 <= k < Lead(xs) ==> xs[k].item.kind != Bid && xs[k].item.kind != Offer
  {
    var f := ShareIn(factor);
    assert forall j :: 0 <= j < |xs| ==> (f(xs[j].item) == [] <==> xs[j].item.kind != Bid && xs[j].item.kind != Offer);
  }

  /** What a message adds for a security is what it holds for it, if and only if the
      security does not have id zero or none of its bids and offers lead the message. */
  lemma AddedIsShareIff(m: Message, id: int)
    ensures Waiting(Added(m.entries, |m.entries|, m.known), id) == Share(m, id) <==> NothingLeads(m, id)
  {
    if id in m.known {
      forall j | 0 <= j < |m.entries|
        ensures AddsAs(m.entries, j, m.known, id, ShareIn(m.known[id]))
      {
        AddsItsShare(m.entries, j, m.known, id);
      }
      AddedIsLive(m.entries, |m.entries|, m.known, id, ShareIn(m.known[id]));
      LiveIsOwnIff(m.entries, id, ShareIn(m.known[id]));
      SharesLostIff(m.entries, m.known[id]);
    } else {
      NoneAdded(m.entries, m.known, id);
    }
  }

  lemma {:induction false} AddedIsTouched(xs: seq<Keyed<Item>>, k: nat, known: Known)
    requires k <= |xs|
    ensures Touched(xs, k, known) <= known.Keys
    ensures forall i :: 0 <= i < |Added(xs, k, known)| ==> Added(xs, k, known)[i].id in Touched(xs, k, known)
  {
    if k > 0 {
      AddedIsTouched(xs, k - 1, known);
      LiveIsKnown(xs, k - 1, known);
    }
  }

  // ---------- flushing ----------

  /** A flush sends a security exactly what waits for it. */
  lemma FlushSends(outs: seq<Dispatch>, ps: seq<Pending>, ids: set<int>, known: Known, unseen: set<int>, id: int)
    requires IsFlush(outs, ps, ids, known, unseen) && ids <= known.Keys
    requires forall i :: 0 <= i < |ps| ==> ps[i].id in ids
    ensures SentFor(outs, id) == Waiting(ps, id)
  {
    if id in ids {
      var j :| 0 <= j < |outs| && outs[j].id == id;
      FlatSingle(outs, |outs|, SentIn(id), j);
    } else {
      FlatNone(outs, |outs|, SentIn(id));
      FlatNone(ps, |ps|, UpdateIn(id));
    }
  }

  /** The end of an event is one dispatch for each security that was touched since the last one,
      and none for any other; each is marked as a snapshot exactly if its security has not had
      a report number yet. */
  lemma EachTouchedOnce(s: State, m: Message, s': State, id: int)
    requires Step(s, Arrive(m), s') && m.last
    ensures s.out <= s'.out
    ensures var sent := s'.out[|s.out|..];
      && (id in s.ids + Touched(m.entries, |m.entries|, m.known) && id in m.known <==>
            exists i :: 0 <= i < |sent| && sent[i].id == id)
      && (forall i, j :: 0 <= i < j < |sent| ==> sent[i].id != sent[j].id)
      && (forall i :: 0 <= i < |sent| ==> (sent[i].snapshot <==> sent[i].id in m.unseen))
  {
    var n := |m.entries|;
    var pending, ids := s.pending + Added(m.entries, n, m.known), s.ids + Touched(m.entries, n, m.known);
    var outs :| IsFlush(outs, pending, ids, m.known, m.unseen) && s' == State([], {}, s.out + outs);
    assert s'.out[|s.out|..] == outs;
  }

  /** An entry touches its security if it is known and not in a leading run of id zero,
      whatever its kind. */
  lemma {:induction false} TouchedIff(xs: seq<Keyed<Item>>, k: nat, known: Known, id: int)
    requires k <= |xs|
    ensures id in Touched(xs, k, known) <==>
      id in known && exists j :: 0 <= j < k && xs[j].id == id && (id == 0 ==> j >= Lead(xs))
  {
    if k > 0 {
      TouchedIff(xs, k - 1, known, id);
      LiveIsKnown(xs, k - 1, known);
      SkippedIffLeading(xs, k - 1);
      OneMoreTouch(xs, k - 1, k, id);
      LeadFromIs(xs, 0);
    }
  }

  lemma OneMoreTouch(xs: seq<Keyed<Item>>, k: nat, n: nat, id: int)
    requires n == k + 1 <= |xs|
    ensures (exists j :: 0 <= j < n && xs[j].id == id && (id == 0 ==> j >= Lead(xs))) <==>
      (exists j :: 0 <= j < k && xs[j].id == id && (id == 0 ==> j >= Lead(xs)))
      || (xs[k].id == id && (id == 0 ==> k >= Lead(xs)))
  {
  }

  // ---------- the theorem ----------

  ghost predicate Agrees(s: State, l: Ledger, id: int) {
    SentFor(s.out, id) == l.sent && Waiting(s.pending, id) == l.waiting
  }

  /** The entries of a message join what waits. */
  lemma CollectAgrees(s: State, m: Message, l: Ledger, known: set<int>, id: int) returns (w: State)
    requires Inv(s, known) && Agrees(s, l, id) && NothingLeads(m, id) && known <= m.known.Keys
    ensures w == State(s.pending + Added(m.entries, |m.entries|, m.known),
                       s.ids + Touched(m.entries, |m.entries|, m.known), s.out)
    ensures Inv(w, m.known.Keys)
    ensures Waiting(w.pending, id)
         == l.waiting + Share(m, id)
  {
    var n := |m.entries|;
    var added := Added(m.entries, n, m.known);
    AddedIsShareIff(m, id);
    AddedIsTouched(m.entries, n, m.known);
    FlatMapAppend(s.pending, added, UpdateIn(id));
    w := State(s.pending + added, s.ids + Touched(m.entries, n, m.known), s.out);
  }

  lemma StepAgrees(s: State, e: Event, s': State, l: Ledger, known: set<int>, id: int)
    requires Step(s, e, s') && Inv(s, known) && Agrees(s, l, id)
    requires e.Arrive? ==> known <= e.m.known.Keys && NothingLeads(e.m, id)
    ensures Agrees(s', Book(l, e, id), id)
    ensures Inv(s', if e.Arrive? then e.m.known.Keys else known)
  {
    if e.Arrive? {
      var m := e.m;
      var w := CollectAgrees(s, m, l, known, id);
      if m.last {
        var outs :| IsFlush(outs, w.pending, w.ids, m.known, m.unseen) && s' == State([], {}, s.out + outs);
        FlushSends(outs, w.pending, w.ids, m.known, m.unseen, id);
        FlatMapAppend(s.out, outs, SentIn(id));
      }
    }
  }

  /** In every run: each security has been sent exactly its own updates up to the last
      end of event, in order, and exactly the later ones wait. */
  lemma {:induction false} BatchingIsPerSecurity(
    trace: seq<State>, es: seq<Event>, l: Ledger, known: set<int>, id: int)
    requires Run(trace, es) && Grows(known, es) && Inv(trace[0], known) && Agrees(trace[0], l, id)
    requires forall e :: e in es && e.Arrive? ==> NothingLeads(e.m, id)
    ensures Agrees(trace[|es|], BookAll(l, es, id), id)
    decreases |es|
  {
    if es != [] {
      StepAgrees(trace[0], es[0], trace[1], l, known, id);
      BatchingIsPerSecurity(trace[1..], es[1..], Book(l, es[0], id),
                            if es[0].Arrive? then es[0].m.known.Keys else known, id);
    }
  }
}
