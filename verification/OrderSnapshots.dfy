/** Order book recovery: which chunks are put together, when a gap spoils them, and when an
    offered order book is of one snapshot. */
module OrderSnapshots {
  import opened PacketFrame
  import opened FeedArbitration
  import opened Recovery
  import opened RecoverySafety
  import opened Sequences
  import CA = ChunkAssembly

  // ---------- market by order: chunks and gaps ----------

  predicate OffersMbo(o: Output, id: int) { o.Offered? && o.kind == Mbo && o.id == id }

  /** The log grew, without an MBO snapshot offered for `id`. */
  ghost predicate GrewWithoutOffer(log: seq<Output>, log': seq<Output>, id: int) {
    log <= log' && forall j :: |log| <= j < |log'| ==> !OffersMbo(log'[j], id)
  }

  lemma PutGrows(s: System, i: int, r: (Book, seq<Output>), id: int)
    requires forall o :: o in r.1 ==> !OffersMbo(o, id)
    ensures GrewWithoutOffer(s.log, Put(s, i, r).log, id)
  {
    var log' := s.log + r.1;
    assert forall j :: |s.log| <= j < |log'| ==> log'[j] in r.1;
  }

  /** The chunks held for `id` are the same, and it is as known as before. */
  predicate SameAssembly(s: System, s': System, id: int) {
    && (id in s.books <==> id in s'.books)
    && (id in s.books ==> s'.books[id].assembly == s.books[id].assembly)
  }

  lemma ItemQuietForMbo(s: System, item: Item, frame: Seqno, id: int)
    ensures var s' := StepItem(s, item, frame); SameAssembly(s, s', id) && GrewWithoutOffer(s.log, s'.log, id)
  {
    if item.id in s.books {
      match item {
        case Check(i, rptSeq) => PutGrows(s, i, CheckReport(s.books[i], i, rptSeq, frame), id);
        case Dispatch(kind, i, script) =>
          ToldIsQuiet(kind, i, script, frame);
          PutGrows(s, i, Incrementally(s.books[i], kind, i, script, frame), id);
      }
    }
  }

  lemma {:induction false} ItemsQuietForMbo(s: System, items: seq<Item>, frame: Seqno, id: int)
    ensures var s' := StepItems(s, items, frame); SameAssembly(s, s', id) && GrewWithoutOffer(s.log, s'.log, id)
    decreases |items|
  {
    if items != [] {
      ItemQuietForMbo(s, items[0], frame, id);
      ItemsQuietForMbo(StepItem(s, items[0], frame), items[1..], frame, id);
    }
  }

  /** Only a definition and an order book snapshot of `id` touch its chunks, and only the
      latter offers an order book. */
  lemma QuietForMbo(s: System, e: Event, id: int)
    requires !(e.MboSnapshot? && e.id == id)
    ensures GrewWithoutOffer(s.log, StepEvent(s, e).log, id)
    ensures !e.Define? ==> SameAssembly(s, StepEvent(s, e), id)
  {
    match e
    case Define(_) =>
    case Deliver(frame, items) => ItemsQuietForMbo(Opened(s, frame), items, frame, id);
    case ChannelReset =>
    case MbpSnapshot(i, number, nonEmpty, script) =>
      if i in s.books {
        PublishedIsQuiet(Mbp, i, script.calls, number);
        PutGrows(s, i, OnMbpSnapshot(s.books[i], i, number, nonEmpty, script, s.window), id);
      }
    case MboSnapshot(i, number, current, total, ids, script) =>
      if i in s.books {
        PublishedIsQuiet(Mbo, i, script.calls, number);
        PutGrows(s, i, OnMboSnapshot(s.books[i], i, number, current, total, ids, script, s.window), id);
      }
  }

  /** An event that brings `id` no chunk other than chunk one, while chunk one is already
      held, changes nothing in its assembly and offers nothing. */
  lemma StuckStep(s: System, e: Event, id: int)
    requires id in s.books && s.books[id].assembly.total != 0 && s.books[id].assembly.last == 1
    requires e.MboSnapshot? && e.id == id ==> e.current == 1
    ensures var s' := StepEvent(s, e);
      id in s'.books && s'.books[id].assembly == s.books[id].assembly && GrewWithoutOffer(s.log, s'.log, id)
  {
    if e.MboSnapshot? && e.id == id {
      PutGrows(s, id, OnMboSnapshot(s.books[id], id, e.number, e.current, e.total, e.ids, e.script, s.window), id);
    } else {
      QuietForMbo(s, e, id);
    }
  }

  /** Once a single-chunk snapshot has gone through, no later one does: in every
      continuation whose MBO snapshots for the security are single-chunk, whatever gaps,
      frames and resets it contains, none is offered to the sequencer again. */
  lemma {:induction false} SingleChunkRecoveryWorksOnce(s: System, es: seq<Event>, id: int)
    requires id in s.books && s.books[id].assembly.total != 0 && s.books[id].assembly.last == 1
    requires forall e :: e in es && e.MboSnapshot? && e.id == id ==> e.current == 1
    ensures GrewWithoutOffer(s.log, Execute(s, es).log, id)
    decreases |es|
  {
    if es != [] {
      StuckStep(s, es[0], id);
      SingleChunkRecoveryWorksOnce(StepEvent(s, es[0]), es[1..], id);
    }
  }

  /** The premise of the lemma above is what a single-chunk snapshot leaves behind. */
  lemma SingleChunkLeavesState(s: System, id: int, number: Seqno, ids: seq<nat>, script: Script)
    requires id in s.books && s.books[id].assembly == CA.Idle() && Passes(s.books[id].mbo, number)
    ensures var s' := StepEvent(s, MboSnapshot(id, number, 1, 1, ids, script));
      && |s'.log| > |s.log| && OffersMbo(s'.log[|s.log|], id)
      && s'.books[id].assembly.total != 0 && s'.books[id].assembly.last == 1
  {
  }

  /** Chunks are not tied to a snapshot: a chunk read before a gap is offered after it,
      together with a chunk of a newer snapshot. */
  lemma MixedSnapshotIsOffered() returns (es: seq<Event>, s: System)
    ensures Executable(START, es) && s == Execute(START, es)
    ensures LatestGap(s.log, 7) == 2
    ensures Last(s.log) == Offered(Mbo, 7, 2, 2, true, [Order(100, 1), Order(200, 2)])
  {
    var none := Script([], false);
    var half;
    es, half := HalfReadAtGap(none);
    var e := MboSnapshot(7, 2, 2, 2, [200], none);
    s := StepEvent(half, e);
    SecondChunkOffers(half, 2, none);
    assert Front(s.log) == half.log;
    OneMoreEvent(START, es, e);
    es := es + [e];
  }

  /** A first gap. */
  lemma FirstGap() returns (es: seq<Event>, s: System)
    ensures Executable(START, es) && s == Execute(START, es)
    ensures s.window == Window(1, 1) && LatestGap(s.log, 7) == 1
    ensures 7 in s.books && s.books[7] == Book(5, 1, 1, CA.Idle())
  {
    var e0, e1 := Define(7), Deliver(1, [Check(7, 5)]);
    var s0 := StepEvent(START, e0);
    s := StepEvent(s0, e1);
    assert s == StepItem(Opened(s0, 1), Check(7, 5), 1);
    var before, stale := s0.log + [Delivered(1)], [Stale(Mbp, 7), Stale(Mbo, 7)];
    assert s.log == (before + [Gap(7, 1)]) + stale;
    QuietSuffix(before + [Gap(7, 1)], stale, 7);
    OneMoreEvent(START, [], e0);
    OneMoreEvent(START, [] + [e0], e1);
    es := [] + [e0] + [e1];
  }

  /** A first gap, and then the first of two chunks. */
  lemma HalfRead(none: Script) returns (es: seq<Event>, s: System)
    ensures Executable(START, es) && s == Execute(START, es)
    ensures s.window == Window(1, 1) && LatestGap(s.log, 7) == 1
    ensures 7 in s.books && s.books[7].mbo == 1 && s.books[7].rptSeq == 5
    ensures s.books[7].assembly == CA.Assembly(2, 1, [Order(100, 1)])
  {
    var flagged;
    es, flagged := FirstGap();
    var e := MboSnapshot(7, 1, 1, 2, [100], none);
    s := StepEvent(flagged, e);
    assert Tagged([100], 1) == [Order(100, 1)] && flagged.log + [] == flagged.log;
    OneMoreEvent(START, es, e);
    es := es + [e];
  }

  /** A gap arrives between the first and the second chunk of a snapshot. */
  lemma HalfReadAtGap(none: Script) returns (es: seq<Event>, s: System)
    ensures Executable(START, es) && s == Execute(START, es)
    ensures s.window == Window(1, 2) && LatestGap(s.log, 7) == 2
    ensures 7 in s.books && s.books[7].mbo == 2 && s.books[7].assembly == CA.Assembly(2, 1, [Order(100, 1)])
  {
    var half;
    es, half := HalfRead(none);
    var e := Deliver(2, [Check(7, 9)]);
    s := StepEvent(half, e);
    assert s == StepItem(Opened(half, 2), Check(7, 9), 2);
    var before, stale := half.log + [Delivered(2)], [Stale(Mbp, 7), Stale(Mbo, 7)];
    assert s.log == (before + [Gap(7, 2)]) + stale;
    QuietSuffix(before + [Gap(7, 2)], stale, 7);
    OneMoreEvent(START, es, e);
    es := es + [e];
  }

  /** Even without a gap in between, chunks of two snapshots are offered as one order book. */
  lemma SnapshotsMixWithoutGap() returns (es: seq<Event>, s: System)
    ensures Executable(START, es) && s == Execute(START, es)
    ensures s.log != [] && Last(s.log).Offered? && Last(s.log).id == 7 && LatestGap(Front(s.log), 7) == 1
    ensures Last(s.log).contents == [Order(100, 1), Order(200, 9)]
  {
    var none := Script([], false);
    var half;
    es, half := HalfRead(none);
    var e := MboSnapshot(7, 9, 2, 2, [200], none);
    s := StepEvent(half, e);
    SecondChunkOffers(half, 9, none);
    assert Front(s.log) == half.log;
    OneMoreEvent(START, es, e);
    es := es + [e];
  }

  /** The second chunk completes what is held of the first. */
  lemma SecondChunkOffers(s: System, number: Seqno, none: Script)
    requires 7 in s.books && Passes(s.books[7].mbo, number) && none == Script([], false)
    requires s.books[7].assembly == CA.Assembly(2, 1, [Order(100, 1)])
    ensures var flag := s.books[7].mbo;
      StepEvent(s, MboSnapshot(7, number, 2, 2, [200], none)).log == s.log +
      [Offered(Mbo, 7, number, flag, Force(s.window, flag, number), [Order(100, 1), Order(200, number)])]
  {
    assert Tagged([200], number) == [Order(200, number)];
    assert [Order(100, 1)] + [Order(200, number)] == [Order(100, 1), Order(200, number)];
    assert CA.Offer(s.books[7].assembly, CA.Chunk(2, 2, [Order(200, number)])).1
        == CA.Call([Order(100, 1), Order(200, number)], true, false);
    assert Published(Mbo, 7, none.calls, number) == [];
  }

  lemma OneMoreEvent(s: System, es: seq<Event>, e: Event)
    requires Executable(s, es) && EventEnabled(Execute(s, es), e)
    ensures Executable(s, es + [e]) && Execute(s, es + [e]) == StepEvent(Execute(s, es), e)
  {
    ExecuteAppend(s, es, [e]);
    var s' := Execute(s, es);
    assert [e][1..] == [];
    assert Execute(StepEvent(s', e), []) == StepEvent(s', e) && Executable(StepEvent(s', e), []);
  }

  // ---------- chunks against gaps ----------

  /** Every order held for `id` is at least as new as its latest gap. */
  ghost predicate Clean(s: System, id: int) {
    id in s.books ==> AllSince(s.books[id].assembly.orders, LatestGap(s.log, id))
  }

  ghost predicate AllSince(orders: seq<Order>, n: int) {
    forall o :: o in orders ==> o.asOf >= n
  }

  /** The report number stored for `id` after an item, and whether the item shows a gap. */
  function ReportAfter(last: Seqno, item: Item, id: int): Seqno {
    if item.Check? && item.id == id && item.rptSeq != 0 then item.rptSeq else last
  }

  predicate ShowsGap(last: Seqno, item: Item, id: int) { item.Check? && item.id == id && IsGap(last, item.rptSeq) }

  /** A frame with these items shows a gap of `id`, whose stored report number is `last`. */
  predicate HasGap(last: Seqno, items: seq<Item>, id: int)
    decreases |items|
  {
    items != [] && (ShowsGap(last, items[0], id) || HasGap(ReportAfter(last, items[0], id), items[1..], id))
  }

  lemma GapAfterItem(s: System, item: Item, frame: Seqno, id: int)
    requires id in s.books
    ensures var s' := StepItem(s, item, frame);
      && id in s'.books && s'.books[id].rptSeq == ReportAfter(s.books[id].rptSeq, item, id)
      && LatestGap(s'.log, id) == if ShowsGap(s.books[id].rptSeq, item, id) then frame else LatestGap(s.log, id)
  {
    if item.id in s.books {
      match item {
        case Check(i, rptSeq) => GapAfterCheck(s, i, rptSeq, frame, id);
        case Dispatch(kind, i, script) =>
          ToldIsQuiet(kind, i, script, frame);
          QuietSuffix(s.log, Told(kind, i, script, frame), id);
      }
    }
  }

  lemma GapAfterCheck(s: System, i: int, rptSeq: Seqno, frame: Seqno, id: int)
    requires i in s.books
    ensures LatestGap(Put(s, i, CheckReport(s.books[i], i, rptSeq, frame)).log, id)
         == if i == id && IsGap(s.books[i].rptSeq, rptSeq) then frame else LatestGap(s.log, id)
  {
    if IsGap(s.books[i].rptSeq, rptSeq) {
      var gap, stale := [Gap(i, frame)], [Stale(Mbp, i), Stale(Mbo, i)];
      assert s.log + [Gap(i, frame), Stale(Mbp, i), Stale(Mbo, i)] == s.log + gap + stale;
      assert Front(s.log + gap) == s.log;
      QuietSuffix(s.log + gap, stale, id);
    } else {
      assert s.log + [] == s.log;
    }
  }

  lemma {:induction false} GapAfterItems(s: System, items: seq<Item>, frame: Seqno, id: int)
    requires id in s.books
    ensures LatestGap(StepItems(s, items, frame).log, id)
         == if HasGap(s.books[id].rptSeq, items, id) then frame else LatestGap(s.log, id)
    decreases |items|
  {
    if items != [] {
      GapAfterItem(s, items[0], frame, id);
      GapAfterItems(StepItem(s, items[0], frame), items[1..], frame, id);
    }
  }

  /** A frame that shows a gap of `id` finds no order older than itself. */
  ghost predicate Spared(s: System, e: Event, id: int) {
    e.Deliver? && id in s.books && HasGap(s.books[id].rptSeq, e.items, id) ==>
      AllSince(s.books[id].assembly.orders, e.frame)
  }

  /** A frame leaves the chunks clean if and only if it does not show a gap while older
      orders are held. */
  lemma CleanAfterFrameIff(s: System, frame: Seqno, items: seq<Item>, id: int)
    requires Clean(s, id)
    ensures Clean(StepEvent(s, Deliver(frame, items)), id) <==> Spared(s, Deliver(frame, items), id)
  {
    var m := Opened(s, frame);
    assert Front(m.log) == s.log;
    ItemsQuietForMbo(m, items, frame, id);
    if id in s.books {
      GapAfterItems(m, items, frame, id);
    }
  }

  /** Every event keeps the chunks clean, except a frame that shows a gap while older orders
      are held, and that one never does. */
  lemma CleanStepIff(s: System, e: Event, id: int)
    requires SystemInv(s) && Clean(s, id)
    ensures Clean(StepEvent(s, e), id) <==> Spared(s, e, id)
  {
    match e
    case Define(_) =>
    case Deliver(frame, items) => CleanAfterFrameIff(s, frame, items, id);
    case ChannelReset =>
    case MbpSnapshot(i, number, nonEmpty, script) =>
      if i in s.books {
        OfferKeepsGap(s, Mbp, i, s.books[i], script, number, [], id);
      }
    case MboSnapshot(i, number, current, total, ids, script) =>
      if i in s.books {
        ChunkKeepsClean(s, e, id);
      }
  }

  lemma ChunkKeepsClean(s: System, e: Event, id: int)
    requires SystemInv(s) && Clean(s, id) && e.MboSnapshot? && e.id in s.books
    ensures Clean(StepEvent(s, e), id)
    ensures e.id == id && |StepEvent(s, e).log| > |s.log| ==>
      var o := StepEvent(s, e).log[|s.log|];
      OffersMbo(o, id) && AllSince(o.contents, LatestGap(s.log, id))
  {
    ChunkKeepsGap(s, e, id);
    if e.id == id && Passes(s.books[id].mbo, e.number) {
      assert BookInv(s, id);
      OfferAllSince(s.books[id].assembly, e, LatestGap(s.log, id));
      ChunkOutcome(s, e);
    }
  }

  /** What becomes of the assembly, and what is offered, when a chunk passes the gate. */
  lemma ChunkOutcome(s: System, e: Event)
    requires e.MboSnapshot? && e.id in s.books && Passes(s.books[e.id].mbo, e.number)
    ensures var (a', call) := CA.Offer(s.books[e.id].assembly, CA.Chunk(e.current, e.total, Tagged(e.ids, e.number)));
      && StepEvent(s, e).books[e.id].assembly == a'
      && (|StepEvent(s, e).log| > |s.log| ==>
            call.Call? && OffersMbo(StepEvent(s, e).log[|s.log|], e.id)
            && StepEvent(s, e).log[|s.log|].contents == call.orders)
  {
  }

  lemma ChunkKeepsGap(s: System, e: Event, id: int)
    requires e.MboSnapshot? && e.id in s.books
    ensures LatestGap(StepEvent(s, e).log, id) == LatestGap(s.log, id)
  {
    var b := s.books[e.id];
    NothingMore(s.log);
    if Passes(b.mbo, e.number) {
      var (assembly, call) := CA.Offer(b.assembly, CA.Chunk(e.current, e.total, Tagged(e.ids, e.number)));
      OfferKeepsGap(s, Mbo, e.id, b.(assembly := assembly), e.script, e.number,
                    if call.Call? then call.orders else [], id);
    }
  }

  /** A chunk as new as the held orders leaves nothing older, and hands nothing older over. */
  lemma OfferAllSince(a: CA.Assembly<Order>, e: Event, n: int)
    requires e.MboSnapshot? && AllSince(a.orders, n) && e.number >= n
    ensures var (a', call) := CA.Offer(a, CA.Chunk(e.current, e.total, Tagged(e.ids, e.number)));
      AllSince(a'.orders, n) && (call.Call? ==> AllSince(call.orders, n))
  {
    TaggedAllSince(e.ids, e.number, n);
  }

  lemma OfferKeepsGap(
    s: System, kind: Kind, i: int, b: Book, script: Script, number: Seqno, contents: seq<Order>, id: int)
    ensures LatestGap(Put(s, i, Recovered(b, kind, i, script, number, s.window, contents)).log, id)
         == LatestGap(s.log, id)
    ensures s.log + [] == s.log
  {
    var flag := b.Flag(kind);
    var o := Offered(kind, i, number, flag, Force(s.window, flag, number), contents);
    var published := Published(kind, i, script.calls, number);
    PublishedIsQuiet(kind, i, script.calls, number);
    QuietSuffix(s.log + [o], published, id);
    assert Front(s.log + [o]) == s.log;
    assert s.log + ([o] + published) == s.log + [o] + published;
  }

  // ---------- whole runs ----------

  ghost predicate StaysClean(s: System, es: seq<Event>, id: int)
    decreases |es|
  {
    Clean(s, id) && (es != [] ==> StaysClean(StepEvent(s, es[0]), es[1..], id))
  }

  ghost predicate AllSpared(s: System, es: seq<Event>, id: int)
    decreases |es|
  {
    es != [] ==> Spared(s, es[0], id) && AllSpared(StepEvent(s, es[0]), es[1..], id)
  }

  /** In every run: the held orders are always at least as new as the latest gap if and only
      if no frame shows a gap while older orders are held. */
  lemma {:induction false} CleanRunIff(s: System, es: seq<Event>, id: int)
    requires SystemInv(s) && Executable(s, es) && Clean(s, id)
    ensures StaysClean(s, es, id) <==> AllSpared(s, es, id)
    decreases |es|
  {
    if es != [] {
      CleanStepIff(s, es[0], id);
      StepEventKeeps(s, es[0]);
      if Spared(s, es[0], id) {
        CleanRunIff(StepEvent(s, es[0]), es[1..], id);
      }
    }
  }

  /** An order book offered for `id` at place `j` holds nothing older than the latest gap. */
  ghost predicate OfferIsClean(log: seq<Output>, j: int, id: int) {
    0 <= j < |log| && OffersMbo(log[j], id) ==> AllSince(log[j].contents, LatestGap(log[..j], id))
  }

  ghost predicate OffersAreClean(log: seq<Output>, id: int) { forall j :: OfferIsClean(log, j, id) }

  lemma OfferStaysClean(log: seq<Output>, log': seq<Output>, j: int, id: int)
    requires log <= log' && j < |log| && OfferIsClean(log, j, id)
    ensures OfferIsClean(log', j, id)
  {
    if 0 <= j {
      assert log'[..j] == log[..j] && log'[j] == log[j];
    }
  }

  lemma CleanStepOffers(s: System, e: Event, id: int)
    requires SystemInv(s) && Clean(s, id) && OffersAreClean(s.log, id)
    ensures OffersAreClean(StepEvent(s, e).log, id)
  {
    var log' := StepEvent(s, e).log;
    NewOffers(s, e, id);
    forall j
      ensures OfferIsClean(log', j, id)
    {
      if j < |s.log| {
        assert OfferIsClean(s.log, j, id);
        OfferStaysClean(s.log, log', j, id);
      } else if j == |s.log| {
        assert log'[..j] == s.log;
      }
    }
  }

  /** Of the outputs of one event, only the first can offer an order book of `id`. */
  lemma NewOffers(s: System, e: Event, id: int)
    requires SystemInv(s) && Clean(s, id)
    ensures var log' := StepEvent(s, e).log;
      && s.log <= log'
      && (forall j :: |s.log| < j < |log'| ==> !OffersMbo(log'[j], id))
      && (|log'| > |s.log| && OffersMbo(log'[|s.log|], id) ==> AllSince(log'[|s.log|].contents, LatestGap(s.log, id)))
  {
    if e.MboSnapshot? && e.id == id {
      if id in s.books {
        ChunkKeepsClean(s, e, id);
        PublishedIsQuiet(Mbo, id, e.script.calls, e.number);
        SnapshotLog(s, e);
      }
    } else {
      QuietForMbo(s, e, id);
    }
  }

  lemma SnapshotLog(s: System, e: Event)
    requires e.MboSnapshot? && e.id in s.books
    ensures var log' := StepEvent(s, e).log;
      s.log <= log' && forall j :: |s.log| < j < |log'| ==> !log'[j].Offered?
  {
    var outs := OnMboSnapshot(s.books[e.id], e.id, e.number, e.current, e.total, e.ids, e.script, s.window).1;
    PublishedIsQuiet(Mbo, e.id, e.script.calls, e.number);
    assert outs != [] ==> outs[1..] == Published(Mbo, e.id, e.script.calls, e.number);
    assert forall j :: 1 <= j < |outs| ==> outs[j] in outs[1..];
  }

  lemma {:induction false} SparedRunOffers(s: System, es: seq<Event>, id: int)
    requires SystemInv(s) && Executable(s, es) && Clean(s, id) && OffersAreClean(s.log, id) && AllSpared(s, es, id)
    ensures OffersAreClean(Execute(s, es).log, id)
    decreases |es|
  {
    if es != [] {
      CleanStepIff(s, es[0], id);
      CleanStepOffers(s, es[0], id);
      StepEventKeeps(s, es[0]);
      SparedRunOffers(StepEvent(s, es[0]), es[1..], id);
    }
  }

  /** In every run in which no gap of the security finds older orders held, every order book
      offered for it holds only orders at least as new as its latest gap. */
  lemma OfferedBooksAreClean(es: seq<Event>, id: int)
    requires Executable(START, es) && AllSpared(START, es, id)
    ensures OffersAreClean(Execute(START, es).log, id)
  {
    StartInv();
    SparedRunOffers(START, es, id);
  }

  // ---------- one snapshot ----------

  /** What a chunk of an order book snapshot brings. */
  datatype Piece = Piece(number: Seqno, current: Seqno, total: Seqno, ids: seq<nat>)

  function ChunkOf(p: Piece): CA.Chunk<Order> { CA.Chunk(p.current, p.total, Tagged(p.ids, p.number)) }

  function ChunksOf(ps: seq<Piece>): (cs: seq<CA.Chunk<Order>>)
    ensures |cs| == |ps|
  {
    if ps == [] then [] else ChunksOf(ps[..|ps| - 1]) + [ChunkOf(ps[|ps| - 1])]
  }

  lemma {:induction false} ChunkAt(ps: seq<Piece>, i: nat)
    requires i < |ps|
    ensures ChunksOf(ps)[i] == ChunkOf(ps[i])
  {
    if i < |ps| - 1 {
      ChunkAt(ps[..|ps| - 1], i);
    }
  }

  /** The event brings `id` a chunk that passes the gate. */
  predicate Takes(s: System, e: Event, id: int) {
    e.MboSnapshot? && e.id == id && id in s.books && Passes(s.books[id].mbo, e.number)
  }

  function PieceOf(e: Event): Piece
    requires e.MboSnapshot?
  {
    Piece(e.number, e.current, e.total, e.ids)
  }

  /** The chunks of `id` that passed the gate in a run, behind those of `before`. */
  function Pieces(s: System, es: seq<Event>, id: int, before: seq<Piece>): seq<Piece>
    decreases |es|
  {
    if es == [] then before
    else Pieces(StepEvent(s, es[0]), es[1..], id, if Takes(s, es[0], id) then before + [PieceOf(es[0])] else before)
  }

  /** The assembly of `id` is what the chunks lead to. */
  ghost predicate HoldsPieces(s: System, id: int, ps: seq<Piece>) {
    if id in s.books then s.books[id].assembly == CA.StateAfter(ChunksOf(ps), |ps|) else ps == []
  }

  lemma StepHolds(s: System, e: Event, id: int, ps: seq<Piece>)
    requires HoldsPieces(s, id, ps)
    ensures HoldsPieces(StepEvent(s, e), id, if Takes(s, e, id) then ps + [PieceOf(e)] else ps)
  {
    if Takes(s, e, id) {
      OneMorePiece(ps, PieceOf(e));
    } else if !(e.MboSnapshot? && e.id == id) {
      QuietForMbo(s, e, id);
    }
  }

  lemma OneMorePiece(ps: seq<Piece>, p: Piece)
    ensures ChunksOf(ps + [p]) == ChunksOf(ps) + [ChunkOf(p)]
    ensures CA.StateAfter(ChunksOf(ps + [p]), |ps|) == CA.StateAfter(ChunksOf(ps), |ps|)
    ensures CA.StateAfter(ChunksOf(ps + [p]), |ps| + 1) == CA.Offer(CA.StateAfter(ChunksOf(ps), |ps|), ChunkOf(p)).0
  {
    assert (ps + [p])[..|ps|] == ps;
    CA.StateOfPrefix(ChunksOf(ps), [ChunkOf(p)], |ps|);
  }

  lemma {:induction false} RunHolds(s: System, es: seq<Event>, id: int, ps: seq<Piece>)
    requires HoldsPieces(s, id, ps)
    ensures HoldsPieces(Execute(s, es), id, Pieces(s, es, id, ps))
    decreases |es|
  {
    if es != [] {
      StepHolds(s, es[0], id, ps);
      RunHolds(StepEvent(s, es[0]), es[1..], id, if Takes(s, es[0], id) then ps + [PieceOf(es[0])] else ps);
    }
  }

  ghost predicate AllOf(orders: seq<Order>, n: Seqno) { forall o :: o in orders ==> o.asOf == n }

  /** Every chunk among these that has orders is as of frame `n`. */
  ghost predicate OneSnapshot(ps: seq<Piece>, at: seq<nat>, n: Seqno)
    requires CA.Places(at, |ps|)
  {
    forall i :: 0 <= i < |at| && ps[at[i]].ids != [] ==> ps[at[i]].number == n
  }

  lemma TaggedAllOf(ids: seq<nat>, number: Seqno, n: Seqno)
    ensures AllOf(Tagged(ids, number), n) <==> ids == [] || number == n
  {
    if ids != [] {
      assert Tagged(ids, number)[0] in Tagged(ids, number);
    }
  }

  lemma {:induction false} ConcatAllOf(parts: seq<seq<Order>>, n: Seqno)
    ensures AllOf(Concat(parts), n) <==> forall i :: 0 <= i < |parts| ==> AllOf(parts[i], n)
  {
    if parts != [] {
      ConcatAllOf(parts[1..], n);
      assert forall o :: o in Concat(parts) <==> o in parts[0] || o in Concat(parts[1..]);
      assert forall i :: 1 <= i < |parts| ==> parts[i] == parts[1..][i - 1];
    }
  }

  lemma PickedAllOf(ps: seq<Piece>, at: seq<nat>, n: Seqno)
    requires CA.Places(at, |ps|)
    ensures AllOf(Concat(CA.Entries(CA.Pick(ChunksOf(ps), at))), n) <==> OneSnapshot(ps, at, n)
  {
    var parts := CA.Entries(CA.Pick(ChunksOf(ps), at));
    ConcatAllOf(parts, n);
    forall i | 0 <= i < |at|
      ensures AllOf(parts[i], n) <==> ps[at[i]].ids == [] || ps[at[i]].number == n
    {
      ChunkAt(ps, at[i]);
      TaggedAllOf(ps[at[i]].ids, ps[at[i]].number, n);
    }
  }

  /** Whenever a run comes to offer an order book of `id`: it is put together from the
      chunks, numbered one, two, three and so on, that were accepted since chunk one, and it
      is of one snapshot, that of the last chunk, if and only if every one of these chunks
      that has orders is as of the same frame. */
  lemma OneSnapshotIff(es: seq<Event>, e: Event, id: int) returns (at: seq<nat>)
    requires var s := Execute(START, es); Takes(s, e, id) && |StepEvent(s, e).log| > |s.log|
    requires var cs := ChunksOf(Pieces(START, es, id, []) + [PieceOf(e)]);
      CA.Sane(cs, |cs| - 1) && CA.NoWrapAt(cs, |cs| - 1)
    ensures var s, ps := Execute(START, es), Pieces(START, es, id, []) + [PieceOf(e)];
      var o := StepEvent(s, e).log[|s.log|];
      && OffersMbo(o, id) && o.number == e.number
      && CA.Assembled(ChunksOf(ps), |ps| - 1, at, o.contents) && |at| == e.total
      && (AllOf(o.contents, e.number) <==> OneSnapshot(ps, at, e.number))
  {
    var s, before := Execute(START, es), Pieces(START, es, id, []);
    var ps := before + [PieceOf(e)];
    RunHolds(START, es, id, []);
    OneMorePiece(before, PieceOf(e));
    at := CA.AssemblesInOrder(ChunksOf(ps), |before|);
    OfferIsCall(s, e);
    PickedAllOf(ps, at, e.number);
  }

  /** The orders put together from the chunks at `at` are those the chunks brought, in order,
      each tagged with the frame of its own chunk. */
  lemma OrdersAreBrought(ps: seq<Piece>, at: seq<nat>, orders: seq<Order>) returns (parts: seq<seq<Order>>)
    requires ps != [] && CA.Assembled(ChunksOf(ps), |ps| - 1, at, orders)
    ensures |parts| == |at| && orders == Concat(parts)
    ensures forall i :: 0 <= i < |at| ==> at[i] < |ps| && |parts[i]| == |ps[at[i]].ids|
    ensures forall i, j :: 0 <= i < |at| && 0 <= j < |parts[i]| ==>
      parts[i][j] == Order(ps[at[i]].ids[j], ps[at[i]].number)
  {
    parts := CA.Entries(CA.Pick(ChunksOf(ps), at));
    forall i | 0 <= i < |at|
      ensures parts[i] == Tagged(ps[at[i]].ids, ps[at[i]].number)
    {
      ChunkAt(ps, at[i]);
    }
  }

  /** Every chunk among these that has orders is as of frame `n` or later. */
  ghost predicate NoneOlder(ps: seq<Piece>, at: seq<nat>, n: int)
    requires CA.Places(at, |ps|)
  {
    forall i :: 0 <= i < |at| && ps[at[i]].ids != [] ==> ps[at[i]].number >= n
  }

  lemma TaggedAllSince(ids: seq<nat>, number: Seqno, n: int)
    ensures AllSince(Tagged(ids, number), n) <==> ids == [] || number >= n
  {
    if ids != [] {
      assert Tagged(ids, number)[0] in Tagged(ids, number);
    }
  }

  lemma {:induction false} ConcatAllSince(parts: seq<seq<Order>>, n: int)
    ensures AllSince(Concat(parts), n) <==> forall i :: 0 <= i < |parts| ==> AllSince(parts[i], n)
  {
    if parts != [] {
      ConcatAllSince(parts[1..], n);
      assert forall o :: o in Concat(parts) <==> o in parts[0] || o in Concat(parts[1..]);
      assert forall i :: 1 <= i < |parts| ==> parts[i] == parts[1..][i - 1];
    }
  }

  lemma PickedAllSince(ps: seq<Piece>, at: seq<nat>, n: int)
    requires CA.Places(at, |ps|)
    ensures AllSince(Concat(CA.Entries(CA.Pick(ChunksOf(ps), at))), n) <==> NoneOlder(ps, at, n)
  {
    var parts := CA.Entries(CA.Pick(ChunksOf(ps), at));
    ConcatAllSince(parts, n);
    forall i | 0 <= i < |at|
      ensures AllSince(parts[i], n) <==> ps[at[i]].ids == [] || ps[at[i]].number >= n
    {
      ChunkAt(ps, at[i]);
      TaggedAllSince(ps[at[i]].ids, ps[at[i]].number, n);
    }
  }

  /** Whenever a run comes to offer an order book of `id`: all its orders are at least as new
      as the latest gap if and only if every chunk with orders that was accepted since
      chunk one is. */
  lemma OfferIsCleanIff(es: seq<Event>, e: Event, id: int) returns (at: seq<nat>)
    requires var s := Execute(START, es); Takes(s, e, id) && |StepEvent(s, e).log| > |s.log|
    requires var cs := ChunksOf(Pieces(START, es, id, []) + [PieceOf(e)]);
      CA.Sane(cs, |cs| - 1) && CA.NoWrapAt(cs, |cs| - 1)
    ensures var s, ps := Execute(START, es), Pieces(START, es, id, []) + [PieceOf(e)];
      var o := StepEvent(s, e).log[|s.log|];
      && OffersMbo(o, id) && CA.Assembled(ChunksOf(ps), |ps| - 1, at, o.contents)
      && (AllSince(o.contents, LatestGap(s.log, id)) <==> NoneOlder(ps, at, LatestGap(s.log, id)))
  {
    at := OneSnapshotIff(es, e, id);
    PickedAllSince(Pieces(START, es, id, []) + [PieceOf(e)], at, LatestGap(Execute(START, es).log, id));
  }

  lemma OfferIsCall(s: System, e: Event)
    requires e.MboSnapshot? && Takes(s, e, e.id) && |StepEvent(s, e).log| > |s.log|
    ensures var o, call := StepEvent(s, e).log[|s.log|], CA.Offer(s.books[e.id].assembly, ChunkOf(PieceOf(e))).1;
      OffersMbo(o, e.id) && o.number == e.number && call.Call? && call.last && o.contents == call.orders
  {
  }
}
