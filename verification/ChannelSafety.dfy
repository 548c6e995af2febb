/** Arbitration and recovery together: recovery is safe on every channel that packets
    arrive on, in any interleaving of feeds, recovery snapshots and definitions. */
module ChannelSafety {
  import opened Bytes
  import opened FeedArbitration
  import opened Recovery
  import opened RecoveryFlags
  import opened RecoverySafety

  /** Recovery snapshots and definitions: what happens between two incremental packets. */
  predicate Elsewhere(e: Event) { e.Define? || e.MbpSnapshot? || e.MboSnapshot? }

  ghost predicate AllElsewhere(es: seq<Event>) { forall i :: 0 <= i < |es| ==> Elsewhere(es[i]) }

  /** What one dispatch means for recovery: a reset, or the delivered frames. `items` are
      whatever the handlers find in those frames. */
  function EventsOf(f: Feed, f': Feed, depth: nat, items: seq<seq<Item>>): seq<Event>
    requires |f.held| < depth ==> |f.delivered| <= |f'.delivered| && |items| == |f'.delivered| - |f.delivered|
  {
    if |f.held| >= depth then [ChannelReset] else Frames(f'.delivered[|f.delivered|..], items)
  }

  /** A story of the channel: for each dispatch, what happened elsewhere before it, and
      what the handlers found in each frame it delivered. */
  datatype Chapter = Chapter(elsewhere: seq<Event>, payload: seq<byte>, items: seq<seq<Item>>)

  /** One chapter leads the feed from `f` to `f'`. */
  ghost predicate Happens(f: Feed, c: Chapter, filter: nat, depth: nat, f': Feed) {
    && AllElsewhere(c.elsewhere)
    && ZeroIsDropped(f, c.payload, filter)
    && Step(f, c.payload, filter, depth, f')
    && (|f.held| < depth ==>
          |f.delivered| <= |f'.delivered| && |c.items| == |f'.delivered| - |f.delivered|)
  }

  function ChapterEvents(f: Feed, c: Chapter, depth: nat, f': Feed): seq<Event>
    requires |f.held| < depth ==> |f.delivered| <= |f'.delivered| && |c.items| == |f'.delivered| - |f.delivered|
  {
    c.elsewhere + EventsOf(f, f', depth, c.items)
  }

  /** `trace` is a run of the feed over the payloads of the story, and `es` tells it. */
  ghost predicate Tells(trace: seq<Feed>, story: seq<Chapter>, filter: nat, depth: nat, es: seq<Event>)
    decreases |story|
  {
    if story == [] then |trace| == 1 && es == []
    else
      && |trace| == |story| + 1
      && Happens(trace[0], story[0], filter, depth, trace[1])
      && var front := ChapterEvents(trace[0], story[0], depth, trace[1]);
         front <= es && Tells(trace[1..], story[1..], filter, depth, es[|front|..])
  }

  lemma {:induction false} ElsewhereKeepsWindow(s: System, es: seq<Event>)
    requires AllElsewhere(es)
    ensures Executable(s, es) && Execute(s, es).window == s.window
    decreases |es|
  {
    if es != [] {
      assert Elsewhere(es[0]);
      ElsewhereKeepsWindow(StepEvent(s, es[0]), es[1..]);
    }
  }

  lemma DispatchIsExecutable(
    s: System, f: Feed, f': Feed, payload: seq<byte>, filter: nat, depth: nat, items: seq<seq<Item>>)
    requires s.window == WindowOf(f) && Inv(f) && ZeroIsDropped(f, payload, filter)
    requires Step(f, payload, filter, depth, f')
    requires |f.held| < depth ==> |f.delivered| <= |f'.delivered| && |items| == |f'.delivered| - |f.delivered|
    ensures var es := EventsOf(f, f', depth, items);
      Inv(f') && Executable(s, es) && Execute(s, es).window == WindowOf(f')
  {
    StepKeeps(f, payload, filter, depth, f');
    if |f.held| < depth {
      StepIsDeliveries(f, payload, filter, depth, f');
      DeliveriesAreExecutable(s, f'.delivered[|f.delivered|..], items, WindowOf(f'));
    } else {
      ResetIsExecutable(s);
    }
  }

  lemma ResetIsExecutable(s: System)
    ensures Executable(s, [ChannelReset]) && Execute(s, [ChannelReset]).window == Window(0, 0)
  {
    assert [ChannelReset][1..] == [];
    assert Executable(StepEvent(s, ChannelReset), []);
    assert Execute(StepEvent(s, ChannelReset), []) == StepEvent(s, ChannelReset);
  }

  lemma ChapterIsExecutable(s: System, f: Feed, c: Chapter, filter: nat, depth: nat, f': Feed)
    requires s.window == WindowOf(f) && Inv(f) && Happens(f, c, filter, depth, f')
    ensures var es := ChapterEvents(f, c, depth, f');
      Inv(f') && Executable(s, es) && Execute(s, es).window == WindowOf(f')
  {
    ElsewhereKeepsWindow(s, c.elsewhere);
    var s1 := Execute(s, c.elsewhere);
    DispatchIsExecutable(s1, f, f', c.payload, filter, depth, c.items);
    ExecuteAppend(s, c.elsewhere, EventsOf(f, f', depth, c.items));
  }

  /** Whatever arrives on the two feeds, in whatever order, makes a legal run of the
      recovery system. */
  lemma {:induction false} StoryIsExecutable(
    s: System, trace: seq<Feed>, story: seq<Chapter>, filter: nat, depth: nat, es: seq<Event>)
    requires Tells(trace, story, filter, depth, es)
    requires s.window == WindowOf(trace[0]) && Inv(trace[0])
    ensures Executable(s, es)
    decreases |story|
  {
    if story != [] {
      var front := ChapterEvents(trace[0], story[0], depth, trace[1]);
      var later := es[|front|..];
      ChapterIsExecutable(s, trace[0], story[0], filter, depth, trace[1]);
      StoryIsExecutable(Execute(s, front), trace[1..], story[1..], filter, depth, later);
      ExecuteAppend(s, front, later);
      assert es == front + later;
    }
  }

  /** End to end, from the arrival of packets to the recovery log: every offer is gated and
      exactly as forced as the delivered frames allow, and a book is flagged exactly while its
      latest gap, request or throw is not followed by a SNAPSHOT. */
  lemma RecoveryIsSafeOnTheWire(trace: seq<Feed>, story: seq<Chapter>, filter: nat, depth: nat, es: seq<Event>)
    requires Tells(trace, story, filter, depth, es) && trace[0] == INITIAL
    ensures var s := Execute(START, es);
      && OffersAreGated(s.log) && ForceIsExact(s.log)
      && (forall kind, id :: AwaitsSnapshot(s.log, kind, id) ==> id in s.books && s.books[id].Flag(kind) != 0)
      && (forall kind, id :: id in s.books ==> (s.books[id].Flag(kind) != 0 <==> Raised(s.log, kind, id)))
  {
    StoryIsExecutable(START, trace, story, filter, depth, es);
    RecoveryIsGatedAndForceExact(es);
    var s := Execute(START, es);
    forall kind, id | AwaitsSnapshot(s.log, kind, id)
      ensures id in s.books && s.books[id].Flag(kind) != 0
    {
      RecoveryIsNeverForgotten(es, kind, id);
    }
    forall kind, id | id in s.books
      ensures s.books[id].Flag(kind) != 0 <==> Raised(s.log, kind, id)
    {
      FlagIsRaisedIff(es, kind, id);
    }
  }
}
