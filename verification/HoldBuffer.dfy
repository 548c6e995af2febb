/** The slots of the hold buffer: which of them are given back, which stay occupied until
    the next reset, and how that fills the buffer although no packet is lost. */
module HoldBuffer {
  import opened Bytes
  import opened PacketFrame
  import opened FeedArbitration

  /** No slot holds a number that has been passed. */
  ghost predicate NoStale(s: Feed) { forall p :: p in s.held ==> p.number > s.last }

  /** No number is held twice. */
  ghost predicate Single(held: multiset<Packet>) {
    forall p, q :: p in held && q in held && p.number == q.number ==> p == q && held[p] == 1
  }

  // ---------- what stays ----------

  /** A slot whose number has been passed is never freed by a dispatch that does not
      reset: the second copy of a held packet keeps its slot. */
  lemma StaleSlotsStay(s: Feed, payload: seq<byte>, filter: nat, depth: nat, s': Feed, p: Packet)
    requires Inv(s) && Step(s, payload, filter, depth, s') && ZeroIsDropped(s, payload, filter)
    requires |s.held| < depth && p.number <= s.last
    ensures s'.held[p] >= s.held[p] && p.number <= s'.last
  {
    var m, taken := SplitStep(s, payload, filter, depth, s');
    if m != INITIAL {
      assert p !in taken;
      assert p !in multiset(taken);
    }
  }

  /** The same over any stretch of a run without a reset. */
  lemma {:induction false} StaleSlotsStayForRun(
    trace: seq<Feed>, payloads: seq<seq<byte>>, filter: nat, depth: nat, k: nat, p: Packet)
    requires Run(trace, payloads, filter, depth) && Inv(trace[0]) && k < |trace| && p.number <= trace[0].last
    requires forall i :: 0 <= i < k ==> |trace[i].held| < depth
    ensures trace[k].held[p] >= trace[0].held[p]
    decreases k
  {
    if k > 0 {
      StepKeeps(trace[0], payloads[0], filter, depth, trace[1]);
      StaleSlotsStay(trace[0], payloads[0], filter, depth, trace[1], p);
      StaleSlotsStayForRun(trace[1..], payloads[1..], filter, depth, k - 1, p);
    }
  }

  // ---------- when nothing stays: one dispatch ----------

  ghost predicate HoldsNumber(held: multiset<Packet>, n: int) { exists p :: p in held && p.number == n }

  /** The drain gets as far as `n`: every number up to it is held. */
  ghost predicate Reached(s: Feed, n: int) { forall k :: s.last < k <= n ==> HoldsNumber(s.held, k) }

  /** No number that the drain gets to is held twice. */
  ghost predicate SingleWhereReached(s: Feed) {
    forall p, q :: p in s.held && q in s.held && p.number == q.number && Reached(s, p.number) ==>
      p == q && s.held[p] == 1
  }

  lemma {:induction false} TakenOnce(taken: seq<Packet>, from: int, p: Packet)
    requires Consecutive(taken, from)
    ensures multiset(taken)[p] <= 1
    ensures p in multiset(taken) ==> 0 <= p.number - from < |taken| && taken[p.number - from] == p
  {
    if taken != [] {
      var n := |taken| - 1;
      TakenOnce(taken[..n], from, p);
      assert taken == taken[..n] + [taken[n]];
    }
  }

  lemma ReachedIff(s: Feed, taken: seq<Packet>, s': Feed, n: int)
    requires DrainTaking(s, taken, s') && n > s.last
    ensures n <= s'.last <==> Reached(s, n)
  {
    NextNotHeld(s, taken, s');
    if n <= s'.last {
      forall k | s.last < k <= n
        ensures HoldsNumber(s.held, k)
      {
        var p := taken[k - s.last - 1];
        assert p in multiset(taken) && p.number == k;
      }
    } else {
      assert s.last < s'.last + 1 <= n;
    }
  }

  lemma NextNotHeld(s: Feed, taken: seq<Packet>, s': Feed)
    requires DrainTaking(s, taken, s')
    ensures !HoldsNumber(s.held, s'.last + 1)
  {
    forall p | p in s.held
      ensures p.number != s'.last + 1
    {
      TakenOnce(taken, s.last + 1, p);
      assert p in multiset(taken) || p in s'.held;
    }
  }

  /** A number that was passed and is gone from the buffer was held once. */
  lemma GoneWasSingle(s: Feed, taken: seq<Packet>, s': Feed, p: Packet)
    requires DrainTaking(s, taken, s') && p in s.held && p !in s'.held
    ensures s.held[p] == 1 && 0 <= p.number - s.last - 1 < |taken| && taken[p.number - s.last - 1] == p
  {
    TakenOnce(taken, s.last + 1, p);
    assert s'.held[p] == s.held[p] - multiset(taken)[p];
  }

  lemma PassedAreGone(s: Feed, taken: seq<Packet>, s': Feed, n: int)
    requires DrainTaking(s, taken, s') && SingleWhereReached(s) && s.last < n <= s'.last
    ensures NoneNumbered(s'.held, n)
  {
    ReachedIff(s, taken, s', n);
    var q := taken[n - s.last - 1];
    TakenAreHeld(s, taken, n - s.last - 1);
    forall p | p in s.held && p.number == n
      ensures p !in s'.held
    {
      assert p == q && s.held[p] == 1;
    }
  }

  lemma TakenAreHeld(s: Feed, taken: seq<Packet>, i: nat)
    requires multiset(taken) <= s.held && i < |taken|
    ensures taken[i] in multiset(taken) && taken[i] in s.held
  {
  }

  lemma LeftIsAhead(s: Feed, taken: seq<Packet>, s': Feed, p: Packet)
    requires NoStale(s) && DrainTaking(s, taken, s') && SingleWhereReached(s) && p in s'.held
    ensures p.number > s'.last
  {
    assert p in s.held;
    if p.number <= s'.last {
      PassedAreGone(s, taken, s', p.number);
    }
  }

  /** After the drain, no slot is stale if and only if no number it gets to was held twice. */
  lemma DrainLeavesNoneIff(s: Feed, taken: seq<Packet>, s': Feed)
    requires NoStale(s) && DrainTaking(s, taken, s')
    ensures NoStale(s') <==> SingleWhereReached(s)
  {
    if NoStale(s') {
      NoneLeftWasSingle(s, taken, s');
    }
    if SingleWhereReached(s) {
      forall p | p in s'.held
        ensures p.number > s'.last
      {
        LeftIsAhead(s, taken, s', p);
      }
    }
  }

  lemma NoneLeftWasSingle(s: Feed, taken: seq<Packet>, s': Feed)
    requires NoStale(s) && DrainTaking(s, taken, s') && NoStale(s')
    ensures SingleWhereReached(s)
  {
    forall p, q | p in s.held && q in s.held && p.number == q.number && Reached(s, p.number)
      ensures p == q && s.held[p] == 1
    {
      ReachedIff(s, taken, s', p.number);
      GoneWasSingle(s, taken, s', p);
      GoneWasSingle(s, taken, s', q);
    }
  }

  // ---------- when nothing stays: whole runs ----------

  ghost predicate Tidy(s: Feed) { NoStale(s) && Single(s.held) }

  /** The packet is put on hold. */
  predicate PutOnHold(s: Feed, p: Packet, filter: nat) {
    p.number >= filter && s.first != 0 && p.number > Next(s.last)
  }

  /** If the dispatch puts its packet on hold, then its number is neither held already nor
      passed already (the latter only at the end of the 32-bit numbers). */
  ghost predicate FreshHold(s: Feed, payload: seq<byte>, filter: nat, depth: nat) {
    var frame := ParseFrame(payload);
    |s.held| < depth && frame.Some? && PutOnHold(s, Packet(frame.value.number, payload), filter) ==>
      frame.value.number > s.last && NoneNumbered(s.held, frame.value.number)
  }

  lemma NothingTaken(s: Feed, taken: seq<Packet>, s': Feed)
    requires DrainTaking(s, taken, s') && NoneNumbered(s.held, s.last + 1)
    ensures s' == s
  {
    if 0 < |taken| {
      TakenAreHeld(s, taken, 0);
    }
    assert s.held - multiset([]) == s.held && s.delivered + [] == s.delivered;
  }

  lemma HeldStep(s: Feed, p: Packet, filter: nat, s': Feed)
    requires Inv(s) && Tidy(s) && PutOnHold(s, p, filter) && Drained(Accept(s, p, filter), s')
    ensures Tidy(s') <==> p.number > s.last && NoneNumbered(s.held, p.number)
  {
    var m := Accept(s, p, filter);
    var taken :| DrainTaking(m, taken, s');
    NothingTaken(m, taken, s');
    OneMoreSlot(s, p);
  }

  lemma OneMoreSlot(s: Feed, p: Packet)
    requires Tidy(s)
    ensures Tidy(s.(held := s.held + multiset{p}, arrived := s.arrived + {p})) <==>
      p.number > s.last && NoneNumbered(s.held, p.number)
  {
    var held := s.held + multiset{p};
    assert p in held && forall q :: q in s.held ==> q in held;
    assert forall q :: q in held ==> q == p || q in s.held;
    assert p in s.held ==> held[p] >= 2;
  }

  lemma OtherStep(m: Feed, taken: seq<Packet>, s': Feed)
    requires Tidy(m) && DrainTaking(m, taken, s')
    ensures Tidy(s')
  {
    DrainLeavesNoneIff(m, taken, s');
  }

  lemma NotHeldIsTidy(s: Feed, p: Packet, filter: nat)
    requires Inv(s) && Tidy(s) && !PutOnHold(s, p, filter) && NotZero(s, p.number, filter)
    ensures Tidy(Accept(s, p, filter))
  {
  }

  /** From a tidy buffer, a dispatch leaves a tidy buffer if and only if it does not put a
      packet on hold whose number is held already. */
  lemma TidyStepIff(s: Feed, payload: seq<byte>, filter: nat, depth: nat, s': Feed)
    requires Inv(s) && Tidy(s) && Step(s, payload, filter, depth, s') && ZeroIsDropped(s, payload, filter)
    ensures Tidy(s') <==> FreshHold(s, payload, filter, depth)
  {
    var frame := ParseFrame(payload);
    if |s.held| < depth {
      var m, taken := SplitStep(s, payload, filter, depth, s');
      if frame.Some? && PutOnHold(s, Packet(frame.value.number, payload), filter) {
        HeldStep(s, Packet(frame.value.number, payload), filter, s');
      } else {
        if frame.Some? {
          NotHeldIsTidy(s, Packet(frame.value.number, payload), filter);
        }
        if m != INITIAL {
          OtherStep(m, taken, s');
        }
      }
    }
  }

  ghost predicate AllTidy(trace: seq<Feed>) { forall k :: 0 <= k < |trace| ==> Tidy(trace[k]) }

  /** Every packet put on hold in the run was the first of its number there. */
  ghost predicate AllFresh(trace: seq<Feed>, payloads: seq<seq<byte>>, filter: nat, depth: nat)
    requires |payloads| <= |trace|
  {
    forall k :: 0 <= k < |payloads| ==> FreshHold(trace[k], payloads[k], filter, depth)
  }

  /** In every run from a tidy buffer: no slot is ever stale and no number held twice, if
      and only if no packet is put on hold while its number is already held. */
  lemma {:induction false} TidyRunIff(trace: seq<Feed>, payloads: seq<seq<byte>>, filter: nat, depth: nat)
    requires Run(trace, payloads, filter, depth) && Inv(trace[0]) && Tidy(trace[0])
    ensures AllTidy(trace) <==> AllFresh(trace, payloads, filter, depth)
    decreases |payloads|
  {
    if payloads != [] {
      var s, s' := trace[0], trace[1];
      StepKeeps(s, payloads[0], filter, depth, s');
      TidyStepIff(s, payloads[0], filter, depth, s');
      if Tidy(s') {
        TidyRunIff(trace[1..], payloads[1..], filter, depth);
        TidyHead(trace);
        FreshHead(trace, payloads, filter, depth);
      }
    }
  }

  lemma TidyHead(trace: seq<Feed>)
    requires |trace| > 1
    ensures AllTidy(trace) <==> Tidy(trace[0]) && AllTidy(trace[1..])
  {
    assert forall k :: 1 <= k < |trace| ==> trace[k] == trace[1..][k - 1];
    assert forall k :: 0 <= k < |trace| - 1 ==> trace[1..][k] == trace[k + 1];
  }

  lemma FreshHead(trace: seq<Feed>, payloads: seq<seq<byte>>, filter: nat, depth: nat)
    requires 0 < |payloads| < |trace|
    ensures AllFresh(trace, payloads, filter, depth) <==>
      FreshHold(trace[0], payloads[0], filter, depth) && AllFresh(trace[1..], payloads[1..], filter, depth)
  {
    assert forall k :: 1 <= k < |payloads| ==> trace[k] == trace[1..][k - 1] && payloads[k] == payloads[1..][k - 1];
    assert forall k :: 0 <= k < |payloads| - 1 ==> trace[1..][k] == trace[k + 1] && payloads[1..][k] == payloads[k + 1];
  }
}
