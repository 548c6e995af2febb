/** Assembly of a market-by-order snapshot from its numbered chunks. */
module ChunkAssembly {
  import opened PacketFrame
  import opened Sequences

  /** One chunk: its number, the number of chunks it announces, and its orders. */
  datatype Chunk<O> = Chunk(current: Seqno, total: Seqno, entries: seq<O>)

  /** The assembly state kept with a security. */
  datatype Assembly<O> = Assembly(total: Seqno, last: Seqno, orders: seq<O>)

  /** What the snapshot callback is given, if it runs at all. `leftover` is the logged
      surprise: chunk one arriving on top of orders that are already there. */
  datatype Call<O> = NoCall | Call(orders: seq<O>, last: bool, leftover: bool)

  function Idle<O>(): Assembly<O> { Assembly(0, 0, []) }

  function CallFor<O>(a: Assembly<O>, c: Chunk<O>, last: bool): Call<O> {
    Call(a.orders + c.entries, last, c.current == 1 && a.orders != [])
  }

  /** Offers one chunk. */
  function Offer<O>(a: Assembly<O>, c: Chunk<O>): (r: (Assembly<O>, Call<O>))
  {
    if a.total != 0 then
      if c.current == a.last then (a, NoCall)
      else if c.current == Next(a.last) then
        if c.current == c.total then (Idle(), CallFor(a, c, true))
        else (Assembly(a.total, c.current, a.orders + c.entries), CallFor(a, c, false))
      else (Idle(), NoCall)
    else if c.current == 1 then
      (Assembly(c.total, 1, a.orders + c.entries), CallFor(a, c, c.total == 1))
    else (a, NoCall)
  }

  /** The fields of the security that the assembly updates in place. */
  class Snapshot<O> {
    var total: Seqno
    var last: Seqno
    var orders: seq<O>

    ghost function View(): (a: Assembly<O>)
      reads this
    {
      Assembly(total, last, orders)
    }

    constructor ()
      ensures View() == Idle()
    {
      total, last, orders := 0, 0, [];
    }

    method Reset()
      modifies this
      ensures View() == Idle()
    {
      total, last, orders := 0, 0, [];
    }

    /** Returns whether a chunked snapshot was completed, and the callback made. */
    method Update(c: Chunk<O>) returns (completed: bool, call: Call<O>)
      modifies this
      ensures (View(), call) == Offer(old(View()), c)
      ensures completed ==> call.Call? && call.last && View() == Idle()
    {
      completed, call := false, NoCall;
      if total != 0 {
        if c.current == last {
        } else if c.current == Next(last) {
          if c.current == c.total {
            call := Append(c, true);
            Reset();
            return true, call;
          } else {
            last := c.current;
            call := Append(c, false);
          }
        } else {
          Reset();
        }
      } else if c.current == 1 {
        total, last := c.total, c.current;
        call := Append(c, c.current == c.total);
      }
    }

    /** The callback: appends the entries of the chunk. */
    method Append(c: Chunk<O>, isLast: bool) returns (call: Call<O>)
      modifies `orders
      ensures orders == old(orders) + c.entries
      ensures call == Call(orders, isLast, c.current == 1 && old(orders) != [])
    {
      var leftover := c.current == 1 && |orders| != 0;
      orders := orders + c.entries;
      call := Call(orders, isLast, leftover);
    }
  }

  // ---------- runs ----------

  function Entries<O>(cs: seq<Chunk<O>>): seq<seq<O>> {
    seq(|cs|, i requires 0 <= i < |cs| => cs[i].entries)
  }

  /** `cs` are chunks one, two, three and so on. */
  ghost predicate InSequence<O>(cs: seq<Chunk<O>>) {
    forall i :: 0 <= i < |cs| ==> cs[i].current == i + 1
  }

  /** The state holds exactly the chunks `cs`, numbered from one. */
  ghost predicate Holds<O>(a: Assembly<O>, cs: seq<Chunk<O>>) {
    && InSequence(cs)
    && a.orders == Concat(Entries(cs))
    && (a.total == 0 <==> cs == [])
    && (a.total != 0 ==> a.last == |cs|)
  }

  lemma EntriesLast<O>(cs: seq<Chunk<O>>, c: Chunk<O>)
    ensures Concat(Entries(cs + [c])) == Concat(Entries(cs)) + c.entries
  {
    assert Entries(cs + [c]) == Entries(cs) + [c.entries];
    ConcatLast(Entries(cs), c.entries);
  }

  /** A chunk one with orders that announces a total of zero, and finds nothing pending. */
  predicate Spoils<O>(a: Assembly<O>, c: Chunk<O>) {
    a.total == 0 && c.current == 1 && c.total == 0 && c.entries != []
  }

  /** The chunks held after an offer: the successor joins them, unless it is the last one, or a
      chunk one that announces none; the same number again changes nothing; any other number
      drops them. */
  function HeldAfter<O>(held: seq<Chunk<O>>, c: Chunk<O>): seq<Chunk<O>> {
    if c.current == |held| + 1 then
      if c.total == (if held == [] then 0 else c.current) then [] else held + [c]
    else if c.current == |held| then held
    else []
  }

  /** One offer, in any state that holds chunks: the callback runs exactly for the successor,
      it sees the chunks one to `current`, each once and in order, never with leftovers under
      chunk one, and the state holds chunks again unless it was spoiled. The last premise only
      keeps the 32-bit chunk number from wrapping. */
  lemma OfferKeeps<O>(a: Assembly<O>, held: seq<Chunk<O>>, c: Chunk<O>)
    requires Holds(a, held) && (c.current == 0 ==> |held| < 0xFFFF_FFFF)
    ensures var (a', call) := Offer(a, c);
      && (call.Call? <==> c.current == |held| + 1)
      && (call.Call? ==>
        && InSequence(held + [c]) && call.orders == Concat(Entries(held + [c])) && !call.leftover
        && (call.last <==> |held + [c]| == c.total))
      && (!Spoils(a, c) ==> Holds(a', HeldAfter(held, c)))
  {
    CallSees(a, held, c);
    NothingHeldIff(held);
    NothingHeldIff<O>([]);
  }

  lemma CallSees<O>(a: Assembly<O>, held: seq<Chunk<O>>, c: Chunk<O>)
    requires Holds(a, held) && (c.current == 0 ==> |held| < 0xFFFF_FFFF)
    ensures var call := Offer(a, c).1;
      && (call.Call? <==> c.current == |held| + 1)
      && (call.Call? ==>
        && InSequence(held + [c]) && call.orders == Concat(Entries(held + [c])) && !call.leftover
        && (call.last <==> |held + [c]| == c.total))
  {
    EntriesLast(held, c);
    NothingHeldIff(held);
  }

  lemma NothingHeldIff<O>(held: seq<Chunk<O>>)
    ensures held == [] ==> Concat(Entries(held)) == []
  {
  }

  /** After an offer the state holds chunks again if and only if the offer does not spoil it:
      a zero total on any other chunk does no harm. */
  lemma OfferKeepsIff<O>(a: Assembly<O>, held: seq<Chunk<O>>, c: Chunk<O>)
    requires Holds(a, held) && (c.current == 0 ==> |held| < 0xFFFF_FFFF)
    ensures (exists h :: Holds(Offer(a, c).0, h)) <==> !Spoils(a, c)
  {
    OfferKeeps(a, held, c);
    if Spoils(a, c) {
      forall h
        ensures !Holds(Offer(a, c).0, h)
      {
        NothingHeldIff(h);
        assert |Offer(a, c).0.orders| >= |c.entries| > 0;
      }
    }
  }

  /** The state after the first `k` of a sequence of chunks. */
  function StateAfter<O>(cs: seq<Chunk<O>>, k: nat): Assembly<O>
    requires k <= |cs|
  {
    if k == 0 then Idle() else Offer(StateAfter(cs, k - 1), cs[k - 1]).0
  }

  lemma {:induction false} StateOfPrefix<O>(cs: seq<Chunk<O>>, more: seq<Chunk<O>>, k: nat)
    requires k <= |cs|
    ensures StateAfter(cs + more, k) == StateAfter(cs, k)
  {
    if k > 0 {
      StateOfPrefix(cs, more, k - 1);
      assert (cs + more)[k - 1] == cs[k - 1];
    }
  }

  /** The callback made for chunk `k`. */
  function CallAt<O>(cs: seq<Chunk<O>>, k: nat): Call<O>
    requires k < |cs|
  {
    Offer(StateAfter(cs, k), cs[k]).1
  }

  /** `at` are places among the first `n` chunks, in order, none twice. */
  ghost predicate Places(at: seq<nat>, n: nat) {
    && (forall i, j :: 0 <= i < j < |at| ==> at[i] < at[j])
    && (forall i :: 0 <= i < |at| ==> at[i] < n)
  }

  ghost function Pick<O>(cs: seq<Chunk<O>>, at: seq<nat>): seq<Chunk<O>>
    requires Places(at, |cs|)
  {
    seq(|at|, i requires 0 <= i < |at| => cs[at[i]])
  }

  /** The chunks found at the places `at`, each of them accepted, are held in the state. */
  ghost predicate Accounts<O>(cs: seq<Chunk<O>>, k: nat, at: seq<nat>)
    requires k <= |cs|
  {
    && Places(at, k)
    && Holds(StateAfter(cs, k), Pick(cs, at))
    && AllFrom(at, k, AcceptedIn(cs))
    && OnlyRepeats(cs, at, k)
  }

  /** Behind the chunk at each of the places, up to the next of them, or up to chunk `k`, there
      are only repetitions of it. */
  ghost predicate OnlyRepeats<O>(cs: seq<Chunk<O>>, at: seq<nat>, k: nat)
    requires k <= |cs|
  {
    forall i, j :: RepeatsAt(cs, at, k, i, j)
  }

  predicate RepeatsAt<O>(cs: seq<Chunk<O>>, at: seq<nat>, k: nat, i: int, j: int)
    requires k <= |cs|
  {
    0 <= i < |at| && at[i] < j < (if i + 1 < |at| then at[i + 1] else k) && j < k ==> cs[j].current == i + 1
  }

  lemma MoreRepeats<O>(cs: seq<Chunk<O>>, at: seq<nat>, k: nat, n: nat)
    requires k + 1 == n <= |cs| && Places(at, k) && OnlyRepeats(cs, at, k)
    ensures OnlyRepeats(cs, at + [k], n)
    ensures cs[k].current == |at| ==> OnlyRepeats(cs, at, n)
  {
    forall i, j
      ensures RepeatsAt(cs, at + [k], n, i, j)
      ensures cs[k].current == |at| ==> RepeatsAt(cs, at, n, i, j)
    {
      assert RepeatsAt(cs, at, k, i, j);
    }
  }

  /** The accepted chunks. */
  function AcceptedIn<O>(cs: seq<Chunk<O>>): nat -> bool {
    (j: nat) => j < |cs| && CallAt(cs, j).Call?
  }

  /** `at` are all places below `k` that are `ok`, from the first of them on. */
  ghost predicate AllFrom(at: seq<nat>, k: nat, ok: nat -> bool) {
    && (forall i :: 0 <= i < |at| ==> ok(at[i]))
    && (at != [] ==> forall j :: at[0] <= j < k && ok(j) ==> j in at)
  }

  lemma AllFromMore(at: seq<nat>, k: nat, n: nat, ok: nat -> bool)
    requires Places(at, k) && AllFrom(at, k, ok) && n == k + 1
    ensures ok(k) ==> AllFrom(at + [k], n, ok)
    ensures !ok(k) ==> AllFrom(at, n, ok)
  {
    assert (at + [k])[|at|] == k;
    assert forall j :: j in at ==> j in at + [k];
  }

  lemma PickMore<O>(cs: seq<Chunk<O>>, at: seq<nat>, k: nat, n: nat)
    requires k < |cs| && Places(at, k) && n == k + 1
    ensures Places(at, n) && Places(at + [k], n) && Pick(cs, at + [k]) == Pick(cs, at) + [cs[k]]
  {
  }

  lemma {:induction false} PlacesFit(at: seq<nat>, n: nat)
    requires Places(at, n)
    ensures |at| <= n
  {
    if at != [] {
      PlacesFit(at[..|at| - 1], at[|at| - 1]);
    }
  }

  /** No chunk before chunk `k` spoils the assembly, and a chunk numbered zero comes before
      the 32-bit chunk number can wrap around to it. */
  ghost predicate Sane<O>(cs: seq<Chunk<O>>, k: nat)
    requires k <= |cs|
  {
    forall i :: 0 <= i < k ==> SaneAt(cs, i)
  }

  predicate SaneAt<O>(cs: seq<Chunk<O>>, i: nat)
    requires i < |cs|
  {
    !Spoils(StateAfter(cs, i), cs[i]) && NoWrapAt(cs, i)
  }

  predicate NoWrapAt<O>(cs: seq<Chunk<O>>, i: nat)
    requires i < |cs|
  {
    cs[i].current == 0 ==> i < 0xFFFF_FFFF
  }

  lemma HoldsMore<O>(cs: seq<Chunk<O>>, k: nat, n: nat, before: seq<nat>)
    requires k + 1 == n <= |cs| && SaneAt(cs, k) && Accounts(cs, k, before)
    ensures |Pick(cs, before)| == |before|
    ensures Holds(StateAfter(cs, n), HeldAfter(Pick(cs, before), cs[k]))
    ensures AcceptedIn(cs)(k) <==> cs[k].current == |before| + 1
  {
    PlacesFit(before, k);
    var a, c := StateAfter(cs, k), cs[k];
    OfferKeeps(a, Pick(cs, before), c);
    assert StateAfter(cs, k + 1) == Offer(a, c).0 && CallAt(cs, k) == Offer(a, c).1;
  }

  lemma OneMoreChunk<O>(cs: seq<Chunk<O>>, k: nat, n: nat, before: seq<nat>) returns (at: seq<nat>)
    requires k + 1 == n <= |cs| && SaneAt(cs, k) && Accounts(cs, k, before)
    ensures Accounts(cs, n, at)
  {
    var held := Pick(cs, before);
    HoldsMore(cs, k, n, before);
    PickMore(cs, before, k, n);
    AllFromMore(before, k, n, AcceptedIn(cs));
    MoreRepeats(cs, before, k, n);
    if HeldAfter(held, cs[k]) == [] {
      at := [];
      AccountsFor(cs, n, at, []);
    } else if AcceptedIn(cs)(k) {
      at := before + [k];
      AccountsFor(cs, n, at, held + [cs[k]]);
    } else {
      at := before;
      AccountsFor(cs, n, at, held);
    }
  }

  lemma AccountsFor<O>(cs: seq<Chunk<O>>, k: nat, at: seq<nat>, held: seq<Chunk<O>>)
    requires k <= |cs| && Places(at, k) && Pick(cs, at) == held
    requires Holds(StateAfter(cs, k), held) && AllFrom(at, k, AcceptedIn(cs)) && OnlyRepeats(cs, at, k)
    ensures Accounts(cs, k, at)
  {
  }

  lemma {:induction false} StateIsAccountedFor<O>(cs: seq<Chunk<O>>, k: nat) returns (at: seq<nat>)
    requires k <= |cs| && Sane(cs, k)
    ensures Accounts(cs, k, at)
  {
    if k == 0 {
      at := [];
      NothingHeld(cs);
    } else {
      var j := k - 1;
      at := StateIsAccountedFor(cs, j);
      assert SaneAt(cs, j);
      at := OneMoreChunk(cs, j, k, at);
    }
  }

  lemma NothingHeld<O>(cs: seq<Chunk<O>>)
    ensures Accounts(cs, 0, [])
  {
    assert Pick(cs, []) == [] && Entries<O>([]) == [];
  }

  /** The places `at` are those of all accepted chunks from the first of them on; they are
      numbered one, two, three and so on up to chunk `k` itself, with nothing but repetitions
      in between, and `orders` are their orders. */
  ghost predicate Assembled<O>(cs: seq<Chunk<O>>, k: nat, at: seq<nat>, orders: seq<O>)
    requires k < |cs|
  {
    && Places(at, k + 1) && at != [] && at[|at| - 1] == k
    && InSequence(Pick(cs, at)) && orders == Concat(Entries(Pick(cs, at)))
    && AllFrom(at, k + 1, AcceptedIn(cs)) && OnlyRepeats(cs, at, k + 1)
  }

  /** Over every sequence of chunks: whenever the callback runs, the orders are those of
      accepted chunks 1, 2, ... up to the present one, each once and in order; it runs
      with `last` exactly if these are all that the chunk announces; and chunk one never
      meets leftover orders. */
  lemma AssemblesInOrder<O>(cs: seq<Chunk<O>>, k: nat) returns (at: seq<nat>)
    requires k < |cs| && Sane(cs, k) && NoWrapAt(cs, k)
    ensures var call := CallAt(cs, k);
      call.Call? ==> Assembled(cs, k, at, call.orders) && !call.leftover && (call.last <==> |at| == cs[k].total)
  {
    var before := StateIsAccountedFor(cs, k);
    PlacesFit(before, k);
    OfferKeeps(StateAfter(cs, k), Pick(cs, before), cs[k]);
    at := before + [k];
    if CallAt(cs, k).Call? {
      LastIsPlaced(cs, k, before, CallAt(cs, k).orders);
    }
  }

  lemma LastIsPlaced<O>(cs: seq<Chunk<O>>, k: nat, before: seq<nat>, orders: seq<O>)
    requires k < |cs| && Places(before, k) && OnlyRepeats(cs, before, k)
    requires AllFrom(before, k, AcceptedIn(cs)) && AcceptedIn(cs)(k)
    requires var held := Pick(cs, before) + [cs[k]]; InSequence(held) && orders == Concat(Entries(held))
    ensures Assembled(cs, k, before + [k], orders)
  {
    PickMore(cs, before, k, k + 1);
    AllFromMore(before, k, k + 1, AcceptedIn(cs));
    MoreRepeats(cs, before, k, k + 1);
  }

  /** The condition is needed: a spoiled assembly makes the surprise reachable. */
  lemma ZeroTotalLeavesOrders<O>(o: O)
    ensures var c := Chunk(1, 0, [o]); Offer(Offer(Idle(), c).0, c).1 == Call([o, o], false, true)
  {
  }

  // ---------- which snapshots complete ----------

  /** The order lists that the callback receives with `last`, over a sequence of chunks. */
  function Completions<O>(a: Assembly<O>, cs: seq<Chunk<O>>): seq<seq<O>>
    decreases |cs|
  {
    if cs == [] then []
    else
      var (a', call) := Offer(a, cs[0]);
      (if call.Call? && call.last then [call.orders] else []) + Completions(a', cs[1..])
  }

  /** The chunks `from + 1, ..., |parts|` of a snapshot, sent in order. */
  function ChunksFrom<O>(parts: seq<seq<O>>, from: nat): seq<Chunk<O>>
    requires from <= |parts| < 0x1_0000_0000
    decreases |parts| - from
  {
    if from == |parts| then []
    else [Chunk(from + 1, |parts|, parts[from])] + ChunksFrom(parts, from + 1)
  }

  lemma {:induction false} IdleSkipsRest<O>(parts: seq<seq<O>>, from: nat)
    requires 1 <= from <= |parts| < 0x1_0000_0000
    ensures Completions(Idle(), ChunksFrom(parts, from)) == []
    decreases |parts| - from
  {
    if from < |parts| {
      IdleSkipsRest(parts, from + 1);
      assert ChunksFrom(parts, from)[1..] == ChunksFrom(parts, from + 1);
    }
  }

  lemma {:induction false} PendingCompletes<O>(a: Assembly<O>, parts: seq<seq<O>>, from: nat)
    requires 1 <= from < |parts| < 0x1_0000_0000
    requires a.total != 0 && a.last == from
    ensures Completions(a, ChunksFrom(parts, from)) == [a.orders + Concat(parts[from..])]
    decreases |parts| - from
  {
    var c := Chunk(from + 1, |parts|, parts[from]);
    var rest := ChunksFrom(parts, from + 1);
    assert ChunksFrom(parts, from)[1..] == rest;
    assert parts[from..] == [parts[from]] + parts[from + 1..];
    assert parts[from..][1..] == parts[from + 1..];
    assert a.orders + parts[from] + Concat(parts[from + 1..]) == a.orders + Concat(parts[from..]);
    if from + 1 == |parts| {
      assert rest == [] && parts[from + 1..] == [];
      assert a.orders + Concat(parts[from..]) == a.orders + parts[from];
      assert Completions(Offer(a, c).0, rest) == [];
    } else {
      PendingCompletes(Offer(a, c).0, parts, from + 1);
    }
  }

  /** A snapshot sent whole and in order reaches the book as itself exactly from an idle
      assembly. Behind a pending chunk one, its own first chunk is replaced by the
      pending one; behind anything else, and behind a finished single-chunk snapshot if
      it is itself single-chunk, it is dropped. */
  lemma SnapshotOutcome<O>(a: Assembly<O>, held: seq<Chunk<O>>, parts: seq<seq<O>>)
    requires Holds(a, held) && 1 <= |parts| < 0x1_0000_0000
    ensures Completions(a, ChunksFrom(parts, 0)) ==
      if a.total == 0 then [Concat(parts)]
      else if a.last == 1 && |parts| >= 2 then [a.orders + Concat(parts[1..])]
      else []
  {
    var c := Chunk(1, |parts|, parts[0]);
    var (a', call) := Offer(a, c);
    var rest := ChunksFrom(parts, 1);
    assert ChunksFrom(parts, 0)[1..] == rest;
    assert a.total == 0 ==> a.orders == [];
    assert a.orders + parts[0] == if a.total == 0 then parts[0] else a.orders + parts[0];
    if |parts| == 1 {
      assert rest == [] && Concat(parts) == parts[0];
    } else if a.total == 0 || a.last == 1 {
      PendingCompletes(a', parts, 1);
    } else {
      IdleSkipsRest(parts, 1);
    }
  }

  /** A lost chunk costs its own snapshot and no more: the number that skips it drops what is
      held, and the next snapshot sent whole and in order reaches the book as itself. */
  lemma LostChunkCostsOneSnapshot<O>(a: Assembly<O>, held: seq<Chunk<O>>, c: Chunk<O>, parts: seq<seq<O>>)
    requires Holds(a, held) && held != [] && c.current != |held| && c.current != |held| + 1
    requires (c.current == 0 ==> |held| < 0xFFFF_FFFF) && 1 <= |parts| < 0x1_0000_0000
    ensures Completions(a, [c] + ChunksFrom(parts, 0)) == [Concat(parts)]
  {
    OfferKeeps(a, held, c);
    assert ([c] + ChunksFrom(parts, 0))[1..] == ChunksFrom(parts, 0);
    SnapshotOutcome(Offer(a, c).0, [], parts);
    assert [] + [Concat(parts)] == [Concat(parts)];
  }

  /** After a single-chunk snapshot the state is not reset, so however many single-chunk
      snapshots follow, none of them is offered again. */
  lemma {:induction false} SingleChunkSticks<O>(a: Assembly<O>, cs: seq<Chunk<O>>)
    requires a.total != 0 && a.last == 1
    requires forall c :: c in cs ==> c.current == 1
    ensures Completions(a, cs) == []
    decreases |cs|
  {
    if cs != [] {
      SingleChunkSticks(a, cs[1..]);
    }
  }

  /** Worse, the orders of a chunk one that announces zero end up in the next snapshot. */
  lemma ZeroTotalLeaks<O>(o: O, a: O, b: O)
    ensures Completions(Idle(), [Chunk(1, 0, [o]), Chunk(1, 2, [a]), Chunk(2, 2, [b])]) == [[o, a, b]]
  {
    var c0, c1, c2 := Chunk(1, 0, [o]), Chunk(1, 2, [a]), Chunk(2, 2, [b]);
    var s1 := Offer(Idle(), c0).0;
    var s2 := Offer(s1, c1).0;
    assert [o] + [a] == [o, a] && [o, a] + [b] == [o, a, b];
    assert s1 == Assembly(0, 1, [o]) && s2 == Assembly(2, 1, [o, a]);
    assert [c0, c1, c2][1..] == [c1, c2] && [c1, c2][1..] == [c2] && [c2][1..] == [];
    assert Completions(Offer(s2, c2).0, []) == [];
    assert Completions(s2, [c2]) == [[o, a, b]];
    assert Completions(s1, [c1, c2]) == [[o, a, b]];
  }
}
