/** Maximal runs of consecutive items with the same security id. */
module Grouping {
  import opened Sequences

  datatype Keyed<+T> = Keyed(id: int, item: T)

  /** The id changes after the first `k` items, or there are no more. */
  predicate Boundary<T>(xs: seq<Keyed<T>>, k: nat)
    requires 1 <= k <= |xs|
  {
    k == |xs| || xs[k].id != xs[k - 1].id
  }

  /** Where the run that ends with item `k - 1` began. */
  function StartOf<T>(xs: seq<Keyed<T>>, k: nat): (a: nat)
    requires 1 <= k <= |xs|
    ensures a < k
  {
    if k == 1 || xs[k - 2].id != xs[k - 1].id then k - 1 else StartOf(xs, k - 1)
  }

  ghost predicate Uniform<T>(xs: seq<Keyed<T>>, a: nat, b: nat)
    requires a < b <= |xs|
  {
    forall i :: a <= i < b ==> xs[i].id == xs[a].id
  }

  /** `a..b` is a run that cannot be extended on either side. */
  ghost predicate MaximalRun<T>(xs: seq<Keyed<T>>, a: nat, b: nat)
    requires a < b <= |xs|
  {
    && Uniform(xs, a, b)
    && (a == 0 || xs[a - 1].id != xs[a].id)
    && (b == |xs| || xs[b].id != xs[a].id)
  }

  lemma {:induction false} StartsUniform<T>(xs: seq<Keyed<T>>, k: nat)
    requires 1 <= k <= |xs|
    ensures var a := StartOf(xs, k);
      Uniform(xs, a, k) && (a == 0 || xs[a - 1].id != xs[a].id) && xs[a].id == xs[k - 1].id
  {
    if k > 1 && xs[k - 2].id == xs[k - 1].id {
      StartsUniform(xs, k - 1);
    }
  }

  lemma {:induction false} RunEndsOnce<T>(xs: seq<Keyed<T>>, a: nat, b: nat)
    requires a < b <= |xs| && Uniform(xs, a, b) && (a == 0 || xs[a - 1].id != xs[a].id)
    ensures a == StartOf(xs, b)
    decreases b
  {
    if b - 1 > a {
      RunEndsOnce(xs, a, b - 1);
    }
  }

  /** Boundaries and maximal runs correspond one to one. */
  lemma RunsAreBoundaries<T>(xs: seq<Keyed<T>>, a: nat, b: nat)
    requires a < b <= |xs|
    ensures MaximalRun(xs, a, b) <==> Boundary(xs, b) && a == StartOf(xs, b)
  {
    StartsUniform(xs, b);
    if MaximalRun(xs, a, b) {
      RunEndsOnce(xs, a, b);
    }
  }

  // ---------- what the runs hold for one id ----------

  /** The images of the items `a` to `k`. */
  function Part<S, T>(xs: seq<Keyed<S>>, a: nat, k: nat, f: S -> seq<T>): seq<T>
    requires a <= k <= |xs|
  {
    if a == k then [] else Part(xs, a, k - 1, f) + f(xs[k - 1].item)
  }

  /** The images of the items of one id among the first `k`: what should be published. */
  function Own<S, T>(xs: seq<Keyed<S>>, k: nat, id: int, f: S -> seq<T>): seq<T>
    requires k <= |xs|
  {
    if k == 0 then [] else Own(xs, k - 1, id, f) + if xs[k - 1].id == id then f(xs[k - 1].item) else []
  }

  /** The loops start out with id zero, so that a leading run of it is not looked up. */
  predicate Skipped<S>(xs: seq<Keyed<S>>, a: nat)
    requires a < |xs|
  {
    a == 0 && xs[a].id == 0
  }

  predicate SkippedAt<S>(xs: seq<Keyed<S>>, k: nat)
    requires k < |xs|
  {
    Skipped(xs, StartOf(xs, k + 1))
  }

  /** The images of the items of one id that are looked up. */
  function Live<S, T>(xs: seq<Keyed<S>>, k: nat, id: int, f: S -> seq<T>): seq<T>
    requires k <= |xs|
  {
    if k == 0 then []
    else Live(xs, k - 1, id, f) + if xs[k - 1].id == id && !SkippedAt(xs, k - 1) then f(xs[k - 1].item) else []
  }

  /** And of those that are not. */
  function Lost<S, T>(xs: seq<Keyed<S>>, k: nat, id: int, f: S -> seq<T>): seq<T>
    requires k <= |xs|
  {
    if k == 0 then []
    else Lost(xs, k - 1, id, f) + if xs[k - 1].id == id && SkippedAt(xs, k - 1) then f(xs[k - 1].item) else []
  }

  /** The runs of one id that end within the first `k` items and are looked up. */
  function Kept<S, T>(xs: seq<Keyed<S>>, k: nat, id: int, f: S -> seq<T>): seq<T>
    requires k <= |xs|
  {
    if k == 0 then [] else Kept(xs, k - 1, id, f) + if Boundary(xs, k) then Current(xs, k, id, f) else []
  }

  /** The run that ends with item `k - 1`, if it is of that id and is looked up. */
  function Current<S, T>(xs: seq<Keyed<S>>, k: nat, id: int, f: S -> seq<T>): seq<T>
    requires 1 <= k <= |xs|
  {
    if xs[k - 1].id == id && !SkippedAt(xs, k - 1) then Part(xs, StartOf(xs, k), k, f) else []
  }

  /** One block for each maximal run that ends within the first `k` items. */
  function Blocks<S, U>(xs: seq<Keyed<S>>, k: nat, block: (nat, nat) -> seq<U>): seq<U>
    requires k <= |xs|
  {
    if k == 0 then [] else Blocks(xs, k - 1, block) + if Boundary(xs, k) then block(StartOf(xs, k), k) else []
  }

  /** What `h` makes of each run of one id that ends within the first `k` items and is looked
      up. */
  function PerRun<S, T>(xs: seq<Keyed<S>>, k: nat, id: int, h: (nat, nat) -> seq<T>): seq<T>
    requires k <= |xs|
  {
    if k == 0 then []
    else
      PerRun(xs, k - 1, id, h)
      + if Boundary(xs, k) && xs[k - 1].id == id && !SkippedAt(xs, k - 1) then h(StartOf(xs, k), k) else []
  }

  /** Seen through `g`, the block of the run `a..b` is what `h` makes of the run, for `id`. */
  ghost predicate BlockGives<S, U, T>(
    xs: seq<Keyed<S>>, a: nat, b: nat, id: int, block: (nat, nat) -> seq<U>, g: U -> seq<T>, h: (nat, nat) -> seq<T>)
  {
    a < b <= |xs| && Uniform(xs, a, b) ==>
      FlatMap(block(a, b), g) == if xs[a].id == id && !Skipped(xs, a) then h(a, b) else []
  }

  lemma {:induction false} BlocksArePerRun<S, U, T>(
    xs: seq<Keyed<S>>, k: nat, id: int, block: (nat, nat) -> seq<U>, g: U -> seq<T>, h: (nat, nat) -> seq<T>)
    requires k <= |xs| && forall a, b :: BlockGives(xs, a, b, id, block, g, h)
    ensures FlatMap(Blocks(xs, k, block), g) == PerRun(xs, k, id, h)
  {
    if k > 0 {
      BlocksArePerRun(xs, k - 1, id, block, g, h);
      OneBlock(xs, k, id, block, g, h);
    }
  }

  lemma OneBlock<S, U, T>(
    xs: seq<Keyed<S>>, k: nat, id: int, block: (nat, nat) -> seq<U>, g: U -> seq<T>, h: (nat, nat) -> seq<T>)
    requires 1 <= k <= |xs| && BlockGives(xs, StartOf(xs, k), k, id, block, g, h)
    requires FlatMap(Blocks(xs, k - 1, block), g) == PerRun(xs, k - 1, id, h)
    ensures FlatMap(Blocks(xs, k, block), g) == PerRun(xs, k, id, h)
  {
    StartsUniform(xs, k);
    var a := StartOf(xs, k);
    if Boundary(xs, k) {
      FlatMapBoth(Blocks(xs, k - 1, block), block(a, k), g, PerRun(xs, k - 1, id, h),
                  if xs[a].id == id && !Skipped(xs, a) then h(a, k) else []);
    } else {
      NothingMore(Blocks(xs, k - 1, block));
      NothingMore(PerRun(xs, k - 1, id, h));
    }
  }

  /** Item by item within each run. */
  function PartOf<S, T>(xs: seq<Keyed<S>>, f: S -> seq<T>): (nat, nat) -> seq<T> {
    (a: nat, b: nat) => if a <= b <= |xs| then Part(xs, a, b, f) else []
  }

  lemma {:induction false} PartsAreKept<S, T>(xs: seq<Keyed<S>>, k: nat, id: int, f: S -> seq<T>)
    requires k <= |xs|
    ensures PerRun(xs, k, id, PartOf(xs, f)) == Kept(xs, k, id, f)
  {
    if k > 0 {
      PartsAreKept(xs, k - 1, id, f);
    }
  }

  /** If each block gives what its run holds for `id`, item by item, then they all give what is
      looked up for it. */
  lemma BlocksAreLive<S, U, T>(
    xs: seq<Keyed<S>>, id: int, block: (nat, nat) -> seq<U>, g: U -> seq<T>, f: S -> seq<T>)
    requires forall a, b :: BlockGives(xs, a, b, id, block, g, PartOf(xs, f))
    ensures FlatMap(Blocks(xs, |xs|, block), g) == Live(xs, |xs|, id, f)
  {
    BlocksArePerRun(xs, |xs|, id, block, g, PartOf(xs, f));
    PartsAreKept(xs, |xs|, id, f);
    KeptIsLive(xs, id, f);
  }

  lemma {:induction false} BlocksHaveNone<S, U, T>(
    xs: seq<Keyed<S>>, k: nat, block: (nat, nat) -> seq<U>, g: U -> seq<T>)
    requires k <= |xs| && forall a, b :: FlatMap(block(a, b), g) == []
    ensures FlatMap(Blocks(xs, k, block), g) == []
  {
    if k > 0 {
      BlocksHaveNone(xs, k - 1, block, g);
      FlatMapBoth(Blocks(xs, k - 1, block), if Boundary(xs, k) then block(StartOf(xs, k), k) else [], g, [], []);
    }
  }

  /** Whether or not the current run ends, kept and current together grow by `one`. */
  lemma MoveAlong<T>(
    ended: bool, kept: seq<T>, current: seq<T>, kept': seq<T>, current': seq<T>, all: seq<T>, one: seq<T>)
    requires kept + current == all
    requires kept' == kept + if ended then current else []
    requires current' == (if ended then [] else current) + one
    ensures kept' + current' == all + one
  {
  }

  lemma CurrentStep<S, T>(xs: seq<Keyed<S>>, k: nat, id: int, f: S -> seq<T>)
    requires 2 <= k <= |xs|
    ensures Current(xs, k, id, f) == (if Boundary(xs, k - 1) then [] else Current(xs, k - 1, id, f))
      + if xs[k - 1].id == id && !SkippedAt(xs, k - 1) then f(xs[k - 1].item) else []
  {
    assert Part(xs, k - 1, k - 1, f) == [];
  }

  lemma {:induction false} KeptSoFar<S, T>(xs: seq<Keyed<S>>, k: nat, id: int, f: S -> seq<T>)
    requires 1 <= k <= |xs|
    ensures Kept(xs, k - 1, id, f) + Current(xs, k, id, f) == Live(xs, k, id, f)
  {
    if k == 1 {
      assert Part(xs, 0, 0, f) == [] && Live(xs, 0, id, f) == [];
    } else {
      KeptSoFar(xs, k - 1, id, f);
      CurrentStep(xs, k, id, f);
      MoveAlong(Boundary(xs, k - 1), Kept(xs, k - 2, id, f), Current(xs, k - 1, id, f),
                Kept(xs, k - 1, id, f), Current(xs, k, id, f), Live(xs, k - 1, id, f),
                if xs[k - 1].id == id && !SkippedAt(xs, k - 1) then f(xs[k - 1].item) else []);
    }
  }

  /** Run by run or item by item, the same is looked up. */
  lemma KeptIsLive<S, T>(xs: seq<Keyed<S>>, id: int, f: S -> seq<T>)
    ensures Kept(xs, |xs|, id, f) == Live(xs, |xs|, id, f)
  {
    if xs != [] {
      KeptSoFar(xs, |xs|, id, f);
    }
  }

  /** The length of the leading run of id zero. */
  function Lead<S>(xs: seq<Keyed<S>>): (n: nat)
    ensures n <= |xs|
  {
    LeadFrom(xs, 0)
  }

  function LeadFrom<S>(xs: seq<Keyed<S>>, i: nat): (n: nat)
    requires i <= |xs|
    ensures i <= n <= |xs|
    decreases |xs| - i
  {
    if i == |xs| || xs[i].id != 0 then i else LeadFrom(xs, i + 1)
  }

  lemma {:induction false} LeadFromIs<S>(xs: seq<Keyed<S>>, i: nat)
    requires i <= |xs|
    ensures forall j :: i <= j < LeadFrom(xs, i) ==> xs[j].id == 0
    ensures LeadFrom(xs, i) < |xs| ==> xs[LeadFrom(xs, i)].id != 0
    decreases |xs| - i
  {
    if i < |xs| && xs[i].id == 0 {
      LeadFromIs(xs, i + 1);
    }
  }

  lemma SkippedIffLeading<S>(xs: seq<Keyed<S>>, k: nat)
    requires k < |xs|
    ensures SkippedAt(xs, k) <==> k < Lead(xs)
    ensures SkippedAt(xs, k) ==> xs[k].id == 0
  {
    LeadFromIs(xs, 0);
    StartsUniform(xs, k + 1);
    if k < Lead(xs) {
      RunEndsOnce(xs, 0, k + 1);
    }
  }

  lemma {:induction false} NoneBeforeLeading<S, T>(xs: seq<Keyed<S>>, k: nat, id: int, f: S -> seq<T>)
    requires k <= |xs| && (k > 0 ==> SkippedAt(xs, k - 1))
    ensures Live(xs, k, id, f) == []
  {
    if k > 1 {
      NoneBeforeLeading(xs, k - 1, id, f);
    }
  }

  /** Nothing but a leading run of id zero is lost. */
  lemma {:induction false} OwnIsLostAndLive<S, T>(xs: seq<Keyed<S>>, k: nat, id: int, f: S -> seq<T>)
    requires k <= |xs|
    ensures Own(xs, k, id, f) == Lost(xs, k, id, f) + Live(xs, k, id, f)
  {
    if k > 0 {
      OwnIsLostAndLive(xs, k - 1, id, f);
      if xs[k - 1].id == id {
        var one := f(xs[k - 1].item);
        if SkippedAt(xs, k - 1) {
          NoneBeforeLeading(xs, k, id, f);
          if k > 1 {
            NoneBeforeLeading(xs, k - 1, id, f);
          }
        } else {
          Rebracket(Lost(xs, k - 1, id, f), Live(xs, k - 1, id, f), one);
        }
      }
    }
  }

  /** No item of a leading run of id zero means anything. */
  ghost predicate NoneLost<S, T>(xs: seq<Keyed<S>>, id: int, f: S -> seq<T>) {
    id == 0 ==> AllEmpty(xs, Lead(xs), f)
  }

  ghost predicate AllEmpty<S, T>(xs: seq<Keyed<S>>, k: nat, f: S -> seq<T>)
    requires k <= |xs|
  {
    forall j :: 0 <= j < k ==> f(xs[j].item) == []
  }

  lemma AllEmptyMore<S, T>(xs: seq<Keyed<S>>, k: nat, f: S -> seq<T>)
    requires k < |xs|
    ensures AllEmpty(xs, k + 1, f) <==> AllEmpty(xs, k, f) && f(xs[k].item) == []
  {
  }

  function Least(a: nat, b: nat): nat { if a < b then a else b }

  lemma {:induction false} LostIff<S, T>(xs: seq<Keyed<S>>, k: nat, id: int, f: S -> seq<T>)
    requires k <= |xs|
    ensures Lost(xs, k, id, f) == [] <==> (id == 0 ==> AllEmpty(xs, Least(k, Lead(xs)), f))
  {
    if k > 0 {
      LostIff(xs, k - 1, id, f);
      SkippedIffLeading(xs, k - 1);
      if k <= Lead(xs) {
        AllEmptyMore(xs, k - 1, f);
      }
    }
  }

  /** All that should be published is, if and only if no leading item of id zero counts. */
  lemma LiveIsOwnIff<S, T>(xs: seq<Keyed<S>>, id: int, f: S -> seq<T>)
    ensures Live(xs, |xs|, id, f) == Own(xs, |xs|, id, f) <==> NoneLost(xs, id, f)
    ensures |Own(xs, |xs|, id, f)| == |Live(xs, |xs|, id, f)| <==> NoneLost(xs, id, f)
    ensures |Own(xs, |xs|, id, f)| >= |Live(xs, |xs|, id, f)|
  {
    OwnIsLostAndLive(xs, |xs|, id, f);
    LostIff(xs, |xs|, id, f);
  }
}
