/** Facts about concatenation that the verifier is better told. */
module Sequences {

  function Concat<T>(parts: seq<seq<T>>): seq<T> {
    if parts == [] then [] else parts[0] + Concat(parts[1..])
  }

  lemma {:induction false} ConcatLast<T>(parts: seq<seq<T>>, p: seq<T>)
    ensures Concat(parts + [p]) == Concat(parts) + p
  {
    if parts != [] {
      ConcatLast(parts[1..], p);
      assert (parts + [p])[1..] == parts[1..] + [p];
      Rebracket(parts[0], Concat(parts[1..]), p);
    } else {
      assert [p][1..] == [];
    }
  }

  /** The images of the first `n` elements, one after the other. */
  function Flat<S, T>(s: seq<S>, n: nat, f: S -> seq<T>): seq<T>
    requires n <= |s|
  {
    if n == 0 then [] else Flat(s, n - 1, f) + f(s[n - 1])
  }

  function FlatMap<S, T>(s: seq<S>, f: S -> seq<T>): seq<T> { Flat(s, |s|, f) }

  lemma {:induction false} FlatPrefix<S, T>(a: seq<S>, b: seq<S>, n: nat, f: S -> seq<T>)
    requires n <= |a|
    ensures Flat(a + b, n, f) == Flat(a, n, f)
  {
    if n > 0 {
      FlatPrefix(a, b, n - 1, f);
      assert (a + b)[n - 1] == a[n - 1];
    }
  }

  lemma {:induction false} FlatSplit<S, T>(a: seq<S>, b: seq<S>, j: nat, f: S -> seq<T>)
    requires j <= |b|
    ensures Flat(a + b, |a| + j, f) == Flat(a, |a|, f) + Flat(b, j, f)
  {
    if j == 0 {
      FlatPrefix(a, b, |a|, f);
    } else {
      FlatSplit(a, b, j - 1, f);
      assert (a + b)[|a| + j - 1] == b[j - 1];
      Rebracket(Flat(a, |a|, f), Flat(b, j - 1, f), f(b[j - 1]));
    }
  }

  lemma FlatMapAppend<S, T>(a: seq<S>, b: seq<S>, f: S -> seq<T>)
    ensures FlatMap(a + b, f) == FlatMap(a, f) + FlatMap(b, f)
  {
    FlatSplit(a, b, |b|, f);
  }

  lemma FlatMapBoth<S, T>(a: seq<S>, b: seq<S>, f: S -> seq<T>, x: seq<T>, y: seq<T>)
    requires FlatMap(a, f) == x && FlatMap(b, f) == y
    ensures FlatMap(a + b, f) == x + y
  {
    FlatMapAppend(a, b, f);
  }

  lemma FlatMapOne<S, T>(x: S, f: S -> seq<T>)
    ensures FlatMap([x], f) == f(x)
  {
    assert Flat([x], 0, f) == [] && [x][0] == x;
  }

  lemma FlatMapMore<S, T>(s: seq<S>, x: S, f: S -> seq<T>)
    ensures FlatMap(s + [x], f) == FlatMap(s, f) + f(x)
  {
    FlatMapAppend(s, [x], f);
    FlatMapOne(x, f);
  }

  /** Elements without images add nothing. */
  lemma {:induction false} FlatNone<S, T>(s: seq<S>, n: nat, f: S -> seq<T>)
    requires n <= |s| && forall i :: 0 <= i < n ==> f(s[i]) == []
    ensures Flat(s, n, f) == []
  {
    if n > 0 {
      FlatNone(s, n - 1, f);
    }
  }

  /** A single element with an image gives that image. */
  lemma {:induction false} FlatSingle<S, T>(s: seq<S>, n: nat, f: S -> seq<T>, j: nat)
    requires j < n <= |s| && forall i :: 0 <= i < n && i != j ==> f(s[i]) == []
    ensures Flat(s, n, f) == f(s[j])
  {
    if j == n - 1 {
      FlatNone(s, n - 1, f);
    } else {
      FlatSingle(s, n - 1, f, j);
    }
  }

  lemma {:induction false} FlatFlat<R, S, T>(s: seq<R>, n: nat, f: R -> seq<S>, g: S -> seq<T>, h: R -> seq<T>)
    requires n <= |s| && forall i :: 0 <= i < n ==> h(s[i]) == FlatMap(f(s[i]), g)
    ensures FlatMap(Flat(s, n, f), g) == Flat(s, n, h)
  {
    if n > 0 {
      FlatFlat(s, n - 1, f, g, h);
      FlatMapAppend(Flat(s, n - 1, f), f(s[n - 1]), g);
    }
  }

  ghost predicate Distinct<T>(s: seq<T>) {
    forall i, j :: 0 <= i < j < |s| ==> s[i] != s[j]
  }

  /** Where only the image of `id` is not empty, distinct ids give it at most once. */
  lemma FlatOnce<S, T>(ids: seq<S>, h: S -> seq<T>, id: S)
    requires Distinct(ids) && forall i :: 0 <= i < |ids| && ids[i] != id ==> h(ids[i]) == []
    ensures FlatMap(ids, h) == if id in ids then h(id) else []
  {
    if id in ids {
      var j :| 0 <= j < |ids| && ids[j] == id;
      assert forall i :: 0 <= i < |ids| && i != j ==> ids[i] != id;
      FlatSingle(ids, |ids|, h, j);
    } else {
      FlatNone(ids, |ids|, h);
    }
  }

  lemma NothingMore<T>(s: seq<T>)
    ensures s + [] == s
  {
  }

  lemma Rebracket<T>(a: seq<T>, b: seq<T>, c: seq<T>)
    ensures a + (b + c) == a + b + c
  {
  }

  lemma FirstMore<T>(s: seq<T>, k: nat)
    requires k < |s|
    ensures s[..k + 1] == [s[0]] + s[1..][..k]
  {
  }

  lemma SliceShifts<T>(a: seq<T>, b: seq<T>, i: nat, j: nat)
    requires i <= j <= |b|
    ensures (a + b)[|a| + i..|a| + j] == b[i..j]
  {
  }
}
