/** `Array.prototype.filter` and `Array.prototype.map` over sequences. */
module Seqs {

  function Filter<T>(xs: seq<T>, keep: T -> bool): (ys: seq<T>)
    ensures |ys| <= |xs|
    ensures forall y <- ys :: y in xs && keep(y)
    ensures forall x <- xs :: keep(x) ==> x in ys
  {
    if xs == [] then []
    else
      assert xs == [xs[0]] + xs[1..];
      (if keep(xs[0]) then [xs[0]] else []) + Filter(xs[1..], keep)
  }

  function Map<T, U>(xs: seq<T>, f: T -> U): (ys: seq<U>)
    ensures |ys| == |xs|
    ensures forall i :: 0 <= i < |xs| ==> ys[i] == f(xs[i])
  {
    if xs == [] then [] else [f(xs[0])] + Map(xs[1..], f)
  }

  /** Filtering keeps the relative order: it distributes over concatenation. */
  lemma {:induction false} FilterAppend<T>(a: seq<T>, b: seq<T>, keep: T -> bool)
    ensures Filter(a + b, keep) == Filter(a, keep) + Filter(b, keep)
  {
    if a != [] {
      assert (a + b)[1..] == a[1..] + b;
      FilterAppend(a[1..], b, keep);
    } else {
      assert a + b == b;
    }
  }

  /** Mapping keeps the order: it distributes over concatenation. */
  lemma {:induction false} MapAppend<T, U>(a: seq<T>, b: seq<T>, f: T -> U)
    ensures Map(a + b, f) == Map(a, f) + Map(b, f)
  {
    if a != [] {
      assert (a + b)[1..] == a[1..] + b;
      MapAppend(a[1..], b, f);
    } else {
      assert a + b == b;
    }
  }

  /** The concatenation of the pieces `f` gives for each element, in order. */
  function ConcatMap<T, U>(xs: seq<T>, f: T -> seq<U>): seq<U> {
    if xs == [] then [] else f(xs[0]) + ConcatMap(xs[1..], f)
  }

  lemma {:induction false} ConcatMapAppend<T, U>(a: seq<T>, b: seq<T>, f: T -> seq<U>)
    ensures ConcatMap(a + b, f) == ConcatMap(a, f) + ConcatMap(b, f)
  {
    if a != [] {
      assert (a + b)[1..] == a[1..] + b;
      ConcatMapAppend(a[1..], b, f);
    } else {
      assert a + b == b;
    }
  }

  /** Something is in the concatenation exactly when some element's piece
      holds it. */
  lemma {:induction false} ConcatMapMembers<T, U>(xs: seq<T>, f: T -> seq<U>, y: U)
    ensures y in ConcatMap(xs, f) <==> exists i :: 0 <= i < |xs| && y in f(xs[i])
  {
    if xs != [] {
      ConcatMapMembers(xs[1..], f, y);
      if y in ConcatMap(xs, f) && y !in f(xs[0]) {
        var i :| 0 <= i < |xs[1..]| && y in f(xs[1..][i]);
        assert xs[1..][i] == xs[i + 1];
      }
      if exists i :: 0 <= i < |xs| && y in f(xs[i]) {
        var i :| 0 <= i < |xs| && y in f(xs[i]);
        if i > 0 {
          assert xs[1..][i - 1] == xs[i];
        }
      }
    }
  }

  /** Pieces of at most one element give at most one element per input. */
  lemma {:induction false} ConcatMapShort<T, U>(xs: seq<T>, f: T -> seq<U>)
    requires forall i :: 0 <= i < |xs| ==> |f(xs[i])| <= 1
    ensures |ConcatMap(xs, f)| <= |xs|
  {
    if xs != [] {
      assert forall i :: 0 <= i < |xs[1..]| ==> xs[1..][i] == xs[i + 1];
      ConcatMapShort(xs[1..], f);
    }
  }

  /** A piece that is `[h(g(x))]` when `x` passes `p` and `g(x)` passes `q`,
      and empty otherwise, is one step of the chain
      `filter(p).map(g).filter(q).map(h)`: over a whole sequence the two agree. */
  lemma {:induction false} ConcatMapIsChain<T, V, U>(xs: seq<T>, p: T -> bool, g: T -> V, q: V -> bool, h: V -> U, f: T -> seq<U>)
    requires forall x :: f(x) == if p(x) && q(g(x)) then [h(g(x))] else []
    ensures ConcatMap(xs, f) == Map(Filter(Map(Filter(xs, p), g), q), h)
  {
    if xs != [] {
      var x, rest := xs[0], xs[1..];
      assert xs == [x] + rest;
      ConcatMapIsChain(rest, p, g, q, h, f);
      FilterAppend([x], rest, p);
      MapAppend(Filter([x], p), Filter(rest, p), g);
      FilterAppend(Map(Filter([x], p), g), Map(Filter(rest, p), g), q);
      MapAppend(Filter(Map(Filter([x], p), g), q), Filter(Map(Filter(rest, p), g), q), h);
    }
  }
}
