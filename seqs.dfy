/**
 * Order-preserving filter-and-map over sequences, the shape of every stage
 * of the celebrity lookup pipeline (`map(...).filter(...)` chains and the
 * `for ... continue ... push` loop).
 */
module Seqs {
  import opened Wrappers

  /** Keeps, in order, the images of the elements that `f` maps to `Some`. */
  function FilterMap<A, B>(xs: seq<A>, f: A -> Option<B>): (r: seq<B>)
    ensures |r| <= |xs|
  {
    if xs == [] then []
    else Keep(f(xs[0])) + FilterMap(xs[1..], f)
  }

  /** The contribution of one element: itself if present, nothing otherwise. */
  function Keep<B>(o: Option<B>): (r: seq<B>)
    ensures |r| <= 1
  {
    match o
    case Some(y) => [y]
    case None => []
  }

  /** The first `n` elements of `xs`, or all of them if there are fewer. */
  function Take<A>(xs: seq<A>, n: nat): (r: seq<A>)
    ensures |r| == (if |xs| <= n then |xs| else n)
    ensures r == xs[..|r|]
  {
    if |xs| <= n then xs else xs[..n]
  }

  /** Positions listed in strictly increasing order. */
  ghost predicate StrictlyIncreasing(idx: seq<nat>) {
    forall i, j :: 0 <= i < j < |idx| ==> idx[i] < idx[j]
  }

  /** Filtering a concatenation filters each part. */
  lemma {:induction false} FilterMapAppend<A, B>(xs: seq<A>, ys: seq<A>, f: A -> Option<B>)
    ensures FilterMap(xs + ys, f) == FilterMap(xs, f) + FilterMap(ys, f)
  {
    if xs == [] {
      assert xs + ys == ys;
    } else {
      assert (xs + ys)[1..] == xs[1..] + ys;
      FilterMapAppend(xs[1..], ys, f);
    }
  }

  /** Filtering one more element appends at most that element's image. */
  lemma FilterMapSnoc<A, B>(xs: seq<A>, i: nat, f: A -> Option<B>)
    requires i < |xs|
    ensures FilterMap(xs[..i + 1], f) == FilterMap(xs[..i], f) + Keep(f(xs[i]))
  {
    assert xs[..i + 1] == xs[..i] + [xs[i]];
    FilterMapAppend(xs[..i], [xs[i]], f);
    assert [xs[i]][1..] == [];
  }

  /**
   * `idx` lists, in strictly increasing order, input positions of `xs` whose
   * images under `f` are the elements of `ys`.
   */
  ghost predicate Origins<A, B>(xs: seq<A>, ys: seq<B>, f: A -> Option<B>, idx: seq<nat>) {
    && |idx| == |ys|
    && StrictlyIncreasing(idx)
    && forall k :: 0 <= k < |idx| ==> idx[k] < |xs| && f(xs[idx[k]]) == Some(ys[k])
  }

  /** Every position moved one place to the right. */
  function Shift(idx: seq<nat>): (r: seq<nat>)
    ensures |r| == |idx|
    ensures forall k :: 0 <= k < |idx| ==> r[k] == idx[k] + 1
  {
    seq(|idx|, k requires 0 <= k < |idx| => idx[k] + 1)
  }

  /** An element dropped in front of the input shifts every origin. */
  lemma OriginsSkip<A, B>(x: A, xs: seq<A>, ys: seq<B>, f: A -> Option<B>, idx: seq<nat>)
    requires Origins(xs, ys, f, idx)
    ensures Origins([x] + xs, ys, f, Shift(idx))
  {
    forall k | 0 <= k < |idx|
      ensures ([x] + xs)[Shift(idx)[k]] == xs[idx[k]]
    {
    }
  }

  /** An element kept in front of the input becomes origin 0. */
  lemma OriginsKeep<A, B>(x: A, y: B, xs: seq<A>, ys: seq<B>, f: A -> Option<B>, idx: seq<nat>)
    requires Origins(xs, ys, f, idx) && f(x) == Some(y)
    ensures Origins([x] + xs, [y] + ys, f, [0] + Shift(idx))
  {
    var r := [0] + Shift(idx);
    forall k | 0 < k < |r|
      ensures r[k] == idx[k - 1] + 1 && ([x] + xs)[r[k]] == xs[idx[k - 1]]
    {
    }
  }

  /**
   * Every element of the output is the image of an input element, and the
   * input positions it comes from are strictly increasing: the output is an
   * order-preserving selection of the input.
   */
  lemma {:induction false} FilterMapOrigins<A, B>(xs: seq<A>, f: A -> Option<B>) returns (idx: seq<nat>)
    ensures |idx| == |FilterMap(xs, f)|
    ensures StrictlyIncreasing(idx)
    ensures forall k :: 0 <= k < |idx| ==> idx[k] < |xs| && f(xs[idx[k]]) == Some(FilterMap(xs, f)[k])
  {
    if xs == [] {
      idx := [];
    } else {
      var rest := FilterMapOrigins(xs[1..], f);
      var tail := FilterMap(xs[1..], f);
      assert Origins(xs[1..], tail, f, rest);
      assert [xs[0]] + xs[1..] == xs;
      match f(xs[0])
      case None =>
        idx := Shift(rest);
        OriginsSkip(xs[0], xs[1..], tail, f, rest);
        assert FilterMap(xs, f) == tail;
      case Some(y) =>
        idx := [0] + Shift(rest);
        OriginsKeep(xs[0], y, xs[1..], tail, f, rest);
        assert FilterMap(xs, f) == [y] + tail;
    }
    assert Origins(xs, FilterMap(xs, f), f, idx);
  }

  /** The origins of a prefix of the output are a prefix of the origins. */
  lemma TakeFilterMapOrigins<A, B>(xs: seq<A>, f: A -> Option<B>, n: nat) returns (idx: seq<nat>)
    ensures |idx| == |Take(FilterMap(xs, f), n)|
    ensures StrictlyIncreasing(idx)
    ensures forall k :: 0 <= k < |idx| ==> idx[k] < |xs| && f(xs[idx[k]]) == Some(Take(FilterMap(xs, f), n)[k])
  {
    var all := FilterMapOrigins(xs, f);
    var t := Take(FilterMap(xs, f), n);
    idx := all[..|t|];
    assert forall k :: 0 <= k < |idx| ==> idx[k] == all[k] && t[k] == FilterMap(xs, f)[k];
  }

  /** No element that `f` keeps is lost. */
  lemma {:induction false} FilterMapComplete<A, B>(xs: seq<A>, f: A -> Option<B>, i: nat)
    requires i < |xs| && f(xs[i]).Some?
    ensures f(xs[i]).value in FilterMap(xs, f)
  {
    if i > 0 {
      assert xs[1..][i - 1] == xs[i];
      FilterMapComplete(xs[1..], f, i - 1);
    }
  }

  /** Two filter-map stages in a row are one stage with the composed function `h`. */
  lemma {:induction false} FilterMapFuse<A, B, C>(xs: seq<A>, f: A -> Option<B>, g: B -> Option<C>, h: A -> Option<C>)
    requires forall x :: h(x) == Then(f(x), g)
    ensures FilterMap(FilterMap(xs, f), g) == FilterMap(xs, h)
  {
    if xs != [] {
      FilterMapFuse(xs[1..], f, g, h);
      FilterMapAppend(Keep(f(xs[0])), FilterMap(xs[1..], f), g);
      match f(xs[0])
      case Some(y) =>
        assert [y][1..] == [];
      case None =>
    }
  }
}
