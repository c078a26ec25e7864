/**
 Order-preserving selection from a sequence. Both server loops and both
 option-building loops of the client walk a list front to back and `push`
 an entry for some elements only; `FilterMap` is that loop (its value on
 `xs[..i]` is the array after `i` iterations), and `TryFilterMap` is the same
 loop when a step may throw and abort it.

 `PicksVia` is the independent description: the result lists, in ascending
 index order, exactly the elements that the step keeps. The two lemmas
 `FilterMapPicks` and `PicksDetermineFilterMap` show the two agree.
 */
module Subsequences {
  import opened Js

  /** The entries a single step pushes: none, or one. */
  function Kept<B>(o: Option<B>): seq<B> {
    if o.Some? then [o.value] else []
  }

  /** The loop that pushes `f(x)` for every `x` that `f` keeps. */
  function FilterMap<A, B>(xs: seq<A>, f: A -> Option<B>): (r: seq<B>)
    ensures |r| <= |xs|
    decreases |xs|
  {
    if |xs| == 0 then [] else FilterMap(xs[..|xs| - 1], f) + Kept(f(xs[|xs| - 1]))
  }

  /** The indices of the elements that `f` keeps, in ascending order. */
  function Hits<A, B>(xs: seq<A>, f: A -> Option<B>): seq<nat>
    decreases |xs|
  {
    if |xs| == 0 then []
    else Hits(xs[..|xs| - 1], f) + (if f(xs[|xs| - 1]).Some? then [|xs| - 1] else [])
  }

  ghost predicate StrictlyIncreasing(idx: seq<nat>) {
    forall i, j :: 0 <= i < j < |idx| ==> idx[i] < idx[j]
  }

  /** `r` lists, in the order of `xs`, exactly the values `f` yields for the
      elements it keeps; `idx[k]` is where `r[k]` came from. */
  ghost predicate PicksVia<A, B>(r: seq<B>, xs: seq<A>, f: A -> Option<B>, idx: seq<nat>) {
    && |idx| == |r|
    && StrictlyIncreasing(idx)
    && (forall k :: 0 <= k < |idx| ==> idx[k] < |xs| && f(xs[idx[k]]) == Some(r[k]))
    && (forall i :: 0 <= i < |xs| && f(xs[i]).Some? ==> i in idx)
  }

  /** The loop's result is an order-preserving selection of exactly the kept elements. */
  lemma {:induction false} FilterMapPicks<A, B>(xs: seq<A>, f: A -> Option<B>)
    ensures PicksVia(FilterMap(xs, f), xs, f, Hits(xs, f))
    decreases |xs|
  {
    if |xs| > 0 {
      var n := |xs| - 1;
      FilterMapPicks(xs[..n], f);
      if f(xs[n]).Some? {
        PicksExtendKept(FilterMap(xs[..n], f), xs, f, Hits(xs[..n], f));
      } else {
        PicksExtendDropped(FilterMap(xs[..n], f), xs, f, Hits(xs[..n], f));
      }
    }
  }

  /** A selection from the front, extended by a kept last element. */
  lemma PicksExtendKept<A, B>(r: seq<B>, xs: seq<A>, f: A -> Option<B>, idx: seq<nat>)
    requires |xs| > 0 && f(xs[|xs| - 1]).Some?
    requires PicksVia(r, xs[..|xs| - 1], f, idx)
    ensures PicksVia(r + [f(xs[|xs| - 1]).value], xs, f, idx + [|xs| - 1])
  {
    var n := |xs| - 1;
    var r', idx' := r + [f(xs[n]).value], idx + [n];
    assert forall i :: 0 <= i < n ==> xs[..n][i] == xs[i];
    assert forall k :: 0 <= k < |idx| ==> idx'[k] == idx[k] && r'[k] == r[k];
  }

  /** A selection from the front is one from the whole when the last element is dropped. */
  lemma PicksExtendDropped<A, B>(r: seq<B>, xs: seq<A>, f: A -> Option<B>, idx: seq<nat>)
    requires |xs| > 0 && f(xs[|xs| - 1]).None?
    requires PicksVia(r, xs[..|xs| - 1], f, idx)
    ensures PicksVia(r, xs, f, idx)
  {
    var n := |xs| - 1;
    assert forall i :: 0 <= i < n ==> xs[..n][i] == xs[i];
  }

  /** Conversely, any order-preserving selection of exactly the kept
      elements is the loop's result: the description pins the result down. */
  lemma {:induction false} PicksDetermineFilterMap<A, B>(r: seq<B>, xs: seq<A>, f: A -> Option<B>, idx: seq<nat>)
    requires PicksVia(r, xs, f, idx)
    ensures r == FilterMap(xs, f)
    decreases |xs|
  {
    if |xs| > 0 {
      var n := |xs| - 1;
      if f(xs[n]).Some? {
        PicksLastKept(r, xs, f, idx);
        PicksDetermineFilterMap(r[..|r| - 1], xs[..n], f, idx[..|idx| - 1]);
        FilterMapKeptLast(r, xs, f);
      } else {
        PicksLastDropped(r, xs, f, idx);
        PicksDetermineFilterMap(r, xs[..n], f, idx);
      }
    }
  }

  /** The loop's result ends with the last element's value when it is kept. */
  lemma FilterMapKeptLast<A, B>(r: seq<B>, xs: seq<A>, f: A -> Option<B>)
    requires |xs| > 0 && f(xs[|xs| - 1]).Some? && |r| > 0
    requires r[..|r| - 1] == FilterMap(xs[..|xs| - 1], f) && r[|r| - 1] == f(xs[|xs| - 1]).value
    ensures r == FilterMap(xs, f)
  {
    var n := |xs| - 1;
    calc {
      FilterMap(xs, f);
      FilterMap(xs[..n], f) + Kept(f(xs[n]));
      r[..|r| - 1] + [r[|r| - 1]];
      r;
    }
  }

  /** When the last element is kept, it is the last pick, and the other
      picks are a selection from the front. */
  lemma PicksLastKept<A, B>(r: seq<B>, xs: seq<A>, f: A -> Option<B>, idx: seq<nat>)
    requires PicksVia(r, xs, f, idx)
    requires |xs| > 0 && f(xs[|xs| - 1]).Some?
    ensures |idx| > 0 && idx[|idx| - 1] == |xs| - 1
    ensures r[|r| - 1] == f(xs[|xs| - 1]).value
    ensures PicksVia(r[..|r| - 1], xs[..|xs| - 1], f, idx[..|idx| - 1])
  {
    var n := |xs| - 1;
    assert n in idx;
    var j :| 0 <= j < |idx| && idx[j] == n;
    var m := |idx| - 1;
    var front, r0, idx0 := xs[..n], r[..m], idx[..m];
    forall k | 0 <= k < |idx0|
      ensures idx0[k] < n && f(front[idx0[k]]) == Some(r0[k])
    {
      assert idx[k] < idx[m];
    }
    forall i | 0 <= i < n && f(front[i]).Some?
      ensures i in idx0
    {
      assert xs[i] == front[i];
      var j :| 0 <= j < |idx| && idx[j] == i;
      assert j != m;
      assert idx0[j] == i;
    }
  }

  /** When the last element is dropped, every pick comes from the front. */
  lemma PicksLastDropped<A, B>(r: seq<B>, xs: seq<A>, f: A -> Option<B>, idx: seq<nat>)
    requires PicksVia(r, xs, f, idx)
    requires |xs| > 0 && f(xs[|xs| - 1]).None?
    ensures PicksVia(r, xs[..|xs| - 1], f, idx)
  {
    var n := |xs| - 1;
    var front := xs[..n];
    forall k | 0 <= k < |idx|
      ensures idx[k] < n && f(front[idx[k]]) == Some(r[k])
    {
      assert idx[k] != n;
    }
    forall i | 0 <= i < n && f(front[i]).Some?
      ensures i in idx
    {
      assert xs[i] == front[i];
    }
  }

  /** Selecting from a concatenation selects from each part in turn. */
  lemma {:induction false} FilterMapAppend<A, B>(xs: seq<A>, ys: seq<A>, f: A -> Option<B>)
    ensures FilterMap(xs + ys, f) == FilterMap(xs, f) + FilterMap(ys, f)
    decreases |ys|
  {
    if |ys| == 0 {
      assert xs + ys == xs;
    } else {
      var n := |ys| - 1;
      assert (xs + ys)[..|xs + ys| - 1] == xs + ys[..n];
      assert (xs + ys)[|xs + ys| - 1] == ys[n];
      FilterMapAppend(xs, ys[..n], f);
    }
  }

  /** A step that keeps nothing selects nothing. */
  lemma {:induction false} FilterMapNone<A, B>(xs: seq<A>, f: A -> Option<B>)
    requires forall i :: 0 <= i < |xs| ==> f(xs[i]).None?
    ensures FilterMap(xs, f) == []
    decreases |xs|
  {
    if |xs| > 0 {
      var n := |xs| - 1;
      assert forall i :: 0 <= i < n ==> xs[..n][i] == xs[i];
      FilterMapNone(xs[..n], f);
    }
  }

  /** The first kept element gives the first entry. */
  lemma FilterMapFirst<A, B>(xs: seq<A>, f: A -> Option<B>, i: nat)
    requires i < |xs| && f(xs[i]).Some?
    requires forall j :: 0 <= j < i ==> f(xs[j]).None?
    ensures |FilterMap(xs, f)| > 0 && FilterMap(xs, f)[0] == f(xs[i]).value
  {
    var before, at, after := xs[..i], [xs[i]], xs[i + 1..];
    assert xs == before + at + after;
    FilterMapAppend(before + at, after, f);
    FilterMapAppend(before, at, f);
    FilterMapNone(before, f);
    assert at[..0] == [];
    assert FilterMap(at, f) == [f(xs[i]).value];
  }

  /** Steps that agree everywhere select alike. */
  lemma {:induction false} FilterMapCongruence<A, B>(xs: seq<A>, f: A -> Option<B>, g: A -> Option<B>)
    requires forall x :: f(x) == g(x)
    ensures FilterMap(xs, f) == FilterMap(xs, g)
    decreases |xs|
  {
    if |xs| > 0 {
      FilterMapCongruence(xs[..|xs| - 1], f, g);
    }
  }

  /** Applying `g` to what `f` kept. */
  function AndThen<A, B, C>(f: A -> Option<B>, g: B -> Option<C>): A -> Option<C> {
    x => if f(x).Some? then g(f(x).value) else None
  }

  /** Two selections in a row are one selection with the composed step. */
  lemma {:induction false} FilterMapFusion<A, B, C>(xs: seq<A>, f: A -> Option<B>, g: B -> Option<C>)
    ensures FilterMap(FilterMap(xs, f), g) == FilterMap(xs, AndThen(f, g))
    decreases |xs|
  {
    if |xs| > 0 {
      var n := |xs| - 1;
      FilterMapFusion(xs[..n], f, g);
      FilterMapAppend(FilterMap(xs[..n], f), Kept(f(xs[n])), g);
      if f(xs[n]).Some? {
        assert FilterMap(Kept(f(xs[n])), g) == Kept(g(f(xs[n]).value)) by {
          assert Kept(f(xs[n]))[..0] == [];
        }
      }
    }
  }

  /** What a step that may throw keeps once it has settled without throwing. */
  function Settled<A, B>(f: A -> Call<Option<B>>): A -> Option<B> {
    x => if f(x).Returns? then f(x).value else None
  }

  /** The loop whose step may throw: the first throw aborts the whole loop. */
  function TryFilterMap<A, B>(xs: seq<A>, f: A -> Call<Option<B>>): (r: Call<seq<B>>)
    ensures r.Throws? <==> exists i :: 0 <= i < |xs| && f(xs[i]).Throws?
    ensures r.Returns? ==> r.value == FilterMap(xs, Settled(f))
    decreases |xs|
  {
    if |xs| == 0 then Returns([])
    else
      var n := |xs| - 1;
      assert forall i :: 0 <= i < n ==> xs[..n][i] == xs[i];
      match TryFilterMap(xs[..n], f)
      case Throws => Throws
      case Returns(front) =>
        match f(xs[n])
        case Throws => Throws
        case Returns(o) => Returns(front + Kept(o))
  }
}
