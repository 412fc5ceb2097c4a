/** Sequence operations shared by the parser and the partitioner. */
module Sequences {
  import opened Wrappers

  /** The values `f` keeps, in the order of `xs`: the model of Rust's `filter_map`. */
  function FilterMap<A, B>(xs: seq<A>, f: A -> Option<B>): seq<B>
  {
    if xs == [] then [] else FilterMap(xs[..|xs| - 1], f) + Kept(f(xs[|xs| - 1]))
  }

  /** The contribution of one element to `FilterMap`: its value if kept, nothing otherwise. */
  function Kept<B>(o: Option<B>): seq<B>
  {
    match o
    case Some(y) => [y]
    case None => []
  }

  predicate StrictlyIncreasing(idx: seq<nat>)
  {
    forall i, j :: 0 <= i < j < |idx| ==> idx[i] < idx[j]
  }

  lemma FilterMapSingleton<A, B>(x: A, f: A -> Option<B>)
    ensures FilterMap([x], f) == Kept(f(x))
  {
    assert [x][..0] == [];
  }

  /** Filtering distributes over concatenation: a dropped element does not affect what follows it. */
  lemma {:induction false} FilterMapAppend<A, B>(xs: seq<A>, ys: seq<A>, f: A -> Option<B>)
    ensures FilterMap(xs + ys, f) == FilterMap(xs, f) + FilterMap(ys, f)
    decreases |ys|
  {
    if ys == [] {
      assert xs + ys == xs;
    } else {
      var ys' := ys[..|ys| - 1];
      assert (xs + ys)[..|xs + ys| - 1] == xs + ys';
      assert (xs + ys)[|xs + ys| - 1] == ys[|ys| - 1];
      FilterMapAppend(xs, ys', f);
    }
  }

  /** An element `f` drops contributes nothing and leaves the elements around it as they were. */
  lemma FilterMapSkip<A, B>(before: seq<A>, x: A, after: seq<A>, f: A -> Option<B>)
    requires f(x).None?
    ensures FilterMap(before + [x] + after, f) == FilterMap(before, f) + FilterMap(after, f)
  {
    FilterMapAppend(before, [x], f);
    FilterMapSingleton(x, f);
    assert Kept(f(x)) == [];
    assert FilterMap(before + [x], f) == FilterMap(before, f);
    FilterMapAppend(before + [x], after, f);
  }

  /**
   * `FilterMap(xs, f)` is exactly the in-order subsequence of the kept elements: `idx` lists
   * the positions of `xs` it is drawn from, increasing, and every kept position is listed.
   */
  lemma {:induction false} FilterMapSubsequence<A, B>(xs: seq<A>, f: A -> Option<B>) returns (idx: seq<nat>)
    ensures |idx| == |FilterMap(xs, f)|
    ensures StrictlyIncreasing(idx)
    ensures forall j :: 0 <= j < |idx| ==> idx[j] < |xs| && f(xs[idx[j]]) == Some(FilterMap(xs, f)[j])
    ensures forall i :: 0 <= i < |xs| && f(xs[i]).Some? ==> i in idx
    decreases |xs|
  {
    if xs == [] {
      idx := [];
    } else {
      var prev := FilterMapSubsequence(xs[..|xs| - 1], f);
      idx := IndicesSnoc(xs, f, prev, FilterMap(xs[..|xs| - 1], f));
    }
  }

  /** One step of `FilterMapSubsequence`: the positions for all but the last element, extended by the last. */
  lemma IndicesSnoc<A, B>(xs: seq<A>, f: A -> Option<B>, prev: seq<nat>, prevOut: seq<B>) returns (idx: seq<nat>)
    requires xs != []
    requires |prev| == |prevOut| && StrictlyIncreasing(prev)
    requires forall j :: 0 <= j < |prev| ==> prev[j] < |xs| - 1 && f(xs[..|xs| - 1][prev[j]]) == Some(prevOut[j])
    requires forall i :: 0 <= i < |xs| - 1 && f(xs[..|xs| - 1][i]).Some? ==> i in prev
    ensures |idx| == |prevOut + Kept(f(xs[|xs| - 1]))| && StrictlyIncreasing(idx)
    ensures forall j :: 0 <= j < |idx| ==> idx[j] < |xs| && f(xs[idx[j]]) == Some((prevOut + Kept(f(xs[|xs| - 1])))[j])
    ensures forall i :: 0 <= i < |xs| && f(xs[i]).Some? ==> i in idx
  {
    var n := |xs| - 1;
    var init := xs[..n];
    var out := prevOut + Kept(f(xs[n]));
    if f(xs[n]).Some? {
      idx := prev + [n];
      assert out[|prev|] == f(xs[n]).value;
    } else {
      idx := prev;
      assert out == prevOut;
    }
    forall j | 0 <= j < |idx|
      ensures idx[j] < |xs| && f(xs[idx[j]]) == Some(out[j])
    {
      if j < |prev| {
        assert xs[prev[j]] == init[prev[j]];
      }
    }
    forall i | 0 <= i < |xs| && f(xs[i]).Some?
      ensures i in idx
    {
      if i < n {
        assert init[i] == xs[i];
      }
    }
  }

  /**
   * When `f` either keeps an element unchanged or drops it, `FilterMap` keeps every copy of
   * an element `f` keeps and no copy of one it drops.
   */
  lemma {:induction false} FilterMapCount<A>(xs: seq<A>, f: A -> Option<A>, r: A)
    requires forall x :: f(x) == None || f(x) == Some(x)
    ensures multiset(FilterMap(xs, f))[r] == if f(r).Some? then multiset(xs)[r] else 0
    decreases |xs|
  {
    if xs != [] {
      var n := |xs| - 1;
      var init, last := xs[..n], xs[n];
      FilterMapCount(init, f, r);
      assert xs == init + [last];
      assert Kept(f(last)) == if f(last).Some? then [last] else [];
      CountSnoc(init, last, FilterMap(init, f), Kept(f(last)), r, f(r).Some?, f(last).Some?);
    }
  }

  /** One step of `FilterMapCount`: `kept` is what the last element `x` contributes. */
  lemma CountSnoc<T>(xs: seq<T>, x: T, sel: seq<T>, kept: seq<T>, r: T, keep: bool, keepsX: bool)
    requires multiset(sel)[r] == if keep then multiset(xs)[r] else 0
    requires kept == if keepsX then [x] else []
    requires x == r ==> keepsX == keep
    ensures multiset(sel + kept)[r] == if keep then multiset(xs + [x])[r] else 0
  {
    assert multiset(xs + [x]) == multiset(xs) + multiset{x};
    assert multiset(sel + kept) == multiset(sel) + multiset(kept);
  }

  /** Nothing is kept exactly when `f` rejects every element. */
  lemma {:induction false} FilterMapEmpty<A, B>(xs: seq<A>, f: A -> Option<B>)
    ensures FilterMap(xs, f) == [] <==> forall i :: 0 <= i < |xs| ==> f(xs[i]).None?
    decreases |xs|
  {
    if xs != [] {
      var n := |xs| - 1;
      FilterMapEmpty(xs[..n], f);
      assert forall i :: 0 <= i < n ==> xs[..n][i] == xs[i];
    }
  }
}
