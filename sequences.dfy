/** Order-preserving selections from a list: Python's list slicing `xs[:n]`
    and the "keep some elements, in order" shape of the filtering loops. */
module Sequences {

  /** `xs` is `ys` with some elements removed, order kept. */
  predicate IsSubsequence<T(==)>(xs: seq<T>, ys: seq<T>)
    decreases |ys|
  {
    if ys == [] then xs == []
    else
      IsSubsequence(xs, ys[..|ys| - 1])
      || (xs != [] && xs[|xs| - 1] == ys[|ys| - 1] && IsSubsequence(xs[..|xs| - 1], ys[..|ys| - 1]))
  }

  /** Python's `xs[:n]` for `n >= 0`. */
  function Take<T>(xs: seq<T>, n: nat): (r: seq<T>)
    ensures |r| == if |xs| <= n then |xs| else n
    ensures r == xs[..|r|]
  {
    if |xs| <= n then xs else xs[..n]
  }

  /** A non-empty list is its front followed by its last element. */
  lemma InitLast<T>(xs: seq<T>)
    requires xs != []
    ensures xs[..|xs| - 1] + [xs[|xs| - 1]] == xs
  {
  }

  /** Every element of a subsequence comes from the original list. */
  lemma {:induction false} SubsequenceElements<T>(xs: seq<T>, ys: seq<T>)
    requires IsSubsequence(xs, ys)
    ensures forall x | x in xs :: x in ys
    decreases |ys|
  {
    if ys != [] {
      var yi := ys[..|ys| - 1];
      if IsSubsequence(xs, yi) {
        SubsequenceElements(xs, yi);
      } else {
        var xi := xs[..|xs| - 1];
        SubsequenceElements(xi, yi);
        assert xs == xi + [ys[|ys| - 1]];
      }
    }
  }

  /** A prefix of a subsequence of `ys` is still a subsequence of `ys`. */
  lemma {:induction false} PrefixOfSubsequence<T>(xs: seq<T>, ys: seq<T>, n: nat)
    requires IsSubsequence(xs, ys) && n <= |xs|
    ensures IsSubsequence(xs[..n], ys)
    decreases |ys|
  {
    if n == |xs| {
      assert xs[..n] == xs;
    } else if ys == [] {
    } else {
      var yi := ys[..|ys| - 1];
      if IsSubsequence(xs, yi) {
        PrefixOfSubsequence(xs, yi, n);
      } else {
        var xi := xs[..|xs| - 1];
        PrefixOfSubsequence(xi, yi, n);
        assert xi[..n] == xs[..n];
      }
    }
  }
  /** `[x for x in xs if keep(x)]`. */
  function Filter<T>(xs: seq<T>, keep: T -> bool): seq<T> {
    if xs == [] then []
    else Filter(xs[..|xs| - 1], keep) + (if keep(xs[|xs| - 1]) then [xs[|xs| - 1]] else [])
  }

  /** A filter keeps exactly the elements that pass, in order. */
  lemma {:induction false} FilterProperties<T>(xs: seq<T>, keep: T -> bool)
    ensures forall x | x in Filter(xs, keep) :: keep(x)
    ensures forall x | x in xs && keep(x) :: x in Filter(xs, keep)
    ensures IsSubsequence(Filter(xs, keep), xs)
  {
    if xs != [] {
      var init := xs[..|xs| - 1];
      var last := xs[|xs| - 1];
      FilterProperties(init, keep);
      assert xs == init + [last];
      var f := Filter(init, keep);
      if keep(last) {
        assert Filter(xs, keep)[..|f|] == f;
      } else {
        assert Filter(xs, keep) == f;
      }
    }
  }

  /** Filtering distributes over concatenation. */
  lemma {:induction false} FilterAppend<T>(a: seq<T>, b: seq<T>, keep: T -> bool)
    ensures Filter(a + b, keep) == Filter(a, keep) + Filter(b, keep)
    decreases |b|
  {
    if b == [] {
      assert a + b == a;
    } else {
      var bi := b[..|b| - 1];
      FilterAppend(a, bi, keep);
      assert (a + b)[..|a + b| - 1] == a + bi;
      assert (a + b)[|a + b| - 1] == b[|b| - 1];
    }
  }

  /** A filter removes nothing from a list whose every element passes. */
  lemma {:induction false} FilterKeepsAll<T>(xs: seq<T>, keep: T -> bool)
    requires forall x | x in xs :: keep(x)
    ensures Filter(xs, keep) == xs
  {
    if xs != [] {
      var init := xs[..|xs| - 1];
      assert forall x | x in init :: x in xs;
      FilterKeepsAll(init, keep);
      assert keep(xs[|xs| - 1]);
      InitLast(xs);
    }
  }

  /** The first element a filter keeps is the earliest passing element. */
  lemma {:induction false} FilterFirstIsEarliest<T>(xs: seq<T>, keep: T -> bool)
    requires Filter(xs, keep) != []
    ensures exists k | 0 <= k < |xs| ::
      xs[k] == Filter(xs, keep)[0] && keep(xs[k]) && forall j | 0 <= j < k :: !keep(xs[j])
  {
    var init := xs[..|xs| - 1];
    var last := xs[|xs| - 1];
    if Filter(init, keep) != [] {
      FilterFirstIsEarliest(init, keep);
      var k :| 0 <= k < |init| && init[k] == Filter(init, keep)[0] && keep(init[k])
        && forall j | 0 <= j < k :: !keep(init[j]);
      assert xs[k] == Filter(xs, keep)[0];
      assert forall j | 0 <= j < k :: xs[j] == init[j];
    } else {
      FilterProperties(init, keep);
      assert forall j | 0 <= j < |init| :: xs[j] == init[j] && init[j] in init;
      assert xs[|init|] == Filter(xs, keep)[0];
    }
  }
}
