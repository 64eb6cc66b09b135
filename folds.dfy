/** Searches and folds over sequences: `Array.prototype.findIndex` and
    `reduce` with a sum, with the facts about them the rest of the model
    uses. */
module Folds {
  import opened Wrappers

  /** `findIndex(p)`: the first position whose element satisfies p. */
  function FindIndex<T>(xs: seq<T>, p: T -> bool): (r: Option<nat>)
    ensures r.Some? ==> r.value < |xs| && p(xs[r.value])
                        && forall k :: 0 <= k < r.value ==> !p(xs[k])
    ensures r.None? ==> forall k :: 0 <= k < |xs| ==> !p(xs[k])
  {
    if |xs| == 0 then None
    else if p(xs[0]) then Some(0)
    else match FindIndex(xs[1..], p)
         case None => None
         case Some(i) => Some(i + 1)
  }

  /** `filter(p)`: the elements that satisfy p, in their order. */
  function Filter<T>(xs: seq<T>, p: T -> bool): (r: seq<T>)
    ensures |r| <= |xs|
    ensures forall i :: 0 <= i < |r| ==> r[i] in xs && p(r[i])
    ensures forall i :: 0 <= i < |xs| && p(xs[i]) ==> xs[i] in r
  {
    if |xs| == 0 then []
    else
      var init := Filter(xs[..|xs| - 1], p);
      if p(xs[|xs| - 1]) then init + [xs[|xs| - 1]] else init
  }

  lemma FilterSingle<T>(x: T, p: T -> bool)
    ensures Filter([x], p) == if p(x) then [x] else []
    ensures Filter([], p) == []
  {
    assert [x][..0] == [];
  }

  /** Filtering a concatenation filters each part. */
  lemma {:induction false} FilterAppend<T>(xs: seq<T>, ys: seq<T>, p: T -> bool)
    ensures Filter(xs + ys, p) == Filter(xs, p) + Filter(ys, p)
    decreases |ys|
  {
    if |ys| == 0 {
      assert xs + ys == xs;
    } else {
      var n := |ys| - 1;
      assert (xs + ys)[..|xs + ys| - 1] == xs + ys[..n];
      FilterAppend(xs, ys[..n], p);
    }
  }

  /** `reduce((sum, x) => sum + f(x), 0)`, a fold from the left. */
  function SumBy<T>(xs: seq<T>, f: T -> int): int
  {
    if |xs| == 0 then 0 else SumBy(xs[..|xs| - 1], f) + f(xs[|xs| - 1])
  }

  lemma {:induction false} SumByAppend<T>(xs: seq<T>, ys: seq<T>, f: T -> int)
    ensures SumBy(xs + ys, f) == SumBy(xs, f) + SumBy(ys, f)
    decreases |ys|
  {
    if |ys| > 0 {
      assert (xs + ys)[..|xs + ys| - 1] == xs + ys[..|ys| - 1];
      SumByAppend(xs, ys[..|ys| - 1], f);
    } else {
      assert xs + ys == xs;
    }
  }

  lemma SumBySingle<T>(x: T, f: T -> int)
    ensures SumBy([x], f) == f(x)
  {
    assert [x][..0] == [];
  }

  /** A sum does not depend on the order of the summands. */
  lemma {:induction false} SumByPermutation<T>(xs: seq<T>, ys: seq<T>, f: T -> int)
    requires multiset(xs) == multiset(ys)
    ensures SumBy(xs, f) == SumBy(ys, f)
    decreases |xs|
  {
    if |xs| == 0 {
      assert |ys| == |multiset(ys)| == 0;
    } else {
      var x := xs[|xs| - 1];
      assert xs == xs[..|xs| - 1] + [x];
      assert x in multiset(ys);
      var i :| 0 <= i < |ys| && ys[i] == x;
      RemoveAt(ys, i);
      SumByPermutation(xs[..|xs| - 1], ys[..i] + ys[i + 1..], f);
      SumByRemoveAt(ys, i, f);
    }
  }

  /** Taking out the element at i takes one copy of it out of the
      multiset. */
  lemma RemoveAt<T>(ys: seq<T>, i: nat)
    requires i < |ys|
    ensures multiset(ys[..i] + ys[i + 1..]) == multiset(ys) - multiset{ys[i]}
  {
    assert ys == ys[..i] + [ys[i]] + ys[i + 1..];
  }

  /** The sum is the element at i plus the sum of the others. */
  lemma {:induction false} SumByRemoveAt<T>(ys: seq<T>, i: nat, f: T -> int)
    requires i < |ys|
    ensures SumBy(ys, f) == SumBy(ys[..i] + ys[i + 1..], f) + f(ys[i])
    decreases |ys|
  {
    var n := |ys| - 1;
    var rest := ys[..i] + ys[i + 1..];
    if i == n {
      assert rest == ys[..n];
    } else {
      var init := ys[..n];
      SumByRemoveAt(init, i, f);
      assert rest[..|rest| - 1] == init[..i] + init[i + 1..];
      assert rest[|rest| - 1] == ys[n];
    }
  }

  /** Appending one element after a concatenation. */
  lemma AppendOne<T>(a: seq<T>, b: seq<T>, m: T)
    ensures (a + b) + [m] == a + (b + [m])
  {
  }

  /** Replacing the last element. */
  lemma UpdateLast<T>(xs: seq<T>, x: T)
    requires |xs| > 0
    ensures xs[|xs| - 1 := x] == xs[..|xs| - 1] + [x]
  {
  }

  /** Two sequences with the same multiset have the same elements. */
  lemma SameElements<T>(xs: seq<T>, ys: seq<T>)
    requires multiset(xs) == multiset(ys)
    ensures forall i :: 0 <= i < |xs| ==> xs[i] in ys
    ensures forall j :: 0 <= j < |ys| ==> ys[j] in xs
  {
    forall i | 0 <= i < |xs| ensures xs[i] in ys {
      assert xs[i] in multiset(ys);
    }
    forall j | 0 <= j < |ys| ensures ys[j] in xs {
      assert ys[j] in multiset(xs);
    }
  }
}
