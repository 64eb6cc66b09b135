/** `Array.prototype.sort` with the comparator the sales service uses for
    its listings, newest first by a timestamp string: a stable sort into
    descending order of a string key. */
module Sorting {
  import opened Text

  /** Every element's key is at least that of every later element. */
  ghost predicate SortedDesc<T>(xs: seq<T>, key: T -> string)
  {
    forall i, j :: 0 <= i < j < |xs| ==> LexLe(key(xs[j]), key(xs[i]))
  }

  /** Places x after every element of ys whose key is not below its own:
      ahead of the first element with a smaller key. */
  function InsertDesc<T>(ys: seq<T>, x: T, key: T -> string): (r: seq<T>)
    ensures multiset(r) == multiset(ys) + multiset{x}
    ensures |r| == |ys| + 1
  {
    if |ys| == 0 then [x]
    else if !LexLe(key(x), key(ys[0])) then [x] + ys
    else
      assert ys == [ys[0]] + ys[1..];
      [ys[0]] + InsertDesc(ys[1..], x, key)
  }

  /** Insertion sort taking the elements in their order, so that elements
      with equal keys keep their relative order. */
  function SortDesc<T>(xs: seq<T>, key: T -> string): (r: seq<T>)
    ensures multiset(r) == multiset(xs)
    ensures |r| == |xs|
  {
    if |xs| == 0 then []
    else
      assert xs == xs[..|xs| - 1] + [xs[|xs| - 1]];
      InsertDesc(SortDesc(xs[..|xs| - 1], key), xs[|xs| - 1], key)
  }

  lemma {:induction false} InsertDescSorted<T>(ys: seq<T>, x: T, key: T -> string)
    requires SortedDesc(ys, key)
    ensures SortedDesc(InsertDesc(ys, x, key), key)
  {
    if |ys| > 0 {
      var r := InsertDesc(ys, x, key);
      if !LexLe(key(x), key(ys[0])) {
        LexLeTotal(key(x), key(ys[0]));
        assert r == [x] + ys;
        forall j | 1 < j < |r| ensures LexLe(key(r[j]), key(r[0])) {
          LexLeTransitive(key(ys[j - 1]), key(ys[0]), key(x));
        }
      } else {
        var rest := InsertDesc(ys[1..], x, key);
        InsertDescSorted(ys[1..], x, key);
        forall j | 0 <= j < |rest| ensures LexLe(key(rest[j]), key(ys[0])) {
          assert rest[j] in multiset(ys[1..]) + multiset{x};
          if rest[j] != x {
            assert rest[j] in ys[1..];
          }
        }
        assert r == [ys[0]] + rest;
      }
    }
  }

  /** The result is in descending key order. */
  lemma {:induction false} SortDescSorted<T>(xs: seq<T>, key: T -> string)
    ensures SortedDesc(SortDesc(xs, key), key)
  {
    if |xs| > 0 {
      SortDescSorted(xs[..|xs| - 1], key);
      InsertDescSorted(SortDesc(xs[..|xs| - 1], key), xs[|xs| - 1], key);
    }
  }
}
