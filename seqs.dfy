/**
 * Sequence operations the screens build on: `Array.prototype.filter`, the
 * `reduce((sum, b) => sum + ..., 0)` totals, and the stable sort that
 * `Array.prototype.sort` performs with a numeric comparator.
 */
module Seqs {

  import opened Wrappers

  /** `xs.filter(keep)`: the elements that satisfy `keep`, in their original order. */
  function Filter<T(!new)>(xs: seq<T>, keep: T -> bool): (r: seq<T>)
    ensures |r| <= |xs|
    ensures forall x :: x in r <==> x in xs && keep(x)
  {
    if xs == [] then []
    else
      assert forall x :: x in xs <==> x == xs[0] || x in xs[1..];
      (if keep(xs[0]) then [xs[0]] else []) + Filter(xs[1..], keep)
  }

  /** `sub` is obtained from `xs` by deleting elements, so it keeps their order. */
  predicate IsSubseq<T(==)>(sub: seq<T>, xs: seq<T>)
    decreases |xs|
  {
    sub == [] || (xs != [] && ((sub[0] == xs[0] && IsSubseq(sub[1..], xs[1..])) || IsSubseq(sub, xs[1..])))
  }

  lemma {:induction false} SubseqRefl<T>(xs: seq<T>)
    ensures IsSubseq(xs, xs)
    decreases |xs|
  {
    if xs != [] {
      SubseqRefl(xs[1..]);
    }
  }

  /** A sub-list of a sub-list is a sub-list. */
  lemma {:induction false} SubseqTrans<T>(a: seq<T>, b: seq<T>, c: seq<T>)
    requires IsSubseq(a, b) && IsSubseq(b, c)
    ensures IsSubseq(a, c)
    decreases |c|
  {
    if a != [] {
      if IsSubseq(b, c[1..]) {
        SubseqTrans(a, b, c[1..]);
      } else if a[0] == b[0] && IsSubseq(a[1..], b[1..]) {
        SubseqTrans(a[1..], b[1..], c[1..]);
      } else {
        SubseqTrans(a, b[1..], c[1..]);
      }
    }
  }

  /** A filter keeps the order of what it keeps. */
  lemma {:induction false} FilterIsSubseq<T(!new)>(xs: seq<T>, keep: T -> bool)
    ensures IsSubseq(Filter(xs, keep), xs)
    decreases |xs|
  {
    if xs != [] {
      FilterIsSubseq(xs[1..], keep);
      var rest := Filter(xs[1..], keep);
      if keep(xs[0]) {
        assert Filter(xs, keep) == [xs[0]] + rest;
        assert ([xs[0]] + rest)[1..] == rest;
      } else {
        assert Filter(xs, keep) == rest;
      }
    }
  }

  /** A weaker condition keeps a super-list: what `f` keeps, `g` keeps too, in the same order. */
  lemma {:induction false} FilterMonotone<T(!new)>(xs: seq<T>, f: T -> bool, g: T -> bool)
    requires forall x :: x in xs && f(x) ==> g(x)
    ensures IsSubseq(Filter(xs, f), Filter(xs, g))
    decreases |xs|
  {
    if xs != [] {
      FilterMonotone(xs[1..], f, g);
      var rf, rg := Filter(xs[1..], f), Filter(xs[1..], g);
      if f(xs[0]) {
        assert Filter(xs, f) == [xs[0]] + rf && Filter(xs, g) == [xs[0]] + rg;
        assert ([xs[0]] + rf)[1..] == rf && ([xs[0]] + rg)[1..] == rg;
      } else if g(xs[0]) {
        assert Filter(xs, f) == rf && Filter(xs, g) == [xs[0]] + rg;
        assert ([xs[0]] + rg)[1..] == rg;
      } else {
        assert Filter(xs, f) == rf && Filter(xs, g) == rg;
      }
    }
  }

  /** A filter whose condition holds everywhere returns its input. */
  lemma {:induction false} FilterKeepsAll<T(!new)>(xs: seq<T>, keep: T -> bool)
    requires forall x :: x in xs ==> keep(x)
    ensures Filter(xs, keep) == xs
    decreases |xs|
  {
    if xs != [] {
      FilterKeepsAll(xs[1..], keep);
      assert [xs[0]] + xs[1..] == xs;
    }
  }

  /** Two conditions that agree on every element keep the same elements. */
  lemma {:induction false} FilterAgreeing<T(!new)>(xs: seq<T>, f: T -> bool, g: T -> bool)
    requires forall x :: x in xs ==> f(x) == g(x)
    ensures Filter(xs, f) == Filter(xs, g)
    decreases |xs|
  {
    if xs != [] {
      assert forall x :: x in xs[1..] ==> x in xs;
      FilterAgreeing(xs[1..], f, g);
    }
  }

  /** Two filters applied one after the other may be applied in either order. */
  lemma {:induction false} FilterCommute<T(!new)>(xs: seq<T>, f: T -> bool, g: T -> bool)
    ensures Filter(Filter(xs, f), g) == Filter(Filter(xs, g), f)
    decreases |xs|
  {
    if xs != [] {
      FilterCommute(xs[1..], f, g);
      var x := xs[0];
      var ff, gg := Filter(xs[1..], f), Filter(xs[1..], g);
      var lhs, rhs := Filter(Filter(xs, f), g), Filter(Filter(xs, g), f);
      if f(x) {
        assert Filter(xs, f) == [x] + ff;
        assert ([x] + ff)[0] == x && ([x] + ff)[1..] == ff;
      } else {
        assert Filter(xs, f) == ff;
      }
      if g(x) {
        assert Filter(xs, g) == [x] + gg;
        assert ([x] + gg)[0] == x && ([x] + gg)[1..] == gg;
      } else {
        assert Filter(xs, g) == gg;
      }
      if f(x) && g(x) {
        assert lhs == [x] + Filter(ff, g) && rhs == [x] + Filter(gg, f);
      } else {
        assert lhs == Filter(ff, g) && rhs == Filter(gg, f);
      }
    }
  }

  /** A condition and its negation split a sequence: their filters' lengths add up to its length. */
  lemma {:induction false} FilterComplementLength<T(!new)>(xs: seq<T>, f: T -> bool, g: T -> bool)
    requires forall x :: x in xs ==> g(x) == !f(x)
    ensures |Filter(xs, f)| + |Filter(xs, g)| == |xs|
    decreases |xs|
  {
    if xs != [] {
      assert forall x :: x in xs[1..] ==> x in xs;
      FilterComplementLength(xs[1..], f, g);
    }
  }

  /** Filtering a concatenation filters each part. */
  lemma {:induction false} FilterAppend<T(!new)>(a: seq<T>, b: seq<T>, keep: T -> bool)
    ensures Filter(a + b, keep) == Filter(a, keep) + Filter(b, keep)
    decreases |a|
  {
    if a == [] {
      assert a + b == b;
    } else {
      assert (a + b)[0] == a[0] && (a + b)[1..] == a[1..] + b;
      FilterAppend(a[1..], b, keep);
    }
  }

  /** `xs.reduce((sum, x) => sum + w(x), 0)`. */
  function Sum<T>(xs: seq<T>, w: T -> int): int
  {
    if xs == [] then 0 else w(xs[0]) + Sum(xs[1..], w)
  }

  lemma {:induction false} SumAppend<T>(a: seq<T>, b: seq<T>, w: T -> int)
    ensures Sum(a + b, w) == Sum(a, w) + Sum(b, w)
    decreases |a|
  {
    if a == [] {
      assert a + b == b;
    } else {
      assert (a + b)[1..] == a[1..] + b;
      SumAppend(a[1..], b, w);
    }
  }

  /** Replacing one element changes the sum by the difference of the weights. */
  lemma SumUpdate<T>(xs: seq<T>, i: nat, y: T, w: T -> int)
    requires i < |xs|
    ensures Sum(xs[i := y], w) == Sum(xs, w) - w(xs[i]) + w(y)
  {
    assert xs == xs[..i] + [xs[i]] + xs[i + 1..];
    assert xs[i := y] == xs[..i] + [y] + xs[i + 1..];
    SumAppend(xs[..i] + [xs[i]], xs[i + 1..], w);
    SumAppend(xs[..i] + [y], xs[i + 1..], w);
    SumAppend(xs[..i], [xs[i]], w);
    SumAppend(xs[..i], [y], w);
  }

  /** Dropping elements of weight zero leaves the sum unchanged. */
  lemma {:induction false} SumFilterDropsZeros<T(!new)>(xs: seq<T>, keep: T -> bool, w: T -> int)
    requires forall x :: x in xs && !keep(x) ==> w(x) == 0
    ensures Sum(Filter(xs, keep), w) == Sum(xs, w)
    decreases |xs|
  {
    if xs != [] {
      SumFilterDropsZeros(xs[1..], keep, w);
      if keep(xs[0]) {
        assert Filter(xs, keep) == [xs[0]] + Filter(xs[1..], keep);
        assert ([xs[0]] + Filter(xs[1..], keep))[1..] == Filter(xs[1..], keep);
      } else {
        assert xs[0] in xs && w(xs[0]) == 0;
        assert Filter(xs, keep) == Filter(xs[1..], keep);
      }
    }
  }

  /** A sum of positive weights is zero exactly when there is nothing to sum. */
  lemma {:induction false} SumPositiveIsZeroIffEmpty<T>(xs: seq<T>, w: T -> int)
    requires forall x :: x in xs ==> w(x) > 0
    ensures Sum(xs, w) >= 0
    ensures Sum(xs, w) == 0 <==> xs == []
    decreases |xs|
  {
    if xs != [] {
      SumPositiveIsZeroIffEmpty(xs[1..], w);
    }
  }

  lemma {:induction false} SumNonNegative<T>(xs: seq<T>, w: T -> int)
    requires forall x :: x in xs ==> w(x) >= 0
    ensures Sum(xs, w) >= 0
    decreases |xs|
  {
    if xs != [] {
      SumNonNegative(xs[1..], w);
    }
  }

  /** Two weights that agree on every element give the same sum. */
  lemma {:induction false} SumAgreeing<T>(xs: seq<T>, v: T -> int, w: T -> int)
    requires forall x :: x in xs ==> v(x) == w(x)
    ensures Sum(xs, v) == Sum(xs, w)
    decreases |xs|
  {
    if xs != [] {
      assert xs[0] in xs;
      assert forall x :: x in xs[1..] ==> x in xs;
      SumAgreeing(xs[1..], v, w);
    }
  }

  /** The keys never decrease from left to right. */
  predicate SortedBy<T>(xs: seq<T>, key: T -> int)
  {
    forall i, j :: 0 <= i < j < |xs| ==> key(xs[i]) <= key(xs[j])
  }

  /** Inserts `x` in front of the first element whose key is not smaller: equal keys keep `x` first. */
  function InsertBy<T(==)>(x: T, xs: seq<T>, key: T -> int): (r: seq<T>)
    ensures |r| == |xs| + 1
    ensures multiset(r) == multiset(xs) + multiset{x}
  {
    if xs == [] || key(x) <= key(xs[0]) then [x] + xs
    else
      assert xs == [xs[0]] + xs[1..];
      [xs[0]] + InsertBy(x, xs[1..], key)
  }

  lemma SortedCons<T>(a: T, t: seq<T>, key: T -> int)
    requires SortedBy(t, key)
    requires forall k :: 0 <= k < |t| ==> key(a) <= key(t[k])
    ensures SortedBy([a] + t, key)
  {
    var r := [a] + t;
    forall i, j | 0 <= i < j < |r| ensures key(r[i]) <= key(r[j]) {
      assert r[j] == t[j - 1];
      if i > 0 {
        assert r[i] == t[i - 1];
      }
    }
  }

  lemma {:induction false} InsertBySorted<T>(x: T, xs: seq<T>, key: T -> int)
    requires SortedBy(xs, key)
    ensures SortedBy(InsertBy(x, xs, key), key)
    decreases |xs|
  {
    if xs == [] || key(x) <= key(xs[0]) {
      SortedCons(x, xs, key);
    } else {
      var tail := InsertBy(x, xs[1..], key);
      InsertBySorted(x, xs[1..], key);
      assert xs == [xs[0]] + xs[1..];
      InsertByBound(x, xs[1..], key, key(xs[0]));
      SortedCons(xs[0], tail, key);
    }
  }

  /** Inserting an element keeps a lower bound that it and every element respect. */
  lemma InsertByBound<T>(x: T, xs: seq<T>, key: T -> int, lo: int)
    requires lo <= key(x)
    requires forall k :: 0 <= k < |xs| ==> lo <= key(xs[k])
    ensures forall k :: 0 <= k < |InsertBy(x, xs, key)| ==> lo <= key(InsertBy(x, xs, key)[k])
  {
    var r := InsertBy(x, xs, key);
    forall k | 0 <= k < |r| ensures lo <= key(r[k]) {
      var y := r[k];
      assert y in multiset(r);
      if y != x {
        assert y in multiset(xs);
        var j :| 0 <= j < |xs| && xs[j] == y;
      }
    }
  }

  /**
   * `xs.slice().sort((a, b) => key(a) - key(b))`: an insertion sort, stable like the
   * sort of every JavaScript engine since ES2019.
   */
  function SortBy<T(==)>(xs: seq<T>, key: T -> int): (r: seq<T>)
    ensures |r| == |xs|
    ensures multiset(r) == multiset(xs)
    ensures SortedBy(r, key)
  {
    if xs == [] then []
    else
      assert xs == [xs[0]] + xs[1..];
      InsertBySorted(xs[0], SortBy(xs[1..], key), key);
      InsertBy(xs[0], SortBy(xs[1..], key), key)
  }

  function KeyIs<T>(key: T -> int, k: int): T -> bool
  {
    (x: T) => key(x) == k
  }

  /** Inserting keeps the order among equal keys, with the new element first among them. */
  lemma {:induction false} InsertByKeepsKeyOrder<T(!new)>(x: T, xs: seq<T>, key: T -> int, k: int)
    ensures Filter(InsertBy(x, xs, key), KeyIs(key, k)) == (if key(x) == k then [x] else []) + Filter(xs, KeyIs(key, k))
    decreases |xs|
  {
    if xs == [] || key(x) <= key(xs[0]) {
      assert ([x] + xs)[1..] == xs;
    } else {
      InsertByKeepsKeyOrder(x, xs[1..], key, k);
      assert ([xs[0]] + InsertBy(x, xs[1..], key))[1..] == InsertBy(x, xs[1..], key);
    }
  }

  /** The sort is stable: the elements of any one key come out in their input order. */
  lemma {:induction false} SortByIsStable<T(!new)>(xs: seq<T>, key: T -> int, k: int)
    ensures Filter(SortBy(xs, key), KeyIs(key, k)) == Filter(xs, KeyIs(key, k))
    decreases |xs|
  {
    if xs != [] {
      SortByIsStable(xs[1..], key, k);
      InsertByKeepsKeyOrder(xs[0], SortBy(xs[1..], key), key, k);
    }
  }

  /** A prefix of a sorted list holds keys no larger than anything left after it. */
  lemma SortedPrefixComesFirst<T>(xs: seq<T>, key: T -> int, n: nat)
    requires SortedBy(xs, key) && n <= |xs|
    ensures forall x, y :: x in xs[..n] && y in multiset(xs) - multiset(xs[..n]) ==> key(x) <= key(y)
  {
    assert xs == xs[..n] + xs[n..];
    assert multiset(xs) - multiset(xs[..n]) == multiset(xs[n..]);
    forall x, y | x in xs[..n] && y in multiset(xs) - multiset(xs[..n]) ensures key(x) <= key(y) {
      assert y in xs[n..];
      var i :| 0 <= i < n && xs[..n][i] == x;
      var j :| 0 <= j < |xs[n..]| && xs[n..][j] == y;
      assert xs[i] == x && xs[n + j] == y;
    }
  }

  /** `xs.sort(...).slice(0, n)`: the first `n` elements of the stable sort, or all of them. */
  function SmallestBy<T(==,!new)>(xs: seq<T>, key: T -> int, n: nat): (r: seq<T>)
    ensures |r| == if |xs| < n then |xs| else n
    ensures multiset(r) <= multiset(xs)
    ensures SortedBy(r, key)
    ensures forall k :: Filter(r, KeyIs(key, k)) <= Filter(xs, KeyIs(key, k))
  {
    var sorted := SortBy(xs, key);
    var m := if |xs| < n then |xs| else n;
    assert sorted == sorted[..m] + sorted[m..];
    forall k ensures Filter(sorted[..m], KeyIs(key, k)) <= Filter(xs, KeyIs(key, k)) {
      FilterAppend(sorted[..m], sorted[m..], KeyIs(key, k));
      SortByIsStable(xs, key, k);
    }
    sorted[..m]
  }

  /** What a sub-multiset holds, the larger one holds. */
  lemma SubMultisetMembers<T>(a: seq<T>, b: seq<T>)
    requires multiset(a) <= multiset(b)
    ensures forall x :: x in a ==> x in b
  {
    forall x | x in a ensures x in b {
      assert x in multiset(a);
    }
  }

  /** Nothing the slice leaves out has a smaller key than what it keeps. */
  lemma SmallestByKeepsTheLeast<T(!new)>(xs: seq<T>, key: T -> int, n: nat)
    ensures var r := SmallestBy(xs, key, n);
      forall x, y :: x in r && y in multiset(xs) - multiset(r) ==> key(x) <= key(y)
  {
    var sorted := SortBy(xs, key);
    var m := if |xs| < n then |xs| else n;
    SortedPrefixComesFirst(sorted, key, m);
  }

  /** The first position holding the least key: what a stable ascending sort puts first. */
  function MinIndexBy<T>(xs: seq<T>, key: T -> int): (i: nat)
    requires xs != []
    ensures i < |xs|
    ensures forall j :: 0 <= j < |xs| ==> key(xs[i]) <= key(xs[j])
    ensures forall j :: 0 <= j < i ==> key(xs[i]) < key(xs[j])
    decreases |xs|
  {
    if |xs| == 1 then 0
    else
      var k := MinIndexBy(xs[1..], key) + 1;
      if key(xs[0]) <= key(xs[k]) then 0 else k
  }

  /** The head of the stable sort is the first element with the least key. */
  lemma {:induction false} SortHeadIsFirstMin<T>(xs: seq<T>, key: T -> int)
    requires xs != []
    ensures SortBy(xs, key)[0] == xs[MinIndexBy(xs, key)]
    decreases |xs|
  {
    if |xs| == 1 {
      assert SortBy(xs[1..], key) == [];
    } else {
      SortHeadIsFirstMin(xs[1..], key);
    }
  }

  /** An element appended with a key no smaller than any other does not move the first least key. */
  lemma {:induction false} MinIndexByAppend<T>(xs: seq<T>, y: T, key: T -> int)
    requires xs != []
    requires forall j :: 0 <= j < |xs| ==> key(xs[j]) <= key(y)
    ensures MinIndexBy(xs + [y], key) == MinIndexBy(xs, key)
    decreases |xs|
  {
    var ys := xs + [y];
    assert ys[0] == xs[0];
    if |xs| == 1 {
      assert ys[1..] == [y];
    } else {
      assert ys[1..] == xs[1..] + [y];
      MinIndexByAppend(xs[1..], y, key);
      var k := MinIndexBy(xs[1..], key) + 1;
      assert ys[k] == xs[k];
    }
  }

  /** `xs.findIndex(matches)`, or `None` where JavaScript returns -1. */
  function FindIndex<T>(xs: seq<T>, matches: T -> bool): (r: Option<nat>)
    ensures r.None? <==> forall j :: 0 <= j < |xs| ==> !matches(xs[j])
    ensures r.Some? ==> r.value < |xs| && matches(xs[r.value])
    ensures r.Some? ==> forall j :: 0 <= j < r.value ==> !matches(xs[j])
    decreases |xs|
  {
    if xs == [] then None
    else if matches(xs[0]) then Some(0)
    else
      var rest := FindIndex(xs[1..], matches);
      if rest.None? then None else Some(rest.value + 1)
  }

  /** No two elements share a key: the list mirrors a store keyed by `key`. */
  predicate Distinct<T, K(==)>(xs: seq<T>, key: T -> K)
  {
    forall i, j :: 0 <= i < j < |xs| ==> key(xs[i]) != key(xs[j])
  }
}
