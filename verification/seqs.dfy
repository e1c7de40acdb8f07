/** Order-preserving list operations that the dashboard pages express with
    `Array.prototype.filter`, `.length` and `new Set(...)`. */
module Seqs {

  /** `xs.filter(p)`: the elements satisfying `p`, in their original order. */
  function Filter<T(!new)>(xs: seq<T>, p: T -> bool): (r: seq<T>)
    ensures |r| <= |xs|
    ensures forall i :: 0 <= i < |r| ==> p(r[i])
    ensures forall x :: x in r <==> x in xs && p(x)
  {
    if xs == [] then [] else
    var rest := Filter(xs[1..], p);
    assert forall x :: x in xs <==> x == xs[0] || x in xs[1..];
    if p(xs[0]) then [xs[0]] + rest else rest
  }

  /** Filtering a concatenation filters each part: the kept elements stay in order. */
  lemma {:induction false} FilterAppend<T(!new)>(xs: seq<T>, ys: seq<T>, p: T -> bool)
    ensures Filter(xs + ys, p) == Filter(xs, p) + Filter(ys, p)
  {
    if xs != [] {
      assert (xs + ys)[1..] == xs[1..] + ys;
      FilterAppend(xs[1..], ys, p);
    } else {
      assert xs + ys == ys;
    }
  }

  /** Filtering keeps every occurrence of a kept element and none of a dropped one. */
  lemma {:induction false} FilterMultiplicity<T(!new)>(xs: seq<T>, p: T -> bool, x: T)
    ensures multiset(Filter(xs, p))[x] == if p(x) then multiset(xs)[x] else 0
  {
    if xs != [] {
      FilterMultiplicity(xs[1..], p, x);
      assert xs == [xs[0]] + xs[1..];
    }
  }

  /** A filter that keeps everything is the identity. */
  lemma {:induction false} FilterAll<T(!new)>(xs: seq<T>, p: T -> bool)
    requires forall x :: x in xs ==> p(x)
    ensures Filter(xs, p) == xs
  {
    if xs != [] {
      FilterAll(xs[1..], p);
      assert xs == [xs[0]] + xs[1..];
    }
  }

  /** `xs.filter(p).length`: the number of elements that pass the test, counted one by one
      from the front. */
  function Count<T(!new)>(xs: seq<T>, p: T -> bool): (n: nat)
    ensures n == |Filter(xs, p)|
    ensures n <= |xs|
    ensures n == 0 <==> forall x :: x in xs ==> !p(x)
  {
    if xs == [] then 0
    else
      var r := Filter(xs, p);
      assert |r| > 0 ==> r[0] in r;
      (if p(xs[0]) then 1 else 0) + Count(xs[1..], p)
  }

  /** Counting over a concatenation adds the counts of the parts. */
  lemma CountAppend<T(!new)>(xs: seq<T>, ys: seq<T>, p: T -> bool)
    ensures Count(xs + ys, p) == Count(xs, p) + Count(ys, p)
  {
    FilterAppend(xs, ys, p);
  }

  /** The index of the first occurrence of `x`. */
  function FirstIndex<T(==)>(xs: seq<T>, x: T): (i: nat)
    requires x in xs
    ensures i < |xs| && xs[i] == x && x !in xs[..i]
  {
    if xs[0] == x then 0 else 1 + FirstIndex(xs[1..], x)
  }

  /** `[...new Set(xs)]`: each distinct value once, in order of first appearance. */
  function Distinct<T(==,!new)>(xs: seq<T>): (r: seq<T>)
    ensures forall x :: x in r <==> x in xs
    ensures forall i, j :: 0 <= i < j < |r| ==> r[i] != r[j]
  {
    if xs == [] then [] else
    var init := Distinct(xs[..|xs| - 1]);
    var last := xs[|xs| - 1];
    assert forall x :: x in xs <==> x in xs[..|xs| - 1] || x == last;
    if last in init then init else init + [last]
  }

  /** The order of `Distinct` is the order of first appearance. */
  lemma {:induction false} DistinctFirstAppearance<T(!new)>(xs: seq<T>, i: nat, j: nat)
    requires i < j < |Distinct(xs)|
    ensures FirstIndex(xs, Distinct(xs)[i]) < FirstIndex(xs, Distinct(xs)[j])
  {
    var init, last := xs[..|xs| - 1], xs[|xs| - 1];
    assert xs == init + [last];
    var d := Distinct(init);
    var r := Distinct(xs);
    assert r == if last in d then d else d + [last];
    assert r[i] == d[i];
    FirstIndexPrefix(init, last, r[i]);
    if j < |d| {
      assert r[j] == d[j];
      DistinctFirstAppearance(init, i, j);
      FirstIndexPrefix(init, last, r[j]);
    } else {
      FirstIndexPrefix(init, last, r[j]);
    }
  }

  /** Appending an element does not move the first occurrence of anything already present. */
  lemma {:induction false} FirstIndexPrefix<T>(xs: seq<T>, y: T, x: T)
    requires x in xs + [y]
    ensures x in xs ==> FirstIndex(xs + [y], x) == FirstIndex(xs, x)
    ensures x !in xs ==> FirstIndex(xs + [y], x) == |xs|
  {
    var i := FirstIndex(xs + [y], x);
    if x in xs {
      var k := FirstIndex(xs, x);
      assert (xs + [y])[k] == x;
    }
  }
}
