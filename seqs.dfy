/** Sequence helpers standing for the JavaScript array operations the tracker
    relies on: `filter` (Keep), the `reduce` that adds amounts (Sum) and the
    order-preserving relation between an array and a filtered copy of it. */
module Seqs {

  datatype Option<+T> = None | Some(value: T)

  /** `xs.filter(p)`: the elements of xs that satisfy p, in their original order. */
  function Keep<T>(xs: seq<T>, p: T -> bool): (r: seq<T>)
    ensures |r| <= |xs|
  {
    if xs == [] then []
    else Keep(xs[..|xs| - 1], p) + (if p(xs[|xs| - 1]) then [xs[|xs| - 1]] else [])
  }

  /** a can be obtained from b by deleting elements (order is preserved). */
  predicate IsSubsequence<T(==)>(a: seq<T>, b: seq<T>)
    decreases |b|
  {
    if a == [] then true
    else if b == [] then false
    else if a[|a| - 1] == b[|b| - 1] then IsSubsequence(a[..|a| - 1], b[..|b| - 1])
    else IsSubsequence(a, b[..|b| - 1])
  }

  /** `xs.reduce((sum, x) => sum + x, 0)` over exact reals. */
  function Sum(xs: seq<real>): real
  {
    if xs == [] then 0.0 else Sum(xs[..|xs| - 1]) + xs[|xs| - 1]
  }

  function Abs(x: real): (r: real)
    ensures r >= 0.0 && (r == x || r == -x)
  {
    if x < 0.0 then -x else x
  }

  /** An element survives the filter exactly when it was there and passes the test. */
  lemma {:induction false} KeepMembers<T>(xs: seq<T>, p: T -> bool, x: T)
    ensures x in Keep(xs, p) <==> x in xs && p(x)
  {
    if xs != [] {
      var init := xs[..|xs| - 1];
      KeepMembers(init, p, x);
      assert xs == init + [xs[|xs| - 1]];
    }
  }

  /** Each element occurs in the filtered sequence as often as in the original
      when it passes the test, and not at all otherwise. */
  lemma {:induction false} KeepCounts<T>(xs: seq<T>, p: T -> bool)
    ensures forall x :: multiset(Keep(xs, p))[x] == if p(x) then multiset(xs)[x] else 0
  {
    if xs != [] {
      var init := xs[..|xs| - 1];
      KeepCounts(init, p);
      assert xs == init + [xs[|xs| - 1]];
    }
  }

  /** The filtered sequence keeps the original relative order. */
  lemma {:induction false} KeepIsSubsequence<T>(xs: seq<T>, p: T -> bool)
    ensures IsSubsequence(Keep(xs, p), xs)
  {
    if xs != [] {
      var init, last := xs[..|xs| - 1], xs[|xs| - 1];
      var k := Keep(init, p);
      KeepIsSubsequence(init, p);
      if p(last) {
        assert Keep(xs, p) == k + [last];
        assert (k + [last])[..|k|] == k;
      } else {
        assert Keep(xs, p) == k;
        if k != [] {
          KeepMembers(init, p, k[|k| - 1]);
          assert k[|k| - 1] in k;
        }
      }
    }
  }

  /** A subsequence stays one when the longer sequence grows. */
  lemma {:induction false} SubsequenceOfLonger<T>(a: seq<T>, b: seq<T>, x: T)
    requires IsSubsequence(a, b)
    ensures IsSubsequence(a, b + [x])
    decreases |b|, 1
  {
    assert (b + [x])[..|b|] == b;
    if a != [] && a[|a| - 1] == x {
      SubsequenceDropLast(a, b);
    }
  }

  /** Dropping the last element of a subsequence keeps it a subsequence. */
  lemma {:induction false} SubsequenceDropLast<T>(a: seq<T>, b: seq<T>)
    requires a != [] && IsSubsequence(a, b)
    ensures IsSubsequence(a[..|a| - 1], b)
    decreases |b|, 0
  {
    var a', b', last := a[..|a| - 1], b[..|b| - 1], b[|b| - 1];
    if a[|a| - 1] != last {
      SubsequenceDropLast(a, b');
    }
    SubsequenceOfLonger(a', b', last);
    assert b' + [last] == b;
  }

  /** Filtering with a test every element passes gives back the whole sequence. */
  lemma {:induction false} KeepAll<T>(xs: seq<T>, p: T -> bool)
    requires forall i :: 0 <= i < |xs| ==> p(xs[i])
    ensures Keep(xs, p) == xs
  {
    if xs != [] {
      KeepAll(xs[..|xs| - 1], p);
      assert xs == xs[..|xs| - 1] + [xs[|xs| - 1]];
    }
  }

  /** Filtering twice with the same test is the same as filtering once. */
  lemma KeepTwice<T>(xs: seq<T>, p: T -> bool)
    ensures Keep(Keep(xs, p), p) == Keep(xs, p)
  {
    var k := Keep(xs, p);
    forall i | 0 <= i < |k| ensures p(k[i]) {
      KeepMembers(xs, p, k[i]);
    }
    KeepAll(k, p);
  }

  lemma {:induction false} SumAppend(xs: seq<real>, ys: seq<real>)
    ensures Sum(xs + ys) == Sum(xs) + Sum(ys)
    decreases |ys|
  {
    if ys != [] {
      var init := ys[..|ys| - 1];
      var last := ys[|ys| - 1];
      assert (xs + ys)[..|xs + ys| - 1] == xs + init;
      calc {
        Sum(xs + ys);
        Sum(xs + init) + last;
        { SumAppend(xs, init); }
        Sum(xs) + Sum(init) + last;
        Sum(xs) + Sum(ys);
      }
    } else {
      assert xs + ys == xs;
    }
  }
}
