/** Generic list operations the screens use: JavaScript's `filter`, a `reduce` that
    adds up one numeric field, and `Array.from(new Set(xs))`. */
module Seqs {

  /** The elements of `s` that satisfy `p`, in their original order. */
  function Filter<T(==,!new)>(s: seq<T>, p: T -> bool): (r: seq<T>)
    ensures |r| <= |s|
    ensures forall x :: x in r <==> x in s && p(x)
    ensures forall i :: 0 <= i < |r| ==> p(r[i])
  {
    if |s| == 0 then []
    else if p(s[0]) then [s[0]] + Filter(s[1..], p)
    else Filter(s[1..], p)
  }

  /** Filtering distributes over concatenation: the kept elements of `a` all come
      before the kept elements of `b`, so the original order is preserved. */
  lemma {:induction false} FilterAppend<T(!new)>(a: seq<T>, b: seq<T>, p: T -> bool)
    ensures Filter(a + b, p) == Filter(a, p) + Filter(b, p)
  {
    if |a| == 0 {
      assert a + b == b;
    } else {
      assert (a + b)[0] == a[0];
      assert (a + b)[1..] == a[1..] + b;
      FilterAppend(a[1..], b, p);
    }
  }

  /** Filtering keeps every occurrence of a kept value and no occurrence of a dropped one. */
  lemma {:induction false} FilterCount<T(!new)>(s: seq<T>, p: T -> bool, x: T)
    ensures multiset(Filter(s, p))[x] == if p(x) then multiset(s)[x] else 0
  {
    if |s| != 0 {
      FilterCount(s[1..], p, x);
      assert s == [s[0]] + s[1..];
      assert multiset(s) == multiset{s[0]} + multiset(s[1..]);
      if p(s[0]) {
        assert Filter(s, p) == [s[0]] + Filter(s[1..], p);
        assert multiset(Filter(s, p)) == multiset{s[0]} + multiset(Filter(s[1..], p));
      } else {
        assert Filter(s, p) == Filter(s[1..], p);
      }
    }
  }

  /** `FilterCount` for every value at once. */
  lemma FilterMultiplicity<T(!new)>(s: seq<T>, p: T -> bool)
    ensures forall x :: multiset(Filter(s, p))[x] == if p(x) then multiset(s)[x] else 0
  {
    forall x ensures multiset(Filter(s, p))[x] == if p(x) then multiset(s)[x] else 0 {
      FilterCount(s, p, x);
    }
  }

  /** Filtering two permutations of each other gives permutations of each other. */
  lemma FilterPermutation<T(!new)>(a: seq<T>, b: seq<T>, p: T -> bool)
    requires multiset(a) == multiset(b)
    ensures multiset(Filter(a, p)) == multiset(Filter(b, p))
  {
    FilterMultiplicity(a, p);
    FilterMultiplicity(b, p);
    assert forall x :: multiset(Filter(a, p))[x] == multiset(Filter(b, p))[x];
  }

  /** `r` is `s` with some elements left out and the rest kept in their original order. */
  ghost predicate Subsequence<T>(r: seq<T>, s: seq<T>)
    decreases |s|
  {
    if |r| == 0 then true
    else if |s| == 0 then false
    else if r[0] == s[0] then Subsequence(r[1..], s[1..])
    else Subsequence(r, s[1..])
  }

  lemma {:induction false} SubsequenceRefl<T>(s: seq<T>)
    ensures Subsequence(s, s)
  {
    if |s| != 0 {
      SubsequenceRefl(s[1..]);
    }
  }

  /** Filtering only drops elements: what is kept is a subsequence of the input. */
  lemma {:induction false} FilterSubsequence<T(!new)>(s: seq<T>, p: T -> bool)
    ensures Subsequence(Filter(s, p), s)
  {
    if |s| != 0 {
      FilterSubsequence(s[1..], p);
    }
  }

  /** `s.reduce((sum, x) => sum + f(x), 0)`; the order of additions does not matter over `real`. */
  function Sum<T>(s: seq<T>, f: T -> real): real
  {
    if |s| == 0 then 0.0 else f(s[0]) + Sum(s[1..], f)
  }

  /** The sum splits at any concatenation point. */
  lemma {:induction false} SumAppend<T>(a: seq<T>, b: seq<T>, f: T -> real)
    ensures Sum(a + b, f) == Sum(a, f) + Sum(b, f)
  {
    if |a| == 0 {
      assert a + b == b;
    } else {
      assert (a + b)[0] == a[0];
      assert (a + b)[1..] == a[1..] + b;
      SumAppend(a[1..], b, f);
    }
  }

  /** Taking one element out of the middle of a list takes its term out of the sum. */
  lemma {:induction false} SumRemove<T>(s: seq<T>, i: nat, f: T -> real)
    requires i < |s|
    ensures Sum(s, f) == f(s[i]) + Sum(s[..i] + s[i + 1..], f)
  {
    if i == 0 {
      assert s[..0] + s[1..] == s[1..];
    } else {
      var t := s[1..];
      SumRemove(t, i - 1, f);
      var r := s[..i] + s[i + 1..];
      assert r[0] == s[0];
      assert r[1..] == t[..i - 1] + t[i..];
    }
  }

  /** Taking one element out of a list takes one occurrence of it out of the multiset. */
  lemma MultisetRemove<T>(b: seq<T>, i: nat)
    requires i < |b|
    ensures multiset(b[..i] + b[i + 1..]) == multiset(b) - multiset{b[i]}
  {
    assert b == b[..i] + [b[i]] + b[i + 1..];
    assert multiset(b) == multiset(b[..i]) + multiset{b[i]} + multiset(b[i + 1..]);
  }

  /** The sum of a list does not depend on the order of its elements. */
  lemma {:induction false} SumPermutation<T>(a: seq<T>, b: seq<T>, f: T -> real)
    requires multiset(a) == multiset(b)
    ensures Sum(a, f) == Sum(b, f)
    decreases |a|
  {
    if |a| == 0 {
      assert |b| == |multiset(b)| == 0;
    } else {
      assert a[0] in multiset(b);
      var i :| 0 <= i < |b| && b[i] == a[0];
      var ra, rb := a[1..], b[..i] + b[i + 1..];
      MultisetRemove(a, 0);
      assert a[..0] + a[1..] == ra;
      MultisetRemove(b, i);
      assert multiset(ra) == multiset(rb);
      SumPermutation(ra, rb, f);
      SumMatchedHeads(a, b, i, f);
    }
  }

  lemma SumMatchedHeads<T>(a: seq<T>, b: seq<T>, i: nat, f: T -> real)
    requires 0 < |a| && i < |b| && b[i] == a[0]
    requires Sum(a[1..], f) == Sum(b[..i] + b[i + 1..], f)
    ensures Sum(a, f) == Sum(b, f)
  {
    SumRemove(b, i, f);
  }

  lemma MulNonNegative(x: real, y: real)
    requires 0.0 <= x && 0.0 <= y
    ensures 0.0 <= x * y
  {
  }

  lemma FactorNonNegative(x: real, d: real)
    requires 0.0 < d && 0.0 <= x * d
    ensures 0.0 <= x
  {
  }

  lemma QuotientTimesDivisor(x: real, k: real)
    requires k != 0.0
    ensures (x / k) * k == x
  {
  }

  /** A value known to be the quotient `x / k` gives back `x` when multiplied by `k`. */
  lemma QuotientIdentity(q: real, x: real, k: real)
    requires k != 0.0 && q == x / k
    ensures q * k == x
  {
    QuotientTimesDivisor(x, k);
  }

  /** A quotient by a positive number stays in any interval that the dividend, scaled
      back by the divisor, stays in. */
  lemma QuotientBounds(num: real, den: real, lo: real, hi: real)
    requires den > 0.0 && lo * den <= num <= hi * den
    ensures lo <= num / den <= hi
  {
    var q := num / den;
    QuotientTimesDivisor(num, den);
    assert (q - lo) * den == num - lo * den;
    assert (hi - q) * den == hi * den - num;
    FactorNonNegative(q - lo, den);
    FactorNonNegative(hi - q, den);
  }

  function Identity(x: real): real { x }

  /** The arithmetic mean `sum / length` of a non-empty list. */
  function Mean(xs: seq<real>): real
    requires |xs| > 0
  {
    Sum(xs, Identity) / (|xs| as real)
  }

  lemma {:induction false} SumLower(xs: seq<real>, lo: real)
    requires forall i :: 0 <= i < |xs| ==> lo <= xs[i]
    ensures lo * (|xs| as real) <= Sum(xs, Identity)
  {
    if |xs| > 0 {
      SumLower(xs[1..], lo);
      assert lo * (|xs| as real) == lo + lo * (|xs[1..]| as real);
    }
  }

  lemma {:induction false} SumUpper(xs: seq<real>, hi: real)
    requires forall i :: 0 <= i < |xs| ==> xs[i] <= hi
    ensures Sum(xs, Identity) <= hi * (|xs| as real)
  {
    if |xs| > 0 {
      SumUpper(xs[1..], hi);
      assert hi * (|xs| as real) == hi + hi * (|xs[1..]| as real);
    }
  }

  /** The mean of values in `[lo, hi]` is in `[lo, hi]`. */
  lemma MeanBounds(xs: seq<real>, lo: real, hi: real)
    requires |xs| > 0
    requires forall i :: 0 <= i < |xs| ==> lo <= xs[i] <= hi
    ensures lo <= Mean(xs) <= hi
  {
    SumLower(xs, lo);
    SumUpper(xs, hi);
    QuotientBounds(Sum(xs, Identity), |xs| as real, lo, hi);
  }

  /** Position of the first occurrence of `x` in `s`. */
  function FirstIndex<T(==)>(s: seq<T>, x: T): (i: nat)
    requires x in s
    ensures i < |s| && s[i] == x
    ensures forall j :: 0 <= j < i ==> s[j] != x
  {
    if s[0] == x then 0 else 1 + FirstIndex(s[1..], x)
  }

  ghost predicate NoDuplicates<T>(s: seq<T>) {
    forall i, j :: 0 <= i < j < |s| ==> s[i] != s[j]
  }

  /** `Array.from(new Set(s))`: each distinct value once, in the order of its first occurrence. */
  function Distinct<T(==,!new)>(s: seq<T>): (r: seq<T>)
    ensures NoDuplicates(r)
    ensures forall x :: x in r <==> x in s
    ensures forall i, j :: 0 <= i < j < |r| ==> FirstIndex(s, r[i]) < FirstIndex(s, r[j])
  {
    if |s| == 0 then []
    else
      var init := s[..|s| - 1];
      var d := Distinct(init);
      var last := s[|s| - 1];
      FirstIndexPrefix(s, |s| - 1);
      if last in d then d
      else
        assert FirstIndex(s, last) == |s| - 1;
        d + [last]
  }

  /** The first occurrence of a value that occurs in a prefix lies in that prefix. */
  lemma {:induction false} FirstIndexPrefix<T>(s: seq<T>, k: nat)
    requires k <= |s|
    ensures forall x :: x in s[..k] ==> FirstIndex(s, x) == FirstIndex(s[..k], x)
  {
    if k > 0 {
      FirstIndexPrefix(s[1..], k - 1);
      assert s[..k][1..] == s[1..][..k - 1];
      forall x | x in s[..k] ensures FirstIndex(s, x) == FirstIndex(s[..k], x) {
        if s[0] != x {
          assert x in s[1..][..k - 1];
        }
      }
    }
  }
}
