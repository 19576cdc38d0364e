/** Left-to-right totals over a list of streams, as the calculator's
    accumulation loops compute them. */
module Sums {

  /** The total of f over s, accumulated from the first element to the last. */
  function SumOf<T>(s: seq<T>, f: T -> real): real
  {
    if s == [] then 0.0 else SumOf(s[..|s| - 1], f) + f(s[|s| - 1])
  }

  lemma SumOfSnoc<T>(s: seq<T>, x: T, f: T -> real)
    ensures SumOf(s + [x], f) == SumOf(s, f) + f(x)
  {
    assert (s + [x])[..|s|] == s;
  }

  lemma {:induction false} SumOfAppend<T>(a: seq<T>, b: seq<T>, f: T -> real)
    ensures SumOf(a + b, f) == SumOf(a, f) + SumOf(b, f)
  {
    if b == [] {
      assert a + b == a;
    } else {
      var b' := b[..|b| - 1];
      assert a + b == (a + b') + [b[|b| - 1]];
      SumOfSnoc(a + b', b[|b| - 1], f);
      SumOfAppend(a, b', f);
    }
  }

  /** A total does not depend on the order of the streams it adds up. */
  lemma {:induction false} SumOfPermutation<T>(a: seq<T>, b: seq<T>, f: T -> real)
    requires multiset(a) == multiset(b)
    ensures SumOf(a, f) == SumOf(b, f)
  {
    if a == [] {
      assert |multiset(b)| == 0;
      assert b == [];
    } else {
      var x := a[|a| - 1];
      var a' := a[..|a| - 1];
      assert a == a' + [x];
      assert x in multiset(b);
      var j :| 0 <= j < |b| && b[j] == x;
      var b' := b[..j] + b[j + 1..];
      RemovedFromMultiset(b, j);
      assert multiset(a) == multiset(a') + multiset{x};
      assert multiset(a') == multiset(b');
      SumOfPermutation(a', b', f);
      SumOfSnoc(a', x, f);
      SumWithoutAt(b, j, f);
    }
  }

  /** Taking out element j leaves the multiset without one copy of it. */
  lemma RemovedFromMultiset<T>(b: seq<T>, j: nat)
    requires j < |b|
    ensures multiset(b[..j] + b[j + 1..]) == multiset(b) - multiset{b[j]}
  {
    assert b == b[..j] + [b[j]] + b[j + 1..];
    assert multiset(b) == multiset(b[..j]) + multiset{b[j]} + multiset(b[j + 1..]);
  }

  /** The total is one element's amount plus the total without it. */
  lemma SumWithout<T>(left: seq<T>, x: T, right: seq<T>, f: T -> real)
    ensures SumOf(left + [x] + right, f) == SumOf(left + right, f) + f(x)
  {
    SumOfAppend(left + [x], right, f);
    SumOfSnoc(left, x, f);
    SumOfAppend(left, right, f);
    AddSwap(SumOf(left, f), f(x), SumOf(right, f));
  }

  lemma SumWithoutAt<T>(b: seq<T>, j: nat, f: T -> real)
    requires j < |b|
    ensures SumOf(b, f) == SumOf(b[..j] + b[j + 1..], f) + f(b[j])
  {
    assert b == b[..j] + [b[j]] + b[j + 1..];
    SumWithout(b[..j], b[j], b[j + 1..], f);
  }

  lemma AddSwap(l: real, x: real, r: real)
    ensures l + x + r == l + r + x
  {
  }

  /** Amounts that are none of them negative add up to a total that is not negative. */
  lemma {:induction false} SumOfNonNegative<T>(s: seq<T>, f: T -> real)
    requires forall k :: 0 <= k < |s| ==> f(s[k]) >= 0.0
    ensures SumOf(s, f) >= 0.0
  {
    if s != [] {
      SumOfNonNegative(s[..|s| - 1], f);
    }
  }

  /** Totals of two functions that agree on every element are equal. */
  lemma {:induction false} SumOfPointwise<T>(s: seq<T>, f: T -> real, g: T -> real)
    requires forall k :: 0 <= k < |s| ==> f(s[k]) == g(s[k])
    ensures SumOf(s, f) == SumOf(s, g)
  {
    if s != [] {
      SumOfPointwise(s[..|s| - 1], f, g);
    }
  }
}
