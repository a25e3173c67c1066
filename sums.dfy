/** Sums over the candidate integers: the `totalSum` of every port and the
    remaining-sum bookkeeping of the search. */
module Sums {

  /** The sum of a sequence, folded from the front like `reduce((a, b) => a + b, 0)`,
      Kotlin's `sum()` or PHP's `array_sum`. */
  function Sum(s: seq<int>): (r: int)
  {
    if s == [] then 0 else s[0] + Sum(s[1..])
  }

  /** Summing is additive over concatenation. */
  lemma {:induction false} SumAppend(a: seq<int>, b: seq<int>)
    ensures Sum(a + b) == Sum(a) + Sum(b)
  {
    if a == [] {
      assert a + b == b;
    } else {
      assert (a + b)[1..] == a[1..] + b;
      SumAppend(a[1..], b);
    }
  }

  /** The remaining sum at depth i, less original[i], is the remaining sum at depth i + 1:
      the `total - original[i]` both recursive calls receive. */
  lemma RemainingStep(s: seq<int>, i: nat)
    requires i < |s|
    ensures Sum(s[i..]) - s[i] == Sum(s[i + 1..])
  {
    assert s[i..][1..] == s[i + 1..];
  }

  predicate NonNegative(s: seq<int>)
  {
    forall k :: 0 <= k < |s| ==> s[k] >= 0
  }

  predicate Positive(s: seq<int>)
  {
    forall k :: 0 <= k < |s| ==> s[k] > 0
  }

  /** `totalSum` as the C, C++ and Go ports write it: an accumulator started at 0. */
  method TotalSum(a: array<int>) returns (s: int)
    ensures s == Sum(a[..])
  {
    s := 0;
    var i := 0;
    while i < a.Length
      invariant 0 <= i <= a.Length
      invariant s == Sum(a[..i])
    {
      assert a[..i + 1] == a[..i] + [a[i]];
      SumAppend(a[..i], [a[i]]);
      s := s + a[i];
      i := i + 1;
    }
    assert a[..] == a[..a.Length];
  }

  /** `totalSum` as the Java port writes it: the accumulator starts at `original[0]`,
      so the array must not be empty (both Java constructors guarantee it). */
  method TotalSumFromFirst(a: array<int>) returns (s: int)
    requires a.Length > 0
    ensures s == Sum(a[..])
  {
    s := a[0];
    var i := 1;
    assert a[..1] == [a[0]];
    while i < a.Length
      invariant 1 <= i <= a.Length
      invariant s == Sum(a[..i])
    {
      assert a[..i + 1] == a[..i] + [a[i]];
      SumAppend(a[..i], [a[i]]);
      s := s + a[i];
      i := i + 1;
    }
    assert a[..] == a[..a.Length];
  }
}
