/** What the branch-and-prune search records, as a pure recursive function, and the
    brute-force enumeration it is measured against.

    Both work on marker prefixes x (the decisions for indices 0..|x|-1): `Accepted`
    follows the search call by call, prunes included, and lists the prefixes at which
    it records a solution; `Matching` lists every full marker vector extending x whose
    selection sums to the target, exclude-before-include at every index. */
module Enumeration {
  import opened Sums
  import opened Selection

  /** The marker prefixes the search records when called at depth |x| with the given
      `partial` and `total`, in the order it records them. */
  function Accepted(original: seq<int>, target: int, partial: int, total: int, x: seq<bool>): (r: seq<seq<bool>>)
    requires |x| <= |original|
    decreases |original| - |x|
  {
    if partial + total < target || partial > target then []
    else if partial == target then [x]
    else if |x| == |original| then []
    else
      var i := |x|;
      Accepted(original, target, partial, total - original[i], x + [false])
      + Accepted(original, target, partial + original[i], total - original[i], x + [true])
  }

  /** Brute force: every full marker vector extending x, trying "exclude" before
      "include" at every index, kept when the sum of what it selects is the target.
      `sum` is the sum of what x selects so far; no branch is cut short. */
  function Matching(original: seq<int>, target: int, x: seq<bool>, sum: int): (r: seq<seq<bool>>)
    requires |x| <= |original|
    decreases |original| - |x|
  {
    if |x| == |original| then (if sum == target then [x] else [])
    else Matching(original, target, x + [false], sum) + Matching(original, target, x + [true], sum + original[|x|])
  }

  /** The solutions a complete search records, as values: started at depth 0 with
      partial 0 and total the sum of all elements. */
  function Solutions(original: seq<int>, target: int): (r: seq<seq<int>>)
  {
    Picks(original, Accepted(original, target, 0, Sum(original), []))
  }

  /** The brute-force reference, as values. */
  function BruteForce(original: seq<int>, target: int): (r: seq<seq<int>>)
  {
    Picks(original, Matching(original, target, [], 0))
  }

  /** One branching step of the search: the exclude child's records, then the include child's. */
  lemma AcceptedUnfold(original: seq<int>, target: int, partial: int, total: int, x: seq<bool>)
    requires |x| < |original|
    requires !(partial + total < target || partial > target) && partial != target
    ensures Accepted(original, target, partial, total, x)
         == Accepted(original, target, partial, total - original[|x|], x + [false])
          + Accepted(original, target, partial + original[|x|], total - original[|x|], x + [true])
  {
  }

  /** One step of the reference: the vectors excluding index |x|, then those including it. */
  lemma MatchingUnfold(original: seq<int>, target: int, x: seq<bool>, sum: int)
    requires |x| < |original|
    ensures Matching(original, target, x, sum)
         == Matching(original, target, x + [false], sum) + Matching(original, target, x + [true], sum + original[|x|])
  {
  }

  /** a comes before b in exclude-before-include order: they agree up to some index
      where a excludes and b includes. */
  ghost predicate ExcludeFirst(a: seq<bool>, b: seq<bool>)
  {
    exists k :: 0 <= k < |a| && k < |b| && a[..k] == b[..k] && !a[k] && b[k]
  }

  ghost predicate InExcludeFirstOrder(ws: seq<seq<bool>>)
  {
    forall p, q :: 0 <= p < q < |ws| ==> ExcludeFirst(ws[p], ws[q])
  }

  /** Soundness: when partial is the sum of what x selects, every prefix the search
      records selects values summing exactly to target. */
  lemma {:induction false} AcceptedSound(original: seq<int>, target: int, partial: int, total: int, x: seq<bool>)
    requires |x| <= |original|
    requires partial == Sum(Pick(original, x))
    ensures forall w :: w in Accepted(original, target, partial, total, x) ==> Sum(Pick(original, w)) == target
    decreases |original| - |x|, 1
  {
    if partial + total < target || partial > target {
      assert Accepted(original, target, partial, total, x) == [];
    } else if partial == target {
      assert Accepted(original, target, partial, total, x) == [x];
    } else if |x| == |original| {
      assert Accepted(original, target, partial, total, x) == [];
    } else {
      AcceptedSoundBranch(original, target, partial, total, x);
    }
  }

  /** The branching case of AcceptedSound: both children are sound, hence so is their concatenation. */
  lemma {:induction false} AcceptedSoundBranch(original: seq<int>, target: int, partial: int, total: int, x: seq<bool>)
    requires |x| < |original|
    requires partial == Sum(Pick(original, x))
    requires !(partial + total < target || partial > target) && partial != target
    ensures forall w :: w in Accepted(original, target, partial, total, x) ==> Sum(Pick(original, w)) == target
    decreases |original| - |x|, 0
  {
    var i := |x|;
    PickSumStep(original, x, false);
    PickSumStep(original, x, true);
    AcceptedSound(original, target, partial, total - original[i], x + [false]);
    AcceptedSound(original, target, partial + original[i], total - original[i], x + [true]);
    var a := Accepted(original, target, partial, total - original[i], x + [false]);
    var b := Accepted(original, target, partial + original[i], total - original[i], x + [true]);
    assert Accepted(original, target, partial, total, x) == a + b;
    forall w | w in a + b ensures Sum(Pick(original, w)) == target {
      if w !in a {
        assert w in b;
      }
    }
  }

  /** Soundness of the reference: when `sum` is what x selects, every vector it lists
      selects values summing exactly to target. */
  lemma {:induction false} MatchingSound(original: seq<int>, target: int, x: seq<bool>, sum: int)
    requires |x| <= |original|
    requires sum == Sum(Pick(original, x))
    ensures forall w :: w in Matching(original, target, x, sum) ==> Sum(Pick(original, w)) == target
    decreases |original| - |x|
  {
    if |x| < |original| {
      PickSumStep(original, x, false);
      PickSumStep(original, x, true);
      MatchingSound(original, target, x + [false], sum);
      MatchingSound(original, target, x + [true], sum + original[|x|]);
      MatchingUnfold(original, target, x, sum);
    }
  }

  /** Every solution the complete search records sums exactly to the target, whatever
      the signs of the elements. */
  lemma SolutionsSound(original: seq<int>, target: int)
    ensures forall v :: v in Solutions(original, target) ==> Sum(v) == target
  {
    var acc := Accepted(original, target, 0, Sum(original), []);
    AcceptedSound(original, target, 0, Sum(original), []);
    forall v | v in Solutions(original, target) ensures Sum(v) == target {
      PicksMember(original, acc, v);
    }
  }

  /** Completeness of the reference: every full marker vector extending x whose
      selection sums to target is listed. */
  lemma {:induction false} MatchingComplete(original: seq<int>, target: int, x: seq<bool>, sum: int, w: seq<bool>)
    requires |x| <= |original|
    requires sum == Sum(Pick(original, x))
    requires x <= w && |w| == |original| && Sum(Pick(original, w)) == target
    ensures w in Matching(original, target, x, sum)
    decreases |original| - |x|
  {
    if |x| < |original| {
      var b := w[|x|];
      assert x + [b] <= w;
      PickSumStep(original, x, b);
      MatchingUnfold(original, target, x, sum);
      MatchingComplete(original, target, x + [b], sum + (if b then original[|x|] else 0), w);
    } else {
      assert x == w;
    }
  }

  /** Every vector the reference lists is a full-length extension of x. */
  lemma {:induction false} MatchingShape(original: seq<int>, target: int, x: seq<bool>, sum: int)
    requires |x| <= |original|
    ensures forall w :: w in Matching(original, target, x, sum) ==> |w| == |original| && x <= w
    decreases |original| - |x|, 1
  {
    if |x| < |original| {
      MatchingShapeBranch(original, target, x, sum);
    }
  }

  /** The branching case of MatchingShape. */
  lemma {:induction false} MatchingShapeBranch(original: seq<int>, target: int, x: seq<bool>, sum: int)
    requires |x| < |original|
    ensures forall w :: w in Matching(original, target, x, sum) ==> |w| == |original| && x <= w
    decreases |original| - |x|, 0
  {
    var a := Matching(original, target, x + [false], sum);
    var b := Matching(original, target, x + [true], sum + original[|x|]);
    MatchingShape(original, target, x + [false], sum);
    MatchingShape(original, target, x + [true], sum + original[|x|]);
    ShapeJoin(x, |original|, a, b);
    MatchingUnfold(original, target, x, sum);
  }

  /** Extensions of x + [false] and of x + [true] are extensions of x. */
  lemma ShapeJoin(x: seq<bool>, n: nat, a: seq<seq<bool>>, b: seq<seq<bool>>)
    requires forall w :: w in a ==> |w| == n && x + [false] <= w
    requires forall w :: w in b ==> |w| == n && x + [true] <= w
    ensures forall w :: w in a + b ==> |w| == n && x <= w
  {
    forall w | w in a + b ensures |w| == n && x <= w {
      if w in a {
        assert x <= x + [false] <= w;
      } else {
        assert x <= x + [true] <= w;
      }
    }
  }

  /** The reference lists its vectors in strictly increasing exclude-before-include
      order; in particular no vector appears twice. */
  lemma {:induction false} MatchingOrdered(original: seq<int>, target: int, x: seq<bool>, sum: int)
    requires |x| <= |original|
    ensures InExcludeFirstOrder(Matching(original, target, x, sum))
    decreases |original| - |x|
  {
    if |x| < |original| {
      MatchingOrdered(original, target, x + [false], sum);
      MatchingOrdered(original, target, x + [true], sum + original[|x|]);
      MatchingShape(original, target, x + [false], sum);
      MatchingShape(original, target, x + [true], sum + original[|x|]);
      MatchingUnfold(original, target, x, sum);
      OrderedJoin(x, |original|, Matching(original, target, x + [false], sum),
        Matching(original, target, x + [true], sum + original[|x|]));
    }
  }

  /** Two ordered lists, the first extending x + [false] and the second x + [true],
      are ordered together. */
  lemma OrderedJoin(x: seq<bool>, n: nat, a: seq<seq<bool>>, b: seq<seq<bool>>)
    requires InExcludeFirstOrder(a) && InExcludeFirstOrder(b)
    requires forall w :: w in a ==> |w| == n && x + [false] <= w
    requires forall w :: w in b ==> |w| == n && x + [true] <= w
    ensures InExcludeFirstOrder(a + b)
  {
    var r := a + b;
    forall p, q | 0 <= p < q < |r| ensures ExcludeFirst(r[p], r[q]) {
      if q < |a| {
        assert r[p] == a[p] && r[q] == a[q];
      } else if p >= |a| {
        assert r[p] == b[p - |a|] && r[q] == b[q - |a|];
      } else {
        assert r[p] == a[p] && a[p] in a;
        assert r[q] == b[q - |a|] && b[q - |a|] in b;
        SplitIsExcludeFirst(x, a[p], b[q - |a|]);
      }
    }
  }

  /** A vector that excludes index |x| comes before one that includes it, when both extend x. */
  lemma SplitIsExcludeFirst(x: seq<bool>, u: seq<bool>, v: seq<bool>)
    requires x + [false] <= u && x + [true] <= v
    ensures ExcludeFirst(u, v)
  {
    var k := |x|;
    assert u[..k] == (x + [false])[..k] == x;
    assert v[..k] == (x + [true])[..k] == x;
    assert !u[k] && v[k];
  }

  /** Vectors in exclude-before-include order are pairwise distinct. */
  lemma ExcludeFirstDistinct(a: seq<bool>, b: seq<bool>)
    requires ExcludeFirst(a, b)
    ensures a != b
  {
    var k :| 0 <= k < |a| && k < |b| && a[..k] == b[..k] && !a[k] && b[k];
  }

  /** A branch whose selection already exceeds the target holds no match when no
      element is negative: the "partial > target" prune loses nothing. */
  lemma {:induction false} OverTargetHasNoMatch(original: seq<int>, target: int, x: seq<bool>, sum: int)
    requires |x| <= |original| && NonNegative(original)
    requires sum > target
    ensures Matching(original, target, x, sum) == []
    decreases |original| - |x|
  {
    if |x| < |original| {
      OverTargetHasNoMatch(original, target, x + [false], sum);
      OverTargetHasNoMatch(original, target, x + [true], sum + original[|x|]);
    }
  }

  /** A branch that cannot reach the target even by taking every remaining element holds
      no match when no element is negative: the "partial + total < target" prune loses nothing. */
  lemma {:induction false} UnderTargetHasNoMatch(original: seq<int>, target: int, x: seq<bool>, sum: int)
    requires |x| <= |original| && NonNegative(original)
    requires sum + Sum(original[|x|..]) < target
    ensures Matching(original, target, x, sum) == []
    decreases |original| - |x|
  {
    if |x| < |original| {
      RemainingStep(original, |x|);
      UnderTargetHasNoMatch(original, target, x + [false], sum);
      UnderTargetHasNoMatch(original, target, x + [true], sum + original[|x|]);
    } else {
      assert original[|x|..] == [];
    }
  }

  /** With strictly positive elements, a prefix that already reaches the target has
      exactly one match: itself completed with "exclude". This is why the search may
      stop at the accept step. */
  lemma {:induction false} ReachedHasOneMatch(original: seq<int>, target: int, x: seq<bool>)
    requires |x| <= |original| && Positive(original)
    ensures Matching(original, target, x, target) == [Pad(x, |original|)]
    decreases |original| - |x|
  {
    if |x| < |original| {
      ReachedHasOneMatch(original, target, x + [false]);
      OverTargetHasNoMatch(original, target, x + [true], target + original[|x|]);
      MatchingUnfold(original, target, x, target);
      PadExclude(x, |original|);
    } else {
      assert Pad(x, |original|) == x;
    }
  }

  /** Exact completeness and order, per branch: with strictly positive elements and the
      remaining sum as `total`, the prefixes the search records, completed with
      "exclude", are exactly the brute-force matches for the same `partial`, in the
      same order. */
  lemma {:induction false} AcceptedIsMatching(original: seq<int>, target: int, partial: int, total: int, x: seq<bool>)
    requires |x| <= |original| && Positive(original)
    requires total == Sum(original[|x|..])
    ensures Pads(Accepted(original, target, partial, total, x), |original|) == Matching(original, target, x, partial)
    decreases |original| - |x|, 1
  {
    if partial > target {
      assert Accepted(original, target, partial, total, x) == [];
      OverTargetHasNoMatch(original, target, x, partial);
    } else if partial + total < target {
      assert Accepted(original, target, partial, total, x) == [];
      UnderTargetHasNoMatch(original, target, x, partial);
    } else if partial == target {
      assert Accepted(original, target, partial, total, x) == [x];
      ReachedHasOneMatch(original, target, x);
    } else if |x| == |original| {
      // total is the sum of nothing, so one of the tests above has already fired
      assert false;
    } else {
      AcceptedIsMatchingBranch(original, target, partial, total, x);
    }
  }

  /** The branching case of AcceptedIsMatching: both searches split at index |x| alike. */
  lemma {:induction false} AcceptedIsMatchingBranch(original: seq<int>, target: int, partial: int, total: int, x: seq<bool>)
    requires |x| < |original| && Positive(original)
    requires total == Sum(original[|x|..])
    requires !(partial + total < target || partial > target) && partial != target
    ensures Pads(Accepted(original, target, partial, total, x), |original|) == Matching(original, target, x, partial)
    decreases |original| - |x|, 0
  {
    var n, i := |original|, |x|;
    RemainingStep(original, i);
    var a := Accepted(original, target, partial, total - original[i], x + [false]);
    var b := Accepted(original, target, partial + original[i], total - original[i], x + [true]);
    AcceptedUnfold(original, target, partial, total, x);
    AcceptedIsMatching(original, target, partial, total - original[i], x + [false]);
    AcceptedIsMatching(original, target, partial + original[i], total - original[i], x + [true]);
    PadsAppend(a, b, n);
    MatchingUnfold(original, target, x, partial);
  }

  /** The search as a whole, on strictly positive elements, records every index subset
      whose values sum to the target exactly once, in exclude-before-include order:
      its solutions are those of the brute-force enumeration, in the same order. */
  lemma SearchIsBruteForce(original: seq<int>, target: int)
    requires Positive(original)
    ensures Solutions(original, target) == BruteForce(original, target)
  {
    var acc := Accepted(original, target, 0, Sum(original), []);
    assert original[0..] == original;
    AcceptedIsMatching(original, target, 0, Sum(original), []);
    PicksPads(original, acc);
  }

  /** Exactly-once, stated on index subsets: a marker vector of full length occurs in the
      reference exactly once when its selection sums to target, and not at all otherwise. */
  lemma MatchingExactlyOnce(original: seq<int>, target: int, w: seq<bool>)
    requires |w| == |original|
    ensures Sum(Pick(original, w)) == target ==> multiset(Matching(original, target, [], 0))[w] == 1
    ensures Sum(Pick(original, w)) != target ==> w !in Matching(original, target, [], 0)
  {
    var m := Matching(original, target, [], 0);
    MatchingSound(original, target, [], 0);
    if Sum(Pick(original, w)) == target {
      MatchingComplete(original, target, [], 0, w);
      MatchingOrdered(original, target, [], 0);
      var p :| 0 <= p < |m| && m[p] == w;
      forall q | 0 <= q < |m| && q != p ensures m[q] != w {
        if q < p {
          ExcludeFirstDistinct(m[q], m[p]);
        } else {
          ExcludeFirstDistinct(m[p], m[q]);
        }
      }
      OccursOnce(m, p);
    }
  }

  /** A sequence element that no other position holds occurs once in its multiset. */
  lemma {:induction false} OccursOnce<T>(s: seq<T>, p: nat)
    requires p < |s|
    requires forall q :: 0 <= q < |s| && q != p ==> s[q] != s[p]
    ensures multiset(s)[s[p]] == 1
  {
    assert s == s[..p] + [s[p]] + s[p + 1..];
    assert s[p] !in s[..p];
    assert s[p] !in s[p + 1..];
  }

  /** Why strict positivity is needed: with a zero element, the early stop at the
      accept step loses the subset that adds the zero. For [1, 0, 2] and target 1
      the search records one solution while two index subsets ({0} and {0, 1}) sum to 1. */
  lemma ZeroElementLosesSubset()
    ensures var o := [1, 0, 2]; |Solutions(o, 1)| == 1 && |BruteForce(o, 1)| == 2
  {
    var o := [1, 0, 2];
    assert Sum(o) == 3;
    ZeroSearchRecords();
    ZeroReferenceLists();
    assert Solutions(o, 1) == Picks(o, [[true]]);
    assert BruteForce(o, 1) == Picks(o, [[true, false, false], [true, true, false]]);
  }

  lemma ZeroSearchRecords()
    ensures Accepted([1, 0, 2], 1, 0, 3, []) == [[true]]
  {
    var o := [1, 0, 2];
    assert Accepted(o, 1, 0, 2, [false, false]) == [];
    assert Accepted(o, 1, 0, 2, [false, true]) == [];
    assert Accepted(o, 1, 0, 2, [false]) == [];
    assert Accepted(o, 1, 1, 2, [true]) == [[true]];
    AcceptedUnfold(o, 1, 0, 3, []);
    assert [] + [false] == [false] && [] + [true] == [true];
    assert [] + [[true]] == [[true]];
  }

  lemma ZeroReferenceLists()
    ensures Matching([1, 0, 2], 1, [], 0) == [[true, false, false], [true, true, false]]
  {
    var o := [1, 0, 2];
    ZeroReferenceExcludeFirst();
    ZeroReferenceIncludeFirst();
    MatchingUnfold(o, 1, [], 0);
    assert [] + [false] == [false] && [] + [true] == [true];
  }

  lemma ZeroReferenceExcludeFirst()
    ensures Matching([1, 0, 2], 1, [false], 0) == []
  {
    var o := [1, 0, 2];
    assert Matching(o, 1, [false, false], 0) == [];
    assert Matching(o, 1, [false, true], 0) == [];
  }

  lemma ZeroReferenceIncludeFirst()
    ensures Matching([1, 0, 2], 1, [true], 1) == [[true, false, false], [true, true, false]]
  {
    var o := [1, 0, 2];
    MatchingUnfold(o, 1, [true, false], 1);
    assert [true, false] + [false] == [true, false, false];
    assert Matching(o, 1, [true, false], 1) == [[true, false, false]];
    MatchingUnfold(o, 1, [true, true], 1);
    assert [true, true] + [false] == [true, true, false];
    assert Matching(o, 1, [true, true], 1) == [[true, true, false]];
    MatchingUnfold(o, 1, [true], 1);
    assert [true] + [false] == [true, false] && [true] + [true] == [true, true];
  }

  /** Why the elements must not be negative either: a later negative value can bring an
      overshooting or undershooting partial sum back to the target, but the prunes cut
      the branch first. For [2, -1] and target 1 the search records nothing while the
      subset {0, 1} sums to 1. */
  lemma NegativeElementLosesSubset()
    ensures var o := [2, -1]; Solutions(o, 1) == [] && |BruteForce(o, 1)| > 0
  {
    var o := [2, -1];
    assert Sum(o) == 1;
    AcceptedUnfold(o, 1, 0, 1, []);
    assert [] + [false] == [false] && [] + [true] == [true];
    assert Accepted(o, 1, 0, -1, [false]) == [];
    assert Accepted(o, 1, 2, -1, [true]) == [];
    var w := [true, true];
    assert Pick(o, w) == [2, -1] by {
      assert w[..1] == [true];
      assert Pick(o, [true]) == [2] by { assert [true][..0] == []; }
    }
    MatchingComplete(o, 1, [], 0, w);
  }
}
