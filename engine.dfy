/** The branch-and-prune search as the ports run it: a solver object holding the
    candidate integers, the target and the growing list of solutions, and the
    recursive `bp` that mutates a shared marker array.

    The ten ports differ here in two ways only, both fixed when a solver is made:
    - whether the accept step stops storing at 10,000,000 solutions (`limit`);
    - whether the accept step collects over the indices below the current depth
      or over the whole marker array (`collect`). */
module Engine {
  import opened Sums
  import opened Selection
  import opened Enumeration

  /** The cap of the C, C++, Java, Python and JavaScript ports. */
  const MaxSolutions: nat := 10000000

  datatype Limit = Unlimited | AtMost(max: nat)

  /** Which markers the accept step reads: `for k < i` (C, C++, Java, JavaScript,
      Kotlin, Python) or every index of x (TypeScript's `filter`, Go's `range x`,
      PHP's `foreach ($x ...)`). */
  datatype Collect = UpToDepth | WholeMarker

  function Min(a: int, b: int): (r: int)
  {
    if a <= b then a else b
  }

  /** What the accept steps store when they offer `found`, one after the other, to a
      list already holding `have` solutions: each is pushed only while fewer than the
      cap are stored. */
  function Admit<T>(limit: Limit, have: nat, found: seq<T>): (r: seq<T>)
    decreases |found|
  {
    if found == [] then []
    else if limit.AtMost? && have >= limit.max then []
    else [found[0]] + Admit(limit, have + 1, found[1..])
  }

  /** Without a cap, everything offered is stored. */
  lemma {:induction false} AdmitUnlimited<T>(have: nat, found: seq<T>)
    ensures Admit(Unlimited, have, found) == found
    decreases |found|
  {
    if found != [] {
      AdmitUnlimited(have + 1, found[1..]);
    }
  }

  /** Under a cap, as many are stored as fit below it, in the order offered: the
      stored solutions are a prefix of the offered ones. */
  lemma {:induction false} AdmitCount<T>(max: nat, have: nat, found: seq<T>)
    ensures var r := Admit(AtMost(max), have, found);
      |r| == (if have >= max then 0 else Min(|found|, max - have)) && r <= found
    decreases |found|
  {
    if found != [] && have < max {
      AdmitCount(max, have + 1, found[1..]);
    }
  }

  /** Offering two batches in turn stores what offering them together would. */
  lemma {:induction false} AdmitAppend<T>(limit: Limit, have: nat, a: seq<T>, b: seq<T>)
    ensures Admit(limit, have, a + b) == Admit(limit, have, a) + Admit(limit, have + |Admit(limit, have, a)|, b)
    decreases |a|
  {
    if a == [] {
      assert a + b == b;
    } else if limit.AtMost? && have >= limit.max {
      if b != [] {
        assert (a + b)[0] == a[0];
      }
    } else {
      assert (a + b)[0] == a[0];
      assert (a + b)[1..] == a[1..] + b;
      AdmitAppend(limit, have + 1, a[1..], b);
    }
  }

  /** Under a cap, a list that starts within the cap stays within it. */
  lemma AdmitWithinCap<T>(max: nat, have: nat, found: seq<T>)
    requires have <= max
    ensures have + |Admit(AtMost(max), have, found)| <= max
  {
    AdmitCount(max, have, found);
  }

  /** The solutions of a branching call are those of its exclude child followed by
      those of its include child, capped as one batch. */
  lemma BranchStores(limit: Limit, o: seq<int>, target: int, partial: int, total: int, prefix: seq<bool>,
                     s0: seq<seq<int>>, s1: seq<seq<int>>, s2: seq<seq<int>>)
    requires |prefix| < |o|
    requires !(partial + total < target || partial > target) && partial != target
    requires s1 == s0 + Admit(limit, |s0|, Picks(o, Accepted(o, target, partial, total - o[|prefix|], prefix + [false])))
    requires s2 == s1 + Admit(limit, |s1|, Picks(o, Accepted(o, target, partial + o[|prefix|], total - o[|prefix|], prefix + [true])))
    ensures s2 == s0 + Admit(limit, |s0|, Picks(o, Accepted(o, target, partial, total, prefix)))
  {
    var i := |prefix|;
    var a := Accepted(o, target, partial, total - o[i], prefix + [false]);
    var b := Accepted(o, target, partial + o[i], total - o[i], prefix + [true]);
    AcceptedUnfold(o, target, partial, total, prefix);
    PicksAppend(o, a, b);
    AdmitTwice(limit, s0, s1, s2, Picks(o, a), Picks(o, b));
  }

  /** Two accept batches in a row store what the two batches offered as one would. */
  lemma AdmitTwice<T>(limit: Limit, s0: seq<T>, s1: seq<T>, s2: seq<T>, a: seq<T>, b: seq<T>)
    requires s1 == s0 + Admit(limit, |s0|, a)
    requires s2 == s1 + Admit(limit, |s1|, b)
    ensures s2 == s0 + Admit(limit, |s0|, a + b)
  {
    AppendTwice(s0, s1, s2, Admit(limit, |s0|, a), Admit(limit, |s1|, b));
    AdmitAppendAt(limit, |s0|, |s1|, a, b);
  }

  lemma AdmitAppendAt<T>(limit: Limit, have: nat, have': nat, a: seq<T>, b: seq<T>)
    requires have' == have + |Admit(limit, have, a)|
    ensures Admit(limit, have, a + b) == Admit(limit, have, a) + Admit(limit, have', b)
  {
    AdmitAppend(limit, have, a, b);
  }

  lemma AppendTwice<T>(s0: seq<T>, s1: seq<T>, s2: seq<T>, da: seq<T>, db: seq<T>)
    requires s1 == s0 + da && s2 == s1 + db
    ensures s2 == s0 + (da + db) && |s1| == |s0| + |da|
  {
  }

  class Solver {
    const original: array<int>
    const target: int
    const limit: Limit
    const collect: Collect
    var solutions: seq<seq<int>>

    /** A solver over the given integers, in the order the search will visit them,
        with no solution stored yet. */
    constructor(original: array<int>, target: int, limit: Limit, collect: Collect)
      ensures this.original == original && this.target == target
      ensures this.limit == limit && this.collect == collect
      ensures solutions == []
    {
      this.original := original;
      this.target := target;
      this.limit := limit;
      this.collect := collect;
      solutions := [];
    }

    /** The accept step's loop: original[k] for every k < upTo whose marker is set, in
        index order. */
    method Select(x: array<bool>, upTo: nat) returns (sol: seq<int>)
      requires upTo <= x.Length
      ensures sol == Pick(original[..], x[..upTo])
    {
      sol := [];
      var k := 0;
      while k < upTo
        invariant k <= upTo
        invariant sol == Pick(original[..], x[..k])
      {
        assert x[..k + 1][..k] == x[..k];
        if x[k] && k < original.Length {
          sol := sol + [original[k]];
        }
        k := k + 1;
      }
    }

    /** The accept step at depth i: unless the cap is reached, push the values x selects. */
    method Accept(i: nat, x: array<bool>)
      requires i <= original.Length == x.Length
      requires forall k :: i <= k < x.Length ==> !x[k]
      modifies this`solutions
      ensures solutions == old(solutions) + Admit(limit, |old(solutions)|, [Pick(original[..], x[..i])])
    {
      if limit.AtMost? && |solutions| >= limit.max {
        return;
      }
      var sol := Select(x, if collect == UpToDepth then i else x.Length);
      PickIgnoresFalseTail(original[..], x[..], i);
      assert x[..][..i] == x[..i] && x[..x.Length] == x[..];
      solutions := solutions + [sol];
    }

    /** The recursive search at depth i. x[..i] holds the decisions taken so far and
        x[i..] is all false; `partial` and `total` are the running sums the caller
        passes down. It appends what the specification `Accepted` lists for these
        arguments, as values, subject to the cap, and hands x back as it found it. */
    method Bp(i: nat, partial: int, total: int, x: array<bool>)
      requires i <= original.Length == x.Length
      requires forall k :: i <= k < x.Length ==> !x[k]
      modifies this`solutions, x
      ensures x[..] == old(x[..])
      ensures solutions == old(solutions)
        + Admit(limit, |old(solutions)|, Picks(original[..], Accepted(original[..], target, partial, total, old(x[..i]))))
      decreases original.Length - i, 2
    {
      if partial + total < target || partial > target {
        return;
      }
      if partial == target {
        Accept(i, x);
        return;
      }
      if i == original.Length {
        return;
      }
      Branch(i, partial, total, x);
    }

    /** The branching step of `bp` at depth i < n: exclude original[i], then include
        it, then reset its marker. */
    method Branch(i: nat, partial: int, total: int, x: array<bool>)
      requires i < original.Length == x.Length
      requires forall k :: i <= k < x.Length ==> !x[k]
      requires !(partial + total < target || partial > target) && partial != target
      modifies this`solutions, x
      ensures x[..] == old(x[..])
      ensures solutions == old(solutions)
        + Admit(limit, |old(solutions)|, Picks(original[..], Accepted(original[..], target, partial, total, old(x[..i]))))
      decreases original.Length - i, 1
    {
      ghost var o, prefix, s0 := original[..], x[..i], solutions;
      var rest := total - original[i];
      Descend(i, false, partial, rest, x);
      assert original[..] == o;
      ghost var s1 := solutions;
      Descend(i, true, partial + original[i], rest, x);
      assert original[..] == o;
      x[i] := false;
      assert x[..] == old(x[..]) by {
        assert !old(x[i]);
      }
      BranchStores(limit, o, target, partial, total, prefix, s0, s1, solutions);
    }

    /** Set the marker of index i to b and search from depth i + 1. */
    method Descend(i: nat, b: bool, partial: int, total: int, x: array<bool>)
      requires i < original.Length == x.Length
      requires forall k :: i <= k < x.Length ==> !x[k]
      modifies this`solutions, x
      ensures x[..] == old(x[..])[i := b]
      ensures solutions == old(solutions)
        + Admit(limit, |old(solutions)|, Picks(original[..], Accepted(original[..], target, partial, total, old(x[..i]) + [b])))
      decreases original.Length - i, 0
    {
      x[i] := b;
      assert x[..i + 1] == old(x[..i]) + [b];
      Bp(i + 1, partial, total, x);
    }

    /** `bp()` / `runBP()` / `run_bp`: a fresh all-false marker array, `total` the sum of
        all elements, and the search from depth 0. What it stores is the whole search's
        solutions, and with strictly positive elements exactly the brute-force ones. */
    method Run()
      modifies this`solutions
      ensures solutions == old(solutions) + Admit(limit, |old(solutions)|, Solutions(original[..], target))
      ensures Positive(original[..]) ==>
        solutions == old(solutions) + Admit(limit, |old(solutions)|, BruteForce(original[..], target))
    {
      var x := new bool[original.Length](_ => false);
      var total := TotalSum(original);
      Bp(0, 0, total, x);
      assert x[..0] == [];
      if Positive(original[..]) {
        SearchIsBruteForce(original[..], target);
      }
    }

    /** Java's `bp()`: the same, with `totalSum` seeding its accumulator with
        original[0], which both Java constructors make sure exists. */
    method RunSeeded()
      requires original.Length > 0
      modifies this`solutions
      ensures solutions == old(solutions) + Admit(limit, |old(solutions)|, Solutions(original[..], target))
    {
      var x := new bool[original.Length](_ => false);
      var total := TotalSumFromFirst(original);
      Bp(0, 0, total, x);
      assert x[..0] == [];
    }
  }
}
