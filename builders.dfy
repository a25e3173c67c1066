/** The random instance builders (`createRandom`, `SSP(int)`, `create_ssp`,
    `NewSSPRandom`, ...) and the final arrangement every builder applies.

    A random instance of size n holds the values 1..n; `target` starts at 1 and each
    value i + 1 (for 1 <= i < n) is added to it when its coin comes up. The coins are
    an input here: coins[i - 1] is the flip made for index i. */
module Builders {
  import opened Instances
  import opened Sums
  import opened Selection
  import opened Enumeration
  import opened Sorting

  /** How a port rejects small sizes: Python, Java, C++ and C first reject n <= 0
      ("nonpositive") and then n <= 2 ("too small"); the other ports reject n <= 2
      with a single error. */
  datatype SizeCheck = SignThenSize | SizeOnly

  /** The order a builder leaves the elements in: as built or read (Go, Kotlin, PHP),
      sorted descending (a library sort, or C's bubble sort), or Java's ascending
      library sort followed by its reversing swap loop. */
  datatype Arrangement = AsGiven | SortedDescending | AscendingThenReversed

  /** The elements a builder ends with. Both sorting arrangements give the descending
      sort; `Arrange` proves it for each. */
  function Arranged(s: seq<int>, how: Arrangement): (r: seq<int>)
  {
    if how == AsGiven then s else Sort(s, Descending)
  }

  /** Sort the elements in place as the builder does. The library sorts are stood in
      for by the bubble sort: any correct sort has the same result (`OrderedUnique`). */
  method Arrange(a: array<int>, how: Arrangement)
    modifies a
    ensures a[..] == Arranged(old(a[..]), how)
  {
    match how
    case AsGiven =>
    case SortedDescending =>
      BubbleSortIsSort(a, Descending);
    case AscendingThenReversed =>
      BubbleSortIsSort(a, Ascending);
      ReverseInPlace(a);
      AscendingReversedIsDescending(old(a[..]));
  }

  /** 1, 2, ..., n. */
  function Upto(n: nat): (r: seq<int>)
    ensures |r| == n
  {
    seq(n, k => k + 1)
  }

  /** The sum of the values whose coin came up: coin j belongs to the value j + 2. */
  function FlipSum(coins: seq<bool>): (r: int)
    decreases |coins|
  {
    if coins == [] then 0
    else FlipSum(coins[..|coins| - 1]) + (if coins[|coins| - 1] then |coins| + 1 else 0)
  }

  /** The random builder: the size checks of the port, then `original[0] = 1`,
      `original[i] = i + 1` with `target += original[i]` on a successful flip, then the
      port's arrangement. */
  method BuildRandom(n: int, coins: seq<bool>, check: SizeCheck, how: Arrangement) returns (r: Result<Instance, BuildError>)
    requires n <= 2 || n - 1 <= |coins|
    ensures n <= 0 && check == SignThenSize ==> r == Err(NonPositiveSize)
    ensures n <= 2 && !(n <= 0 && check == SignThenSize) ==> r == Err(SizeTooSmall)
    ensures n > 2 ==> r == Ok(Instance(Arranged(Upto(n), how), 1 + FlipSum(coins[..n - 1])))
  {
    if n <= 0 && check == SignThenSize {
      return Err(NonPositiveSize);
    }
    if n <= 2 {
      return Err(SizeTooSmall);
    }
    var original := new int[n];
    var target := 1;
    original[0] := 1;
    var i := 1;
    while i < n
      invariant 1 <= i <= n
      invariant original[..i] == Upto(i)
      invariant target == 1 + FlipSum(coins[..i - 1])
    {
      original[i] := i + 1;
      assert coins[..i] == coins[..i - 1] + [coins[i - 1]];
      assert coins[..i][..i - 1] == coins[..i - 1];
      if coins[i - 1] {
        target := target + original[i];
      }
      assert original[..i + 1] == Upto(i + 1);
      i := i + 1;
    }
    assert original[..] == original[..n];
    Arrange(original, how);
    return Ok(Instance(original[..], target));
  }

  /** The marker vector of the values that made up the target: index 0 (the value 1,
      with which `target` starts) and every index whose coin came up. */
  function Witness(coins: seq<bool>): (r: seq<bool>)
  {
    [true] + coins
  }

  /** The coins' witness selects values summing to the target the builder computed. */
  lemma {:induction false} WitnessReachesTarget(n: nat, coins: seq<bool>)
    requires 1 <= n && |coins| == n - 1
    ensures Sum(Pick(Upto(n), Witness(coins))) == 1 + FlipSum(coins)
    decreases n
  {
    if n == 1 {
      assert Witness(coins) == [true];
      assert Witness(coins)[..0] == [];
      assert Pick(Upto(n), [true]) == [1];
    } else {
      var c := coins[..n - 2];
      WitnessReachesTarget(n - 1, c);
      WitnessStep(n, c, coins[n - 2]);
      assert coins == c + [coins[n - 2]];
    }
  }

  /** One more coin adds its value, n, to both the witness's sum and the flip sum. */
  lemma WitnessStep(n: nat, c: seq<bool>, b: bool)
    requires 2 <= n && |c| == n - 2
    ensures Sum(Pick(Upto(n), Witness(c + [b]))) == Sum(Pick(Upto(n - 1), Witness(c))) + (if b then n else 0)
    ensures FlipSum(c + [b]) == FlipSum(c) + (if b then n else 0)
  {
    UptoPrefix(n);
    PickPrefix(Upto(n), Upto(n - 1), Witness(c));
    assert Witness(c + [b]) == Witness(c) + [b];
    PickSumStep(Upto(n), Witness(c), b);
    FlipSumStep(c, b);
  }

  lemma UptoPrefix(n: nat)
    requires 1 <= n
    ensures Upto(n)[..n - 1] == Upto(n - 1)
  {
  }

  lemma FlipSumStep(c: seq<bool>, b: bool)
    ensures FlipSum(c + [b]) == FlipSum(c) + (if b then |c| + 2 else 0)
  {
    assert (c + [b])[..|c|] == c;
  }

  /** Pick only reads the elements its markers cover. */
  lemma {:induction false} PickPrefix(o: seq<int>, p: seq<int>, w: seq<bool>)
    requires |w| <= |p| <= |o| && p == o[..|p|]
    ensures Pick(o, w) == Pick(p, w)
    decreases |w|
  {
    if w != [] {
      PickPrefix(o, p, w[..|w| - 1]);
    }
  }

  /** Pick on sequences extended at the front. */
  lemma {:induction false} PickFront(v: int, o: seq<int>, b: bool, w: seq<bool>)
    requires |w| <= |o|
    ensures Pick([v] + o, [b] + w) == (if b then [v] else []) + Pick(o, w)
    decreases |w|
  {
    if w == [] {
      assert ([b] + w)[..0] == [];
    } else {
      var w' := w[..|w| - 1];
      PickFront(v, o, b, w');
      assert ([b] + w)[..|w|] == [b] + w';
      assert ([v] + o)[|w|] == o[|w| - 1];
    }
  }

  lemma ReversedAppend<T>(a: seq<T>, b: seq<T>)
    ensures Reversed(a + b) == Reversed(b) + Reversed(a)
  {
  }

  /** Reversing both the elements and the markers reverses the selection. */
  lemma {:induction false} PickReversed(o: seq<int>, w: seq<bool>)
    requires |w| == |o|
    ensures Pick(Reversed(o), Reversed(w)) == Reversed(Pick(o, w))
    decreases |w|
  {
    if w != [] {
      var k := |w| - 1;
      var o', w' := o[..k], w[..k];
      PickReversed(o', w');
      assert Reversed(o) == [o[k]] + Reversed(o');
      assert Reversed(w) == [w[k]] + Reversed(w');
      PickFront(o[k], Reversed(o'), w[k], Reversed(w'));
      PickPrefix(o, o', w');
      ReversedAppend(Pick(o', w'), if w[k] then [o[k]] else []);
    }
  }

  lemma {:induction false} SumReversed(s: seq<int>)
    ensures Sum(Reversed(s)) == Sum(s)
  {
    if s != [] {
      SumReversed(s[1..]);
      assert Reversed(s) == Reversed(s[1..]) + [s[0]];
      SumAppend(Reversed(s[1..]), [s[0]]);
    }
  }

  /** The descending sort of 1..n is n, n-1, ..., 1. */
  lemma SortedUpto(n: nat)
    ensures Sort(Upto(n), Descending) == Reversed(Upto(n))
  {
    ReversedFlips(Upto(n), Ascending);
    ReversedPermutes(Upto(n));
    SortedIsSort(Upto(n), Reversed(Upto(n)), Descending);
  }

  /** Every random instance has a solution, in whatever order its builder leaves the
      values: the index subsets behind the target's coins sum to it. */
  lemma RandomHasSolution(n: nat, coins: seq<bool>, how: Arrangement)
    requires 1 <= n && |coins| == n - 1
    ensures exists w :: |w| == n && Sum(Pick(Arranged(Upto(n), how), w)) == 1 + FlipSum(coins)
  {
    WitnessReachesTarget(n, coins);
    var w := Witness(coins);
    if how == AsGiven {
      assert |w| == n && Sum(Pick(Arranged(Upto(n), how), w)) == 1 + FlipSum(coins);
    } else {
      SortedUpto(n);
      PickReversed(Upto(n), w);
      SumReversed(Pick(Upto(n), w));
      assert |Reversed(w)| == n && Sum(Pick(Arranged(Upto(n), how), Reversed(w))) == 1 + FlipSum(coins);
    }
  }

  /** The values of a random instance are strictly positive, so the search on it is
      exact (`SearchIsBruteForce`). */
  lemma RandomPositive(n: nat, how: Arrangement)
    ensures Positive(Arranged(Upto(n), how))
  {
    if how != AsGiven {
      SortedUpto(n);
    }
  }

  /** Hence the search finds at least one solution on every random instance. */
  lemma RandomSearchSucceeds(n: nat, coins: seq<bool>, how: Arrangement)
    requires 1 <= n && |coins| == n - 1
    ensures |Solutions(Arranged(Upto(n), how), 1 + FlipSum(coins))| > 0
  {
    var o, t := Arranged(Upto(n), how), 1 + FlipSum(coins);
    RandomHasSolution(n, coins, how);
    var w :| |w| == n && Sum(Pick(o, w)) == t;
    assert |o| == n by {
      if how != AsGiven {
        SortedUpto(n);
      }
    }
    MatchingComplete(o, t, [], 0, w);
    RandomPositive(n, how);
    SearchIsBruteForce(o, t);
  }
}
