/** The marker array `x` and the solution it selects. A marker prefix of length i
    records the decisions for indices 0..i-1; the accept step turns it into the
    values it selects, in index order. */
module Selection {
  import opened Sums

  /** The values original[k], k < |x|, whose marker x[k] is set, in index order:
      the accept step's `for k < i: if x[k] then push original[k]`. A marker past the
      end of `original` selects nothing (the search never sets one). */
  function Pick(original: seq<int>, x: seq<bool>): (r: seq<int>)
    ensures |r| <= |x|
    decreases |x|
  {
    if x == [] then []
    else
      var k := |x| - 1;
      Pick(original, x[..k]) + (if x[k] && k < |original| then [original[k]] else [])
  }

  /** Deciding one more index extends the selection by that value exactly when it is chosen. */
  lemma PickStep(original: seq<int>, x: seq<bool>, b: bool)
    requires |x| < |original|
    ensures Pick(original, x + [b]) == Pick(original, x) + (if b then [original[|x|]] else [])
  {
    assert (x + [b])[..|x|] == x;
  }

  /** The same step on the sum: `partial` grows by original[i] on the include branch only. */
  lemma PickSumStep(original: seq<int>, x: seq<bool>, b: bool)
    requires |x| < |original|
    ensures Sum(Pick(original, x + [b])) == Sum(Pick(original, x)) + (if b then original[|x|] else 0)
  {
    PickStep(original, x, b);
    SumAppend(Pick(original, x), if b then [original[|x|]] else []);
  }

  /** Markers that are all false past index i select nothing more: filtering over the
      whole marker array equals filtering over the indices below i. */
  lemma {:induction false} PickIgnoresFalseTail(original: seq<int>, x: seq<bool>, i: nat)
    requires i <= |x|
    requires forall k :: i <= k < |x| ==> !x[k]
    ensures Pick(original, x) == Pick(original, x[..i])
    decreases |x| - i
  {
    if |x| > i {
      var y := x[..|x| - 1];
      assert y[..i] == x[..i];
      PickIgnoresFalseTail(original, y, i);
    } else {
      assert x[..i] == x;
    }
  }

  /** k markers, all false. */
  function Falses(k: nat): (r: seq<bool>)
    ensures |r| == k
    ensures forall j :: 0 <= j < k ==> !r[j]
  {
    if k == 0 then [] else [false] + Falses(k - 1)
  }

  /** A marker prefix completed with false up to length n (a longer one is kept as is). */
  function Pad(w: seq<bool>, n: nat): (r: seq<bool>)
    ensures |r| == (if |w| < n then n else |w|)
    ensures r[..|w|] == w
  {
    if |w| < n then w + Falses(n - |w|) else w
  }

  /** Excluding one more index and then padding is the same as padding at once. */
  lemma PadExclude(w: seq<bool>, n: nat)
    requires |w| < n
    ensures Pad(w + [false], n) == Pad(w, n)
  {
    assert Falses(n - |w|) == [false] + Falses(n - |w| - 1);
    assert w + ([false] + Falses(n - |w| - 1)) == (w + [false]) + Falses(n - |w| - 1);
  }

  /** Completing a prefix with false markers does not change what it selects. */
  lemma PickPad(original: seq<int>, w: seq<bool>)
    ensures Pick(original, Pad(w, |original|)) == Pick(original, w)
  {
    var p := Pad(w, |original|);
    if |w| < |original| {
      assert forall k :: |w| <= k < |p| ==> !p[k];
      PickIgnoresFalseTail(original, p, |w|);
    }
  }

  /** The selections of a list of marker vectors, in order. */
  function Picks(original: seq<int>, ws: seq<seq<bool>>): (r: seq<seq<int>>)
    ensures |r| == |ws|
  {
    if ws == [] then [] else [Pick(original, ws[0])] + Picks(original, ws[1..])
  }

  /** Every selection in the list comes from one of the marker vectors. */
  lemma {:induction false} PicksMember(original: seq<int>, ws: seq<seq<bool>>, v: seq<int>)
    requires v in Picks(original, ws)
    ensures exists w :: w in ws && v == Pick(original, w)
  {
    if v != Pick(original, ws[0]) {
      PicksMember(original, ws[1..], v);
      var w :| w in ws[1..] && v == Pick(original, w);
      assert w in ws;
    }
  }

  lemma {:induction false} PicksAppend(original: seq<int>, a: seq<seq<bool>>, b: seq<seq<bool>>)
    ensures Picks(original, a + b) == Picks(original, a) + Picks(original, b)
  {
    if a == [] {
      assert a + b == b;
    } else {
      assert (a + b)[1..] == a[1..] + b;
      PicksAppend(original, a[1..], b);
    }
  }

  /** Each marker vector of a list completed with false up to length n. */
  function Pads(ws: seq<seq<bool>>, n: nat): (r: seq<seq<bool>>)
    ensures |r| == |ws|
  {
    if ws == [] then [] else [Pad(ws[0], n)] + Pads(ws[1..], n)
  }

  lemma {:induction false} PadsAppend(a: seq<seq<bool>>, b: seq<seq<bool>>, n: nat)
    ensures Pads(a + b, n) == Pads(a, n) + Pads(b, n)
  {
    if a == [] {
      assert a + b == b;
    } else {
      assert (a + b)[1..] == a[1..] + b;
      PadsAppend(a[1..], b, n);
    }
  }

  /** Padding every prefix of a list selects the same values, in the same order. */
  lemma {:induction false} PicksPads(original: seq<int>, ws: seq<seq<bool>>)
    ensures Picks(original, Pads(ws, |original|)) == Picks(original, ws)
  {
    if ws != [] {
      PickPad(original, ws[0]);
      PicksPads(original, ws[1..]);
    }
  }
}
