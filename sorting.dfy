/** Putting the candidate integers in the order the search visits them. Most ports
    sort descending so that large values are tried first and the prunes fire early:
    C with a hand-written bubble sort, Java with an ascending library sort followed
    by a reversing swap loop, the others with a library sort whose only relevant
    property is its result. Go, Kotlin and PHP keep the order they were given. */
module Sorting {

  datatype Order = Ascending | Descending

  predicate InOrder(a: int, b: int, o: Order)
  {
    if o == Ascending then a <= b else a >= b
  }

  predicate Ordered(s: seq<int>, o: Order)
  {
    forall p, q :: 0 <= p < q < |s| ==> InOrder(s[p], s[q], o)
  }

  /** Insert v in front of the first element it may precede. */
  function Insert(v: int, s: seq<int>, o: Order): (r: seq<int>)
    ensures |r| == |s| + 1
  {
    if s == [] || InOrder(v, s[0], o) then [v] + s
    else [s[0]] + Insert(v, s[1..], o)
  }

  /** The reference sort (insertion sort): the one result any sort in order o can have. */
  function Sort(s: seq<int>, o: Order): (r: seq<int>)
    ensures |r| == |s|
  {
    if s == [] then [] else Insert(s[0], Sort(s[1..], o), o)
  }

  lemma {:induction false} InsertPermutes(v: int, s: seq<int>, o: Order)
    ensures multiset(Insert(v, s, o)) == multiset(s) + multiset{v}
  {
    if s != [] && !InOrder(v, s[0], o) {
      InsertPermutes(v, s[1..], o);
      assert s == [s[0]] + s[1..];
    }
  }

  lemma {:induction false} InsertOrdered(v: int, s: seq<int>, o: Order)
    requires Ordered(s, o)
    ensures Ordered(Insert(v, s, o), o)
  {
    if s != [] && !InOrder(v, s[0], o) {
      InsertOrdered(v, s[1..], o);
      var r := Insert(v, s, o);
      var t := Insert(v, s[1..], o);
      InsertPermutes(v, s[1..], o);
      forall q | 0 < q < |r| ensures InOrder(r[0], r[q], o) {
        assert r[q] == t[q - 1];
        assert r[q] in multiset(t);
        assert r[q] in multiset(s[1..]) + multiset{v};
        if r[q] != v {
          assert r[q] in s[1..];
        }
      }
    }
  }

  /** The reference sort returns its input in order o. */
  lemma {:induction false} SortOrdered(s: seq<int>, o: Order)
    ensures Ordered(Sort(s, o), o)
  {
    if s != [] {
      SortOrdered(s[1..], o);
      InsertOrdered(s[0], Sort(s[1..], o), o);
    }
  }

  /** The reference sort is a permutation of its input. */
  lemma {:induction false} SortPermutes(s: seq<int>, o: Order)
    ensures multiset(Sort(s, o)) == multiset(s)
  {
    if s != [] {
      SortPermutes(s[1..], o);
      InsertPermutes(s[0], Sort(s[1..], o), o);
      assert s == [s[0]] + s[1..];
    }
  }

  /** Two sequences in the same order holding the same multiset are equal: every
      correct sort returns the same sequence, whatever the algorithm. */
  lemma {:induction false} OrderedUnique(s: seq<int>, t: seq<int>, o: Order)
    requires Ordered(s, o) && Ordered(t, o)
    requires multiset(s) == multiset(t)
    ensures s == t
    decreases |s|
  {
    if s != [] {
      assert |t| == |multiset(t)| == |multiset(s)| == |s|;
      SameHead(s, t, o);
      TailsPermute(s, t);
      OrderedUnique(s[1..], t[1..], o);
    }
  }

  /** Two non-empty sequences in order o with the same multiset start alike. */
  lemma SameHead(s: seq<int>, t: seq<int>, o: Order)
    requires Ordered(s, o) && Ordered(t, o)
    requires multiset(s) == multiset(t) && s != [] && t != []
    ensures s[0] == t[0]
  {
    assert s[0] in multiset(t);
    assert t[0] in multiset(s);
    var p :| 0 <= p < |t| && t[p] == s[0];
    var q :| 0 <= q < |s| && s[q] == t[0];
    assert InOrder(t[0], t[p], o) || p == 0;
    assert InOrder(s[0], s[q], o) || q == 0;
  }

  /** Removing the same head from two permutations of each other leaves permutations. */
  lemma TailsPermute(s: seq<int>, t: seq<int>)
    requires multiset(s) == multiset(t) && s != [] && t != [] && s[0] == t[0]
    ensures multiset(s[1..]) == multiset(t[1..])
  {
    assert s == [s[0]] + s[1..] && t == [t[0]] + t[1..];
    assert multiset(s[1..]) == multiset(s) - multiset{s[0]};
    assert multiset(t[1..]) == multiset(t) - multiset{t[0]};
  }

  /** Any sequence in order o that permutes s is the reference sort of s. */
  lemma SortedIsSort(s: seq<int>, r: seq<int>, o: Order)
    requires Ordered(r, o) && multiset(r) == multiset(s)
    ensures r == Sort(s, o)
  {
    SortOrdered(s, o);
    SortPermutes(s, o);
    OrderedUnique(r, Sort(s, o), o);
  }

  function Flip(o: Order): (r: Order)
  {
    if o == Ascending then Descending else Ascending
  }

  function Reversed<T>(s: seq<T>): (r: seq<T>)
    ensures |r| == |s|
  {
    seq(|s|, k requires 0 <= k < |s| => s[|s| - 1 - k])
  }

  lemma {:induction false} ReversedPermutes<T>(s: seq<T>)
    ensures multiset(Reversed(s)) == multiset(s)
  {
    if s != [] {
      ReversedPermutes(s[1..]);
      assert Reversed(s) == Reversed(s[1..]) + [s[0]];
      assert s == [s[0]] + s[1..];
    }
  }

  /** Reversing a sequence in one order puts it in the other. */
  lemma ReversedFlips(s: seq<int>, o: Order)
    requires Ordered(s, o)
    ensures Ordered(Reversed(s), Flip(o))
  {
    var r := Reversed(s);
    forall p, q | 0 <= p < q < |r| ensures InOrder(r[p], r[q], Flip(o)) {
      assert InOrder(s[|s| - 1 - q], s[|s| - 1 - p], o);
    }
  }

  /** Java's arrangement: an ascending sort, reversed, is the descending sort. */
  lemma AscendingReversedIsDescending(s: seq<int>)
    ensures Reversed(Sort(s, Ascending)) == Sort(s, Descending)
  {
    var up := Sort(s, Ascending);
    SortOrdered(s, Ascending);
    SortPermutes(s, Ascending);
    ReversedFlips(up, Ascending);
    ReversedPermutes(up);
    SortedIsSort(s, Reversed(up), Descending);
  }

  /** Java's swap loop: original[i] and original[n-1-i] exchanged for every i < n/2. */
  method ReverseInPlace(a: array<int>)
    modifies a
    ensures a[..] == Reversed(old(a[..]))
  {
    var n := a.Length;
    var i := 0;
    while i < n / 2
      invariant i <= n / 2
      invariant forall k :: 0 <= k < i ==> a[k] == old(a[n - 1 - k]) && a[n - 1 - k] == old(a[k])
      invariant forall k :: i <= k < n - i ==> a[k] == old(a[k])
    {
      var temp := a[i];
      a[i] := a[n - 1 - i];
      a[n - 1 - i] := temp;
      i := i + 1;
    }
  }

  /** C's bubble sort, for either order: pass after pass, neighbours out of order are
      swapped (for Descending, exactly when `original[j] < original[j + 1]`), so each
      pass carries the last element in order o to the end of the unsorted prefix. */
  method BubbleSort(a: array<int>, o: Order)
    modifies a
    ensures Ordered(a[..], o)
    ensures multiset(a[..]) == multiset(old(a[..]))
  {
    var n := a.Length;
    var i := 0;
    while i + 1 < n
      invariant i <= n
      invariant multiset(a[..]) == multiset(old(a[..]))
      invariant forall p, q :: n - i <= p < q < n ==> InOrder(a[p], a[q], o)
      invariant forall p, q :: 0 <= p < n - i <= q < n ==> InOrder(a[p], a[q], o)
    {
      ghost var before := a[..];
      BubblePass(a, n - i, o);
      SeparationKept(before, a[..], n - i, o);
      i := i + 1;
    }
  }

  /** Permuting the front of a sequence keeps every front element in order before
      every back element. */
  lemma SeparationKept(before: seq<int>, after: seq<int>, end: nat, o: Order)
    requires end <= |before| == |after|
    requires multiset(after[..end]) == multiset(before[..end]) && after[end..] == before[end..]
    requires forall p, q :: 0 <= p < end <= q < |before| ==> InOrder(before[p], before[q], o)
    ensures forall p, q :: 0 <= p < end <= q < |after| ==> InOrder(after[p], after[q], o)
  {
    forall p, q | 0 <= p < end <= q < |after| ensures InOrder(after[p], after[q], o) {
      assert after[p] in multiset(after[..end]);
      assert after[p] in before[..end];
      var p' :| 0 <= p' < end && before[p'] == after[p];
      assert after[q] == after[end..][q - end] == before[q];
    }
  }

  /** One pass over a[..end]: afterwards a[end - 1] may follow every element before it;
      nothing at or after `end` moves. */
  method BubblePass(a: array<int>, end: nat, o: Order)
    requires 2 <= end <= a.Length
    modifies a
    ensures multiset(a[..]) == multiset(old(a[..]))
    ensures a[end..] == old(a[end..])
    ensures multiset(a[..end]) == multiset(old(a[..end]))
    ensures forall p :: 0 <= p < end ==> InOrder(a[p], a[end - 1], o)
  {
    var j := 0;
    while j + 1 < end
      invariant j < end
      invariant multiset(a[..]) == multiset(old(a[..]))
      invariant a[end..] == old(a[end..])
      invariant forall p :: 0 <= p <= j ==> InOrder(a[p], a[j], o)
    {
      if !InOrder(a[j], a[j + 1], o) {
        ghost var before := a[..];
        a[j], a[j + 1] := a[j + 1], a[j];
        assert a[..] == before[j := before[j + 1]][j + 1 := before[j]];
        SwapKeeps(before, a[..], j, end);
      }
      j := j + 1;
    }
    FrontPermuted(old(a[..]), a[..], end);
  }

  /** Swapping two neighbours in front of `end` permutes the sequence and keeps what
      lies from `end` on. */
  lemma SwapKeeps(s: seq<int>, t: seq<int>, j: nat, end: nat)
    requires j + 1 < end <= |s| && t == s[j := s[j + 1]][j + 1 := s[j]]
    ensures multiset(t) == multiset(s) && t[end..] == s[end..]
  {
  }

  /** When only the front of a sequence was permuted, the front is a permutation. */
  lemma FrontPermuted(before: seq<int>, after: seq<int>, end: nat)
    requires end <= |before| && end <= |after|
    requires multiset(after) == multiset(before) && after[end..] == before[end..]
    ensures multiset(after[..end]) == multiset(before[..end])
  {
    assert after == after[..end] + after[end..];
    assert before == before[..end] + before[end..];
    assert multiset(after[..end]) == multiset(after) - multiset(after[end..]);
    assert multiset(before[..end]) == multiset(before) - multiset(before[end..]);
  }

  /** The bubble sort leaves exactly the reference sort of its input. */
  method BubbleSortIsSort(a: array<int>, o: Order)
    modifies a
    ensures a[..] == Sort(old(a[..]), o)
  {
    BubbleSort(a, o);
    SortedIsSort(old(a[..]), a[..], o);
  }
}
