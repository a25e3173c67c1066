/** The two small command-line helpers: how the solutions are reported, and whether
    an argument names a size (all digits) rather than a file. */
module Report {

  /** What `printSolutions` / `process_ssp` print after a run. */
  datatype Summary = Listing(solutions: seq<seq<int>>) | CountOnly(count: nat)

  /** Fewer than 10 solutions are listed one by one; from 10 on only their number is. */
  function Summarize(solutions: seq<seq<int>>): (r: Summary)
    ensures r.Listing? <==> |solutions| < 10
    ensures r.Listing? ==> r.solutions == solutions
    ensures r.CountOnly? ==> r.count == |solutions|
  {
    if |solutions| < 10 then Listing(solutions) else CountOnly(|solutions|)
  }

  predicate IsDigit(c: char)
  {
    '0' <= c <= '9'
  }

  predicate AllDigits(s: string)
  {
    forall k :: 0 <= k < |s| ==> IsDigit(s[k])
  }

  /** C++'s `isInteger`: false for the empty string, otherwise a scan that stops at the
      first character that is not a digit. A sign is not a digit, so "-5" is rejected. */
  method IsIntegerCpp(s: string) returns (b: bool)
    ensures b <==> s != [] && AllDigits(s)
  {
    if s == [] {
      return false;
    }
    var k := 0;
    while k < |s|
      invariant k <= |s|
      invariant AllDigits(s[..k])
    {
      if !IsDigit(s[k]) {
        return false;
      }
      assert s[..k + 1] == s[..k] + [s[k]];
      k := k + 1;
    }
    assert s[..k] == s;
    return true;
  }

  /** C's `is_integer`: the same scan up to the terminating NUL, with no emptiness test,
      so the empty string counts as an integer. */
  method IsIntegerC(s: string) returns (b: bool)
    ensures b <==> AllDigits(s)
  {
    var k := 0;
    while k < |s|
      invariant k <= |s|
      invariant AllDigits(s[..k])
    {
      if !IsDigit(s[k]) {
        return false;
      }
      assert s[..k + 1] == s[..k] + [s[k]];
      k := k + 1;
    }
    assert s[..k] == s;
    return true;
  }

  /** The two checks differ exactly on the empty string. */
  lemma IntegerChecksDiffer(s: string)
    ensures (s != [] && AllDigits(s)) != AllDigits(s) <==> s == []
  {
  }
}
