/** The ten ports as configurations of one model, and their end-to-end runs: build an
    instance (randomly or from a file), search it, keep what the port keeps. */
module Ports {
  import opened Instances
  import opened Sums
  import opened Selection
  import opened Enumeration
  import opened Engine
  import opened Builders
  import opened Parsing

  datatype Port =
    | TypeScript          // typescript/SSP.ts
    | CompiledTypeScript  // typescript/SSP.js
    | JavaScript          // javascript/SSP.js
    | Python              // python/ssp.py
    | Java                // java/SSP.java
    | Cpp                 // c++/SSP.cpp
    | C                   // c/SSP_optimised.c
    | Go                  // go/ssp.go
    | Kotlin              // kotlin/SSP.kt
    | Php                 // php/ssp.php

  /** The 10,000,000-solution cap is in the C, C++, Java, Python and JavaScript ports. */
  function LimitOf(p: Port): (r: Limit)
  {
    if p in {JavaScript, Python, Java, Cpp, C} then AtMost(MaxSolutions) else Unlimited
  }

  /** The TypeScript ports, Go and PHP filter the whole marker array. */
  function CollectOf(p: Port): (r: Collect)
  {
    if p in {TypeScript, CompiledTypeScript, Go, Php} then WholeMarker else UpToDepth
  }

  /** Python, Java, C++ and C test the sign of the size before its magnitude. */
  function SizeCheckOf(p: Port): (r: SizeCheck)
  {
    if p in {Python, Java, Cpp, C} then SignThenSize else SizeOnly
  }

  /** Go, Kotlin and PHP keep their elements as built or read; Java sorts ascending and
      reverses; the rest sort descending (C with its bubble sort). Both builders of a
      port arrange alike. */
  function ArrangementOf(p: Port): (r: Arrangement)
  {
    if p in {Go, Kotlin, Php} then AsGiven
    else if p == Java then AscendingThenReversed
    else SortedDescending
  }

  /** The file builder of each port, over the file's lines of tokens. The stream
      readers ignore the line structure. */
  function ParseFile(p: Port, lines: seq<seq<Token>>): (r: Result<Instance, BuildError>)
  {
    match p
    case TypeScript => ParseTsLines(lines)
    case CompiledTypeScript => ParseTsLines(lines)
    case JavaScript => ParseJsLines(lines)
    case Go => ParseGoLines(lines)
    case Php => Ok(ParsePhpLines(lines))
    case _ => Finish(ParseStream(Flatten(lines)), ArrangementOf(p))
  }

  /** The three-line layout the sample files use: size, target, then the elements. */
  function CanonicalFile(inst: Instance): (r: seq<seq<Token>>)
  {
    [[Num(|inst.elements|)], [Num(inst.target)], Nums(inst.elements)]
  }

  /** Every port reads a well-formed non-empty file as the same instance, up to the
      port's arrangement of the elements. */
  lemma EveryPortReadsCanonicalFile(p: Port, inst: Instance)
    requires |inst.elements| > 0
    ensures ParseFile(p, CanonicalFile(inst)) == Ok(Instance(Arranged(inst.elements, ArrangementOf(p)), inst.target))
  {
    var e, t := inst.elements, inst.target;
    var lines := CanonicalFile(inst);
    match p
    case TypeScript =>
      TsSlices(|e|, t, e, []);
      assert lines == [[Num(|e|)], [Num(t)], Nums(e)] + [];
    case CompiledTypeScript =>
      TsSlices(|e|, t, e, []);
      assert lines == [[Num(|e|)], [Num(t)], Nums(e)] + [];
    case JavaScript =>
      assert Flatten([Nums(e)]) == Nums(e) + [];
      JsJoinsLines(|e|, t, [Nums(e)], e, []);
      assert lines == [[Num(|e|)], [Num(t)]] + [Nums(e)];
    case Go =>
      GoDecodes(lines, inst);
    case Php =>
      PhpDecodes(inst, [], []);
      assert Nums(e) + [] == Nums(e);
      assert lines == [[Num(|e|)], [Num(t)], Nums(e) + []] + [];
    case _ =>
      FlattenCanonical(inst);
      StreamDecodes(Flatten(lines), inst);
  }

  /** The stream readers see the three lines as one encoded stream. */
  lemma FlattenCanonical(inst: Instance)
    ensures Flatten(CanonicalFile(inst)) == Encode(inst)
  {
    var l0, l1, l2 := [Num(|inst.elements|)], [Num(inst.target)], Nums(inst.elements);
    var lines := CanonicalFile(inst);
    assert lines[1..] == [l1, l2] && lines[1..][1..] == [l2] && [l2][1..] == [];
    assert Flatten([l2]) == l2 + [] == l2;
    assert Flatten([l1, l2]) == l1 + l2;
    assert Flatten(lines) == l0 + (l1 + l2);
    assert l0 + (l1 + l2) == [Num(|inst.elements|), Num(inst.target)] + l2;
  }

  /** A solver's array holding the given elements. */
  method ToArray(s: seq<int>) returns (a: array<int>)
    ensures fresh(a) && a[..] == s
  {
    a := new int[|s|](k => if 0 <= k < |s| then s[k] else 0);
  }

  /** Search an instance as port p does; Java's `totalSum` needs the non-empty array
      its builders guarantee. */
  method Search(p: Port, inst: Instance) returns (solutions: seq<seq<int>>)
    requires p == Java ==> |inst.elements| > 0
    ensures solutions == Admit(LimitOf(p), 0, Solutions(inst.elements, inst.target))
  {
    var original := ToArray(inst.elements);
    var solver := new Solver(original, inst.target, LimitOf(p), CollectOf(p));
    if p == Java {
      solver.RunSeeded();
    } else {
      solver.Run();
    }
    solutions := solver.solutions;
  }

  /** Build a random instance of size n with the given flips, then search it: the size
      checks of the port reject n <= 2, and on every larger n at least one solution
      is found. */
  method SolveRandom(p: Port, n: int, coins: seq<bool>) returns (r: Result<seq<seq<int>>, BuildError>)
    requires n <= 2 || n - 1 <= |coins|
    ensures n <= 2 <==> r.Err?
    ensures r.Ok? ==> |r.value| > 0
  {
    var built := BuildRandom(n, coins, SizeCheckOf(p), ArrangementOf(p));
    if built.Err? {
      return Err(built.error);
    }
    var inst := built.value;
    RandomSearchSucceeds(n, coins[..n - 1], ArrangementOf(p));
    var solutions := Search(p, inst);
    if LimitOf(p).AtMost? {
      AdmitCount(MaxSolutions, 0, Solutions(inst.elements, inst.target));
    } else {
      AdmitUnlimited(0, Solutions(inst.elements, inst.target));
    }
    return Ok(solutions);
  }

  /** Read a file as port p does, then search it. */
  method SolveFile(p: Port, lines: seq<seq<Token>>) returns (r: Result<seq<seq<int>>, BuildError>)
    ensures ParseFile(p, lines).Err? ==> r == Err(ParseFile(p, lines).error)
    ensures ParseFile(p, lines).Ok? ==>
      var inst := ParseFile(p, lines).value;
      r == Ok(Admit(LimitOf(p), 0, Solutions(inst.elements, inst.target)))
  {
    var built: Result<Instance, BuildError>;
    match p {
      case Go =>
        built := ReadGoLines(lines);
      case TypeScript =>
        built := ParseTsLines(lines);
      case CompiledTypeScript =>
        built := ParseTsLines(lines);
      case JavaScript =>
        built := ParseJsLines(lines);
      case Php =>
        built := Ok(ParsePhpLines(lines));
      case _ =>
        built := ReadStream(Flatten(lines), ArrangementOf(p));
    }
    if built.Err? {
      return Err(built.error);
    }
    var solutions := Search(p, built.value);
    return Ok(solutions);
  }
}
