/** The file builders, over input already split into lines and whitespace-separated
    tokens. A token is either an integer or something that does not parse as one.

    Three reading disciplines occur:
    - a token stream (Python's `split()`, C++'s `>>`, C's `fscanf`, Java's and
      Kotlin's `Scanner`): size, then target, then `size` elements, wherever the line
      breaks fall;
    - line-oriented readers that check what they read (JavaScript, Go);
    - line-oriented readers that check nothing (TypeScript, PHP). */
module Parsing {
  import opened Instances
  import opened Sorting
  import opened Builders

  datatype Token = Num(value: int) | Junk

  predicate AllNumbers(ts: seq<Token>)
  {
    forall k :: 0 <= k < |ts| ==> ts[k].Num?
  }

  /** The integers of a run of integer tokens. */
  function ValuesOf(ts: seq<Token>): (r: seq<int>)
    requires AllNumbers(ts)
    ensures |r| == |ts|
  {
    seq(|ts|, k requires 0 <= k < |ts| => ts[k].value)
  }

  /** Integers written out as tokens. */
  function Nums(vs: seq<int>): (r: seq<Token>)
    ensures |r| == |vs| && AllNumbers(r)
  {
    seq(|vs|, k requires 0 <= k < |vs| => Num(vs[k]))
  }

  lemma ValuesOfNums(vs: seq<int>)
    ensures ValuesOf(Nums(vs)) == vs
  {
  }

  /** The tokens of consecutive lines, in order (JavaScript's `join(' ')` of lines). */
  function Flatten(lines: seq<seq<Token>>): (r: seq<Token>)
  {
    if lines == [] then [] else lines[0] + Flatten(lines[1..])
  }

  /** Flatten reads the lines front to back, so a line added at the end adds its tokens
      at the end. */
  lemma {:induction false} FlattenSnoc(lines: seq<seq<Token>>, line: seq<Token>)
    ensures Flatten(lines + [line]) == Flatten(lines) + line
    decreases |lines|
  {
    if lines == [] {
      assert [] + [line] == [line];
      assert [line][1..] == [];
    } else {
      FlattenSnoc(lines[1..], line);
      assert (lines + [line])[1..] == lines[1..] + [line];
    }
  }

  /** n empty lines. */
  function Blanks(n: nat): (r: seq<seq<Token>>)
    ensures |r| == n
  {
    seq(n, _ => [])
  }

  /** PHP's `FILE_SKIP_EMPTY_LINES`: the lines that are not empty, in order. */
  function NonBlank(lines: seq<seq<Token>>): (r: seq<seq<Token>>)
    decreases |lines|
  {
    if lines == [] then []
    else (if lines[0] == [] then [] else [lines[0]]) + NonBlank(lines[1..])
  }

  /** Skipping empty lines line by line: the kept lines of two files put together are
      those of the first followed by those of the second. */
  lemma {:induction false} NonBlankAppend(a: seq<seq<Token>>, b: seq<seq<Token>>)
    ensures NonBlank(a + b) == NonBlank(a) + NonBlank(b)
    decreases |a|
  {
    if a == [] {
      assert a + b == b;
    } else {
      NonBlankAppend(a[1..], b);
      assert (a + b)[0] == a[0];
      assert (a + b)[1..] == a[1..] + b;
    }
  }

  /** What NonBlank keeps: no empty line, and every token of the file in order. */
  lemma {:induction false} NonBlankKeepsTokens(lines: seq<seq<Token>>)
    ensures forall k :: 0 <= k < |NonBlank(lines)| ==> NonBlank(lines)[k] != []
    ensures Flatten(NonBlank(lines)) == Flatten(lines)
    decreases |lines|
  {
    if lines != [] {
      NonBlankKeepsTokens(lines[1..]);
      var head := if lines[0] == [] then [] else [lines[0]];
      assert NonBlank(lines) == head + NonBlank(lines[1..]);
      if lines[0] != [] {
        assert (head + NonBlank(lines[1..]))[1..] == NonBlank(lines[1..]);
      } else {
        assert head + NonBlank(lines[1..]) == NonBlank(lines[1..]);
      }
    }
  }

  /** The lines with the empty ones at the front removed. */
  function DropLeadingBlanks(lines: seq<seq<Token>>): (r: seq<seq<Token>>)
    decreases |lines|
  {
    if lines != [] && lines[0] == [] then DropLeadingBlanks(lines[1..]) else lines
  }

  /** The lines with the empty ones at the end removed. */
  function DropTrailingBlanks(lines: seq<seq<Token>>): (r: seq<seq<Token>>)
    decreases |lines|
  {
    if lines != [] && lines[|lines| - 1] == [] then DropTrailingBlanks(lines[..|lines| - 1]) else lines
  }

  /** `content.trim().split(/\r?\n/)`: the empty lines at both ends go, and a file
      without a single token splits into one empty line. */
  function TrimLines(lines: seq<seq<Token>>): (r: seq<seq<Token>>)
  {
    var t := DropTrailingBlanks(DropLeadingBlanks(lines));
    if t == [] then [[]] else t
  }

  /** Trimming keeps every token in order, and what it leaves starts and ends with a
      line that is not empty unless the file holds no token at all. */
  lemma TrimLinesKeepsTokens(lines: seq<seq<Token>>)
    ensures Flatten(TrimLines(lines)) == Flatten(lines)
    ensures TrimLines(lines) == [[]] || (TrimLines(lines)[0] != [] && TrimLines(lines)[|TrimLines(lines)| - 1] != [])
  {
    var d := DropLeadingBlanks(lines);
    DropLeadingKeepsTokens(lines);
    DropTrailingKeepsTokens(d);
    DropTrailingKeepsFront(d);
  }

  lemma {:induction false} DropLeadingKeepsTokens(lines: seq<seq<Token>>)
    ensures Flatten(DropLeadingBlanks(lines)) == Flatten(lines)
    ensures DropLeadingBlanks(lines) == [] || DropLeadingBlanks(lines)[0] != []
    decreases |lines|
  {
    if lines != [] && lines[0] == [] {
      DropLeadingKeepsTokens(lines[1..]);
    }
  }

  lemma {:induction false} DropTrailingKeepsTokens(lines: seq<seq<Token>>)
    ensures Flatten(DropTrailingBlanks(lines)) == Flatten(lines)
    ensures DropTrailingBlanks(lines) == [] || DropTrailingBlanks(lines)[|DropTrailingBlanks(lines)| - 1] != []
    decreases |lines|
  {
    if lines != [] && lines[|lines| - 1] == [] {
      var front := lines[..|lines| - 1];
      DropTrailingKeepsTokens(front);
      assert lines == front + [[]];
      FlattenSnoc(front, []);
    }
  }

  /** Dropping empty lines at the end keeps a first line that is not empty. */
  lemma {:induction false} DropTrailingKeepsFront(lines: seq<seq<Token>>)
    requires lines == [] || lines[0] != []
    ensures DropTrailingBlanks(lines) == [] || DropTrailingBlanks(lines)[0] == lines[0]
    decreases |lines|
  {
    if lines != [] && lines[|lines| - 1] == [] {
      DropTrailingKeepsFront(lines[..|lines| - 1]);
    }
  }

  /** Dropping empty lines at the end of p + r, where p ends with a line that is not
      empty, only touches r. */
  lemma {:induction false} DropTrailingAppend(p: seq<seq<Token>>, r: seq<seq<Token>>)
    requires p != [] && p[|p| - 1] != []
    ensures DropTrailingBlanks(p + r) == p + DropTrailingBlanks(r)
    decreases |r|
  {
    if r == [] {
      assert p + r == p;
    } else if r[|r| - 1] == [] {
      assert (p + r)[..|p + r| - 1] == p + r[..|r| - 1];
      DropTrailingAppend(p, r[..|r| - 1]);
    }
  }

  /** A file whose first and last lines are not empty is not changed by trimming, and
      neither empty lines added before it nor after it change what trimming gives. */
  lemma TrimIgnoresBlankEnds(before: nat, lines: seq<seq<Token>>, after: nat)
    requires lines != [] && lines[0] != [] && lines[|lines| - 1] != []
    ensures TrimLines(Blanks(before) + lines + Blanks(after)) == lines
  {
    DropLeadingBlanksPrefix(before, lines + Blanks(after));
    assert Blanks(before) + lines + Blanks(after) == Blanks(before) + (lines + Blanks(after));
    DropTrailingAppend(lines, Blanks(after));
    DropTrailingBlanksAll(after);
  }

  lemma {:induction false} DropLeadingBlanksPrefix(n: nat, lines: seq<seq<Token>>)
    requires lines != [] && lines[0] != []
    ensures DropLeadingBlanks(Blanks(n) + lines) == lines
    decreases n
  {
    if n == 0 {
      assert Blanks(n) + lines == lines;
    } else {
      assert (Blanks(n) + lines)[1..] == Blanks(n - 1) + lines;
      DropLeadingBlanksPrefix(n - 1, lines);
    }
  }

  lemma {:induction false} DropTrailingBlanksAll(n: nat)
    ensures DropTrailingBlanks(Blanks(n)) == []
    decreases n
  {
    if n > 0 {
      assert Blanks(n)[..n - 1] == Blanks(n - 1);
      DropTrailingBlanksAll(n - 1);
    }
  }

  /** A builder's arrangement applied to a successful read. */
  function Finish(r: Result<Instance, BuildError>, how: Arrangement): (res: Result<Instance, BuildError>)
  {
    match r
    case Ok(inst) => Ok(Instance(Arranged(inst.elements, how), inst.target))
    case Err(e) => Err(e)
  }

  // ---------------------------------------------------------------------------
  // The token stream readers (Python, C++, C, Java, Kotlin)
  // ---------------------------------------------------------------------------

  /** The size token must be a positive integer, the target an integer, and `size`
      integer tokens must follow; anything after them is never read. */
  function ParseStream(tokens: seq<Token>): (r: Result<Instance, BuildError>)
  {
    if |tokens| < 2 || tokens[0].Junk? || tokens[0].value <= 0 || tokens[1].Junk? then Err(Malformed)
    else
      var size := tokens[0].value;
      if |tokens| < 2 + size || !AllNumbers(tokens[2..2 + size]) then Err(Malformed)
      else Ok(Instance(ValuesOf(tokens[2..2 + size]), tokens[1].value))
  }

  /** The file format the stream readers expect. */
  function Encode(inst: Instance): (r: seq<Token>)
  {
    [Num(|inst.elements|), Num(inst.target)] + Nums(inst.elements)
  }

  /** A stream reads as an instance exactly when the stream starts with that instance's
      encoding and the instance is not empty: the reader is a left inverse of `Encode`
      that ignores trailing tokens, and it accepts nothing else. */
  lemma StreamDecodes(tokens: seq<Token>, inst: Instance)
    ensures ParseStream(tokens) == Ok(inst) <==> |inst.elements| > 0 && Encode(inst) <= tokens
  {
    var e := Encode(inst);
    if |inst.elements| > 0 && e <= tokens {
      assert tokens[..|e|] == e;
      assert tokens[0] == e[0] && tokens[1] == e[1];
      assert tokens[2..2 + |inst.elements|] == Nums(inst.elements);
      ValuesOfNums(inst.elements);
    }
    if ParseStream(tokens) == Ok(inst) {
      var size := tokens[0].value;
      assert |inst.elements| == size;
      forall k | 0 <= k < |e| ensures e[k] == tokens[k] {
        if k >= 2 {
          assert tokens[k] == tokens[2..2 + size][k - 2];
        }
      }
    }
  }

  /** The reading loop every stream reader runs: `original[i] = next integer` for
      i < size, failing when the tokens run out or on the first token that is not an
      integer. */
  method ReadValues(ts: seq<Token>, a: array<int>) returns (ok: bool)
    modifies a
    ensures ok <==> a.Length <= |ts| && AllNumbers(ts[..a.Length])
    ensures ok ==> a.Length <= |ts| && a[..] == ValuesOf(ts[..a.Length])
  {
    var i := 0;
    while i < a.Length
      invariant i <= a.Length && i <= |ts|
      invariant AllNumbers(ts[..i])
      invariant a[..i] == ValuesOf(ts[..i])
    {
      if i == |ts| {
        return false;
      }
      if ts[i].Junk? {
        assert a.Length <= |ts| ==> ts[..a.Length][i] == ts[i];
        return false;
      }
      a[i] := ts[i].value;
      i := i + 1;
    }
    assert ts[..i] == ts[..a.Length];
    return true;
  }

  /** A stream reader: size, target, elements, then the builder's arrangement. */
  method ReadStream(tokens: seq<Token>, how: Arrangement) returns (r: Result<Instance, BuildError>)
    ensures r == Finish(ParseStream(tokens), how)
  {
    if |tokens| < 2 || tokens[0].Junk? || tokens[0].value <= 0 {
      return Err(Malformed);
    }
    var size := tokens[0].value;
    if tokens[1].Junk? {
      return Err(Malformed);
    }
    var original := new int[size];
    var ok := ReadValues(tokens[2..], original);
    assert size <= |tokens| - 2 ==> tokens[2..][..size] == tokens[2..2 + size];
    if !ok {
      return Err(Malformed);
    }
    Arrange(original, how);
    return Ok(Instance(original[..], tokens[1].value));
  }

  // ---------------------------------------------------------------------------
  // JavaScript: three lines at least, size and target from the first two, the
  // elements from all following lines joined together
  // ---------------------------------------------------------------------------

  /** `parseInt` of a line: the integer it starts with, if any. */
  function LeadingInt(line: seq<Token>): (r: Option<int>)
  {
    if line != [] && line[0].Num? then Some(line[0].value) else None
  }

  /** `split(/\s+/)` of a trimmed string: its tokens, except that an empty string
      splits into one empty field, which `Number` reads as 0. */
  function Fields(ts: seq<Token>): (r: seq<Token>)
    ensures |r| > 0
  {
    if ts == [] then [Num(0)] else ts
  }

  /** The file is trimmed first, so empty lines before the size and after the last
      element do not count. */
  function ParseJsLines(file: seq<seq<Token>>): (r: Result<Instance, BuildError>)
  {
    var lines := TrimLines(file);
    if |lines| < 3 then Err(Malformed)
    else match LeadingInt(lines[0])
      case None => Err(Malformed)
      case Some(size) =>
        if size <= 0 then Err(Malformed)
        else match LeadingInt(lines[1])
          case None => Err(Malformed)
          case Some(target) =>
            var nums := Fields(Flatten(lines[2..]));
            if |nums| < size then Err(Malformed)
            else if !AllNumbers(nums[..size]) then Err(NotANumber)
            else Ok(Instance(Arranged(ValuesOf(nums[..size]), SortedDescending), target))
  }

  /** However the elements are spread over the lines after the second, JavaScript
      reads the first `size` of them and sorts them descending. */
  lemma JsJoinsLines(size: int, target: int, rest: seq<seq<Token>>, vs: seq<int>, extra: seq<Token>)
    requires size > 0 && |vs| == size
    requires Flatten(rest) == Nums(vs) + extra
    ensures ParseJsLines([[Num(size)], [Num(target)]] + rest) == Ok(Instance(Sort(vs, Descending), target))
  {
    var head: seq<seq<Token>> := [[Num(size)], [Num(target)]];
    var lines := head + rest;
    var kept := DropTrailingBlanks(rest);
    DropTrailingAppend(head, rest);
    DropTrailingKeepsTokens(rest);
    assert |Flatten(rest)| > 0;
    assert kept != [];
    assert TrimLines(lines) == head + kept;
    assert (head + kept)[2..] == kept;
    var nums := Fields(Flatten(kept));
    assert nums[..size] == Nums(vs);
    ValuesOfNums(vs);
  }

  /** The four rejections, on the trimmed lines: too few lines, no positive size, no
      target, too few numbers. */
  lemma JsRejects(file: seq<seq<Token>>)
    ensures var lines := TrimLines(file);
      |lines| < 3 ==> ParseJsLines(file) == Err(Malformed)
    ensures var lines := TrimLines(file);
      |lines| >= 3 && (LeadingInt(lines[0]).None? || LeadingInt(lines[0]).value <= 0) ==> ParseJsLines(file) == Err(Malformed)
    ensures var lines := TrimLines(file);
      |lines| >= 3 && LeadingInt(lines[0]).Some? && LeadingInt(lines[0]).value > 0 && LeadingInt(lines[1]).None?
      ==> ParseJsLines(file) == Err(Malformed)
    ensures var lines := TrimLines(file);
      (|lines| >= 3 && LeadingInt(lines[0]).Some? && LeadingInt(lines[1]).Some?
       && |Flatten(lines[2..])| < LeadingInt(lines[0]).value)
      ==> ParseJsLines(file) == Err(Malformed)
  {
    var lines := TrimLines(file);
    if |lines| >= 3 {
      TrimLinesKeepsTokens(file);
      var rest := lines[2..];
      assert rest == rest[..|rest| - 1] + [rest[|rest| - 1]];
      FlattenSnoc(rest[..|rest| - 1], rest[|rest| - 1]);
      assert Flatten(rest) != [];
    }
  }

  /** Empty lines before the size line and after the last element line change nothing
      for the JavaScript and TypeScript readers. */
  lemma JsTsIgnoreBlankEnds(before: nat, lines: seq<seq<Token>>, after: nat)
    requires lines != [] && lines[0] != [] && lines[|lines| - 1] != []
    ensures ParseJsLines(Blanks(before) + lines + Blanks(after)) == ParseJsLines(lines)
    ensures ParseTsLines(Blanks(before) + lines + Blanks(after)) == ParseTsLines(lines)
  {
    TrimIgnoresBlankEnds(before, lines, after);
    TrimIgnoresBlankEnds(0, lines, 0);
    assert Blanks(0) + lines + Blanks(0) == lines;
  }

  // ---------------------------------------------------------------------------
  // Go: exactly one integer on each of the first two lines, the elements on the third
  // ---------------------------------------------------------------------------

  /** `strconv.Atoi` of a whole line: the line must be one integer and nothing else. */
  function Atoi(line: seq<Token>): (r: Option<int>)
  {
    if |line| == 1 && line[0].Num? then Some(line[0].value) else None
  }

  /** A missing line, a size or target that is not an integer, fewer fields than `size`
      on the third line, a negative size (`make` rejects it) or a field that is not
      an integer all panic; size 0 is accepted. Lines after the third are not read. */
  function ParseGoLines(lines: seq<seq<Token>>): (r: Result<Instance, BuildError>)
  {
    if |lines| < 3 then Err(Malformed)
    else match (Atoi(lines[0]), Atoi(lines[1]))
      case (Some(size), Some(target)) =>
        if |lines[2]| < size || size < 0 || !AllNumbers(lines[2][..size]) then Err(Malformed)
        else Ok(Instance(ValuesOf(lines[2][..size]), target))
      case _ => Err(Malformed)
  }

  /** `NewSSPFromFile`: the checks, then the loop converting the first `size` fields. */
  method ReadGoLines(lines: seq<seq<Token>>) returns (r: Result<Instance, BuildError>)
    ensures r == ParseGoLines(lines)
  {
    if |lines| < 3 || Atoi(lines[0]).None? || Atoi(lines[1]).None? {
      return Err(Malformed);
    }
    var size, target := Atoi(lines[0]).value, Atoi(lines[1]).value;
    var parts := lines[2];
    if |parts| < size || size < 0 {
      return Err(Malformed);
    }
    var original := new int[size];
    var ok := ReadValues(parts, original);
    if !ok {
      return Err(Malformed);
    }
    return Ok(Instance(original[..], target));
  }

  /** Go reads an instance exactly from its three-line layout, the empty one included;
      extra fields on the third line and extra lines are ignored. */
  lemma GoDecodes(lines: seq<seq<Token>>, inst: Instance)
    ensures ParseGoLines(lines) == Ok(inst) <==>
      |lines| >= 3 && lines[0] == [Num(|inst.elements|)] && lines[1] == [Num(inst.target)]
      && Nums(inst.elements) <= lines[2]
  {
    var e := inst.elements;
    if |lines| >= 3 && lines[0] == [Num(|e|)] && lines[1] == [Num(inst.target)] && Nums(e) <= lines[2] {
      assert lines[2][..|e|] == Nums(e);
      ValuesOfNums(e);
    }
    if ParseGoLines(lines) == Ok(inst) {
      assert lines[0] == [Num(|e|)];
      assert lines[1] == [Num(inst.target)];
      assert lines[2][..|e|] == Nums(e);
    }
  }

  // ---------------------------------------------------------------------------
  // TypeScript: three lines, `parseInt` of the first two, `slice(0, size)` of the third
  // ---------------------------------------------------------------------------

  /** Where `slice(0, size)` (and PHP's `array_slice($a, 0, $size)`) ends in a sequence
      of length len: a negative size counts from the end. */
  function SliceEnd(size: int, len: nat): (r: nat)
    ensures r <= len
  {
    if size < 0 then (if len + size < 0 then 0 else len + size)
    else if size > len then len
    else size
  }

  /** The file is trimmed first. Only a missing third line fails (`lines[2].trim()` on
      `undefined`). A size that is not a number slices nothing; a target or element
      that is not a number is rejected here (see the README). */
  function ParseTsLines(file: seq<seq<Token>>): (r: Result<Instance, BuildError>)
  {
    var lines := TrimLines(file);
    if |lines| < 3 then Err(Malformed)
    else
      var size := if LeadingInt(lines[0]).Some? then LeadingInt(lines[0]).value else 0;
      var parts := Fields(lines[2]);
      var kept := parts[..SliceEnd(size, |parts|)];
      if LeadingInt(lines[1]).None? || !AllNumbers(kept) then Err(NotANumber)
      else Ok(Instance(Arranged(ValuesOf(kept), SortedDescending), LeadingInt(lines[1]).value))
  }

  /** TypeScript keeps the prefix of the third line that `slice(0, size)` selects, sorted
      descending: all of it when size is at least its length, the first `size` values
      otherwise, and for a negative size all but the last |size|. */
  lemma TsSlices(size: int, target: int, vs: seq<int>, more: seq<seq<Token>>)
    requires vs != []
    ensures ParseTsLines([[Num(size)], [Num(target)], Nums(vs)] + more)
      == Ok(Instance(Sort(vs[..SliceEnd(size, |vs|)], Descending), target))
    ensures size >= |vs| ==> vs[..SliceEnd(size, |vs|)] == vs
    ensures 0 <= size <= |vs| ==> |vs[..SliceEnd(size, |vs|)]| == size
    ensures size < 0 && -size <= |vs| ==> |vs[..SliceEnd(size, |vs|)]| == |vs| + size
  {
    var head: seq<seq<Token>> := [[Num(size)], [Num(target)], Nums(vs)];
    var lines := head + more;
    var end := SliceEnd(size, |vs|);
    DropTrailingAppend(head, more);
    assert TrimLines(lines) == head + DropTrailingBlanks(more);
    assert TrimLines(lines)[2] == Nums(vs);
    assert Nums(vs)[..end] == Nums(vs[..end]);
    ValuesOfNums(vs[..end]);
  }

  // ---------------------------------------------------------------------------
  // PHP: no check at all; a missing or non-numeric piece reads as 0
  // ---------------------------------------------------------------------------

  /** `(int)` of a line: the integer it starts with, 0 if none. */
  function IntCast(line: seq<Token>): (r: int)
  {
    if line != [] && line[0].Num? then line[0].value else 0
  }

  /** `intval` of a token. */
  function IntVal(t: Token): (r: int)
  {
    if t.Num? then t.value else 0
  }

  /** Line k, or the empty string a missing line is read as. */
  function LineAt(lines: seq<seq<Token>>, k: nat): (r: seq<Token>)
  {
    if k < |lines| then lines[k] else []
  }

  /** Empty lines are skipped on reading; then `(int)` of the first two lines and
      `intval` of the first `size` fields of the third. */
  function ParsePhpLines(file: seq<seq<Token>>): (r: Instance)
  {
    var lines := NonBlank(file);
    var parts := Fields(LineAt(lines, 2));
    var kept := parts[..SliceEnd(IntCast(LineAt(lines, 0)), |parts|)];
    Instance(seq(|kept|, k requires 0 <= k < |kept| => IntVal(kept[k])), IntCast(LineAt(lines, 1)))
  }

  /** PHP reads its three-line layout back unchanged and unsorted, ignoring anything
      after the first `size` fields and after the third line. An empty third line
      would be skipped, so the third line holds something or nothing follows it. */
  lemma PhpDecodes(inst: Instance, extra: seq<Token>, more: seq<seq<Token>>)
    requires Nums(inst.elements) + extra != [] || more == []
    ensures ParsePhpLines([[Num(|inst.elements|)], [Num(inst.target)], Nums(inst.elements) + extra] + more) == inst
  {
    var e := inst.elements;
    var head: seq<seq<Token>> := [[Num(|e|)], [Num(inst.target)], Nums(e) + extra];
    var lines := head + more;
    NonBlankAppend(head, more);
    NonBlankHead(head);
    var kept := NonBlank(lines);
    assert LineAt(kept, 0) == [Num(|e|)] && LineAt(kept, 1) == [Num(inst.target)];
    assert LineAt(kept, 2) == Nums(e) + extra;
    var parts := Fields(Nums(e) + extra);
    assert SliceEnd(|e|, |parts|) == |e|;
    assert parts[..|e|] == Nums(e);
  }

  /** The three lines PHP keeps of [size line, target line, third line], the third
      line being empty or not. */
  lemma NonBlankHead(head: seq<seq<Token>>)
    requires |head| == 3 && head[0] != [] && head[1] != []
    ensures NonBlank(head) == if head[2] == [] then head[..2] else head
  {
    var t1, t2 := head[1..], head[2..];
    assert t1[1..] == t2 && t2[1..] == [];
    assert NonBlank(t2) == (if head[2] == [] then [] else [head[2]]) + NonBlank([]);
    assert NonBlank(t1) == [head[1]] + NonBlank(t2);
    assert NonBlank(head) == [head[0]] + NonBlank(t1);
  }

  /** PHP never fails, whatever the file holds: each element it keeps is the `intval`
      of a field of the third non-empty line, so a field that is not a number becomes
      0; a size or target that is not a number, or whose line is missing, is 0 (and a
      size of 0 keeps nothing); and a missing third line reads as the single field 0. */
  lemma PhpJunkIsZero(file: seq<seq<Token>>)
    ensures var r, lines := ParsePhpLines(file), NonBlank(file);
      var parts := Fields(LineAt(lines, 2));
      |r.elements| <= |parts|
      && (forall k :: 0 <= k < |r.elements| ==> r.elements[k] == (if parts[k].Num? then parts[k].value else 0))
    ensures var r, lines := ParsePhpLines(file), NonBlank(file);
      LeadingInt(LineAt(lines, 0)).None? ==> r.elements == []
    ensures var r, lines := ParsePhpLines(file), NonBlank(file);
      LeadingInt(LineAt(lines, 1)).None? ==> r.target == 0
    ensures var r, lines := ParsePhpLines(file), NonBlank(file);
      (|lines| < 3 && LeadingInt(LineAt(lines, 0)).Some? && LeadingInt(LineAt(lines, 0)).value > 0) ==> r.elements == [0]
  {
    NonBlankKeepsTokens(file);
  }

  /** An empty line anywhere in the file changes nothing for PHP. */
  lemma PhpSkipsBlankLines(a: seq<seq<Token>>, b: seq<seq<Token>>)
    ensures ParsePhpLines(a + [[]] + b) == ParsePhpLines(a + b)
  {
    NonBlankAppend(a + [[]], b);
    NonBlankAppend(a, [[]]);
    NonBlankAppend(a, b);
    assert NonBlank([[]]) == [] + NonBlank([[]][1..]);
  }
}
