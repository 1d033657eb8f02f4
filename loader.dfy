/** Reading an LS-8 program from the lines of its text file: the part of a
    line before the first '#', stripped of whitespace, is either empty (the
    line is skipped) or a base-2 literal; the literals, in line order, are
    then copied to memory from address 0. */
module Loader {
  import opened PyBuiltins

  /** The instruction text of a line: what precedes its first '#', without
      surrounding whitespace. */
  function Command(line: string): string {
    Strip(SplitHead(line, '#'))
  }

  /** The instruction text of a line is the part of it before the first
      '#' with its leading and trailing whitespace removed: it holds no
      '#', neither starts nor ends with whitespace, is empty exactly when
      everything before the first '#' is whitespace, and everything before
      the first '#' that lies outside it is whitespace. */
  lemma CommandShape(line: string)
    ensures var head := SplitHead(line, '#');
      var c := Command(line);
      && '#' !in c
      && (c != [] ==> !IsSpace(c[0]) && !IsSpace(c[|c| - 1]))
      && (c == [] <==> forall k :: 0 <= k < |head| ==> IsSpace(head[k]))
      && LeadingSpace(head) + |c| <= |head| <= |line|
      && c == line[LeadingSpace(head)..LeadingSpace(head) + |c|]
      && (forall k :: 0 <= k < LeadingSpace(head) ==> IsSpace(head[k]))
      && (forall k :: LeadingSpace(head) + |c| <= k < |head| ==> IsSpace(head[k]))
  {
    CommandInLine(line);
    CommandTrimmed(line);
  }

  /** Where the instruction text sits: a '#'-free piece of the line, right
      after the whitespace the line starts with. */
  lemma CommandInLine(line: string)
    ensures var head := SplitHead(line, '#');
      var c := Command(line);
      && '#' !in c
      && LeadingSpace(head) + |c| <= |head| <= |line|
      && c == line[LeadingSpace(head)..LeadingSpace(head) + |c|]
  {
    var head := SplitHead(line, '#');
    var c := Command(line);
    assert c == Strip(head);
    StripTrims(head);
    var a := LeadingSpace(head);
    assert c == head[a..a + |c|];
    assert head == line[..|head|];
    assert line[a..a + |c|] == head[a..a + |c|];
  }

  /** What the strip removes from the text before the first '#': only
      whitespace, on both sides of the instruction text. */
  lemma CommandTrimmed(line: string)
    ensures var head := SplitHead(line, '#');
      var c := Command(line);
      && (c != [] ==> !IsSpace(c[0]) && !IsSpace(c[|c| - 1]))
      && (c == [] <==> forall k :: 0 <= k < |head| ==> IsSpace(head[k]))
      && (forall k :: 0 <= k < LeadingSpace(head) ==> IsSpace(head[k]))
      && (forall k :: LeadingSpace(head) + |c| <= k < |head| ==> IsSpace(head[k]))
  {
    var head := SplitHead(line, '#');
    assert Command(line) == Strip(head);
    StripTrims(head);
    StripDropsOnlySpace(head);
  }

  /** A blank or comment-only line: it contributes nothing. */
  predicate IsBlank(line: string) {
    Command(line) == ""
  }

  /** The values the lines spell, or the ValueError of the first line whose
      instruction text is not a base-2 literal. */
  function ProgramOf(lines: seq<string>): Result<seq<int>>
    decreases |lines|
  {
    if lines == [] then Ok([])
    else
      var command := Command(lines[0]);
      if command == "" then ProgramOf(lines[1..])
      else match ParseBinary(command)
        case None => Err(ValueError(command))
        case Some(v) =>
          match ProgramOf(lines[1..])
          case Ok(rest) => Ok([v] + rest)
          case Err(e) => Err(e)
  }

  /** `program` followed by whatever `r` produced, or r's error. */
  function Prepend(program: seq<int>, r: Result<seq<int>>): Result<seq<int>> {
    match r
    case Ok(rest) => Ok(program + rest)
    case Err(e) => Err(e)
  }

  /** The first loop of the loader: collect the value of every non-blank
      line, raising ValueError at the first one that is not a literal. */
  method ParseLines(lines: seq<string>) returns (r: Result<seq<int>>)
    ensures r == ProgramOf(lines)
  {
    var program := [];
    assert lines[0..] == lines;
    assert Prepend([], ProgramOf(lines)) == ProgramOf(lines) by {
      if ProgramOf(lines).Ok? { assert [] + ProgramOf(lines).value == ProgramOf(lines).value; }
    }
    for i := 0 to |lines|
      invariant ProgramOf(lines) == Prepend(program, ProgramOf(lines[i..]))
    {
      ProgramOfFirstLine(lines[i..]);
      assert lines[i..][0] == lines[i] && lines[i..][1..] == lines[i + 1..];
      var command := Command(lines[i]);
      if command == "" {
        continue;
      }
      var value := ParseBinary(command);
      if value.None? {
        return Err(ValueError(command));
      }
      PrependTwice(program, [value.value], ProgramOf(lines[i + 1..]));
      program := program + [value.value];
    }
    assert program + [] == program;
    return Ok(program);
  }

  /** ProgramOf, one line at a time. */
  lemma ProgramOfFirstLine(lines: seq<string>)
    requires lines != []
    ensures var command := Command(lines[0]);
      ProgramOf(lines) ==
        if command == "" then ProgramOf(lines[1..])
        else match ParseBinary(command)
          case None => Err(ValueError(command))
          case Some(v) => Prepend([v], ProgramOf(lines[1..]))
  {
  }

  lemma PrependTwice(p: seq<int>, q: seq<int>, r: Result<seq<int>>)
    ensures Prepend(p, Prepend(q, r)) == Prepend(p + q, r)
  {
    if r.Ok? {
      assert p + (q + r.value) == (p + q) + r.value;
    }
  }

  /** Memory after the second loop of the loader copied `program` to the
      cells from address 0: the program's values in order, the cells past
      it untouched. A program longer than memory fills all of it (the copy
      then raises IndexError). */
  function Placed(program: seq<int>, ram: seq<int>): (r: seq<int>)
    ensures |r| == |ram|
    ensures forall a :: 0 <= a < |ram| && a < |program| ==> r[a] == program[a]
    ensures forall a :: |program| <= a < |ram| ==> r[a] == ram[a]
  {
    if |program| <= |ram| then program + ram[|program|..] else program[..|ram|]
  }

  /** The lines that are not blank, in their order. */
  function NonBlank(lines: seq<string>): (r: seq<string>)
    ensures |r| <= |lines|
    decreases |lines|
  {
    if lines == [] then []
    else if IsBlank(lines[0]) then NonBlank(lines[1..])
    else [lines[0]] + NonBlank(lines[1..])
  }

  /** Keeping the non-blank lines is a filter: it distributes over
      concatenation, so the lines it keeps stay in their order. */
  lemma {:induction false} NonBlankAppend(a: seq<string>, b: seq<string>)
    ensures NonBlank(a + b) == NonBlank(a) + NonBlank(b)
    decreases |a|
  {
    if a == [] {
      assert a + b == b;
    } else {
      assert (a + b)[0] == a[0] && (a + b)[1..] == a[1..] + b;
      NonBlankAppend(a[1..], b);
    }
  }

  /** A single line is kept exactly when it is not blank. */
  lemma NonBlankSingle(line: string)
    ensures NonBlank([line]) == if IsBlank(line) then [] else [line]
  {
    assert [line][1..] == [];
  }

  /** Blank and comment-only lines make no difference: the file with them
      removed gives the same program, or the same error. */
  lemma {:induction false} BlankLinesIgnored(lines: seq<string>)
    ensures ProgramOf(lines) == ProgramOf(NonBlank(lines))
    decreases |lines|
  {
    if lines != [] {
      BlankLinesIgnored(lines[1..]);
      if !IsBlank(lines[0]) {
        assert ([lines[0]] + NonBlank(lines[1..]))[1..] == NonBlank(lines[1..]);
      }
    }
  }

  /** Loading succeeds exactly when every non-blank line is a literal. */
  lemma {:induction false} ProgramOfSucceeds(lines: seq<string>)
    ensures ProgramOf(lines).Ok? <==>
      forall k :: 0 <= k < |lines| && !IsBlank(lines[k]) ==> ParseBinary(Command(lines[k])).Some?
    decreases |lines|
  {
    if lines != [] {
      ProgramOfSucceeds(lines[1..]);
      assert forall k :: 1 <= k < |lines| ==> lines[k] == lines[1..][k - 1];
    }
  }

  /** On success every non-blank line contributes its base-2 value, in line
      order, and nothing else is in the program. */
  lemma ProgramOfValues(lines: seq<string>)
    requires ProgramOf(lines).Ok?
    ensures var p := ProgramOf(lines).value;
      && |p| == |NonBlank(lines)|
      && forall k :: 0 <= k < |p| ==> ParseBinary(Command(NonBlank(lines)[k])) == Some(p[k])
  {
    BlankLinesIgnored(lines);
    NonBlankHasNoBlank(lines);
    LiteralLinesValues(NonBlank(lines));
  }

  lemma {:induction false} NonBlankHasNoBlank(lines: seq<string>)
    ensures forall k :: 0 <= k < |NonBlank(lines)| ==> !IsBlank(NonBlank(lines)[k])
    decreases |lines|
  {
    if lines != [] {
      NonBlankHasNoBlank(lines[1..]);
    }
  }

  /** Lines none of which is blank load as one value each. */
  lemma {:induction false} LiteralLinesValues(lines: seq<string>)
    requires forall k :: 0 <= k < |lines| ==> !IsBlank(lines[k])
    requires ProgramOf(lines).Ok?
    ensures var p := ProgramOf(lines).value;
      && |p| == |lines|
      && forall k :: 0 <= k < |p| ==> ParseBinary(Command(lines[k])) == Some(p[k])
    decreases |lines|
  {
    if lines != [] {
      var tail := lines[1..];
      assert forall k :: 0 <= k < |tail| ==> tail[k] == lines[k + 1];
      ProgramOfFirstLine(lines);
      LiteralLinesValues(tail);
      var p := ProgramOf(lines).value;
      var rest := ProgramOf(tail).value;
      assert p == [p[0]] + rest;
      forall k | 1 <= k < |p|
        ensures ParseBinary(Command(lines[k])) == Some(p[k])
      {
        assert lines[k] == tail[k - 1] && p[k] == rest[k - 1];
      }
    }
  }

  /** A line holding a literal followed by nothing but whitespace up to
      its first '#' (or its end) has the literal as its instruction text:
      "10000010\n", "10000010  # LDI R0,8\n" and "00000001" alike. */
  lemma CodeLineCommand(code: string, rest: string)
    requires |code| > 0 && forall k :: 0 <= k < |code| ==> IsBit(code[k])
    requires forall k :: 0 <= k < |SplitHead(rest, '#')| ==> IsSpace(SplitHead(rest, '#')[k])
    ensures Command(code + rest) == code
  {
    assert '#' !in code;
    SplitHeadAppend(code, rest, '#');
    var s := code + SplitHead(rest, '#');
    assert !IsSpace(s[0]);
    assert TrimLeft(s) == s;
    TrimTrailingSpace(code, SplitHead(rest, '#'));
  }

  /** Right-stripping text that ends in a non-space character followed by
      whitespace removes exactly that whitespace. */
  lemma {:induction false} TrimTrailingSpace(code: string, spaces: string)
    requires |code| > 0 && !IsSpace(code[|code| - 1])
    requires forall k :: 0 <= k < |spaces| ==> IsSpace(spaces[k])
    ensures TrimRight(code + spaces) == code
    decreases |spaces|
  {
    if spaces == [] {
      assert code + spaces == code;
    } else {
      var s := code + spaces;
      assert s[|s| - 1] == spaces[|spaces| - 1];
      assert s[..|s| - 1] == code + spaces[..|spaces| - 1];
      TrimTrailingSpace(code, spaces[..|spaces| - 1]);
    }
  }

  lemma {:induction false} SplitHeadAppend(a: string, b: string, sep: char)
    requires sep !in a
    ensures SplitHead(a + b, sep) == a + SplitHead(b, sep)
  {
    if a != [] {
      assert (a + b)[0] == a[0] && (a + b)[1..] == a[1..] + b;
      SplitHeadAppend(a[1..], b, sep);
      assert a == [a[0]] + a[1..];
    } else {
      assert a + b == b;
    }
  }
}
