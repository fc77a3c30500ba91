/**
 * Concrete inputs that show how `cleanCode` behaves as written: the prefix
 * pattern has no `g` flag, eats any leading number, and takes every leading
 * whitespace character with it, so cleaning twice can differ from cleaning
 * once and indentation never survives.
 */
module CleanerExamples {
  import opened JsString
  import opened TextCleaner

  /** Only the first list marker of a line goes; the next one goes only
      when the result is cleaned again. */
  lemma {:induction false} OnlyOnePrefixGoes()
    ensures StripPrefix("1. 2. x") == "2. x"
    ensures StripPrefix("2. x") == "x"
  {
    var line := "1. 2. x";
    assert !IsWhitespace(line[0]);
    assert SpanFrom(IsWhitespace, line, 0) == 0;
    assert SpanFrom(IsDigit, line, 1) == 1;
    assert SpanFrom(IsDigit, line, 0) == 1;
    assert SpanFrom(IsWhitespace, line, 3) == 3;
    assert SpanFrom(IsWhitespace, line, 2) == 3;
    var next := "2. x";
    assert !IsWhitespace(next[0]);
    assert SpanFrom(IsWhitespace, next, 0) == 0;
    assert SpanFrom(IsDigit, next, 1) == 1;
    assert SpanFrom(IsDigit, next, 0) == 1;
    assert !IsWhitespace(next[3]) && IsWhitespace(next[2]);
    assert SpanFrom(IsWhitespace, next, 3) == 3;
    assert SpanFrom(IsWhitespace, next, 2) == 3;
  }

  /** A line of code that starts with a number loses it. */
  lemma {:induction false} LeadingNumberEaten()
    ensures StripPrefix("3 + 4") == "+ 4"
  {
    var line := "3 + 4";
    assert !IsWhitespace(line[0]);
    assert SpanFrom(IsWhitespace, line, 0) == 0;
    assert SpanFrom(IsDigit, line, 1) == 1;
    assert SpanFrom(IsDigit, line, 0) == 1;
    assert SpanFrom(IsWhitespace, line, 2) == 2;
    assert SpanFrom(IsWhitespace, line, 1) == 2;
  }

  /** Text of one line cleans to that line stripped, unless the stripped
      line is blank. */
  lemma {:induction false} SingleLineCleaned(line: string, preserveIndentation: bool)
    requires '\n' !in line && !IsBlank(StripLine(line))
    ensures Cleaned(line, preserveIndentation) == StripLine(line)
  {
    SingleLineTrimmed(line);
  }

  lemma {:induction false} SingleLineTrimmed(line: string)
    requires '\n' !in line && !IsBlank(StripLine(line))
    ensures TrimmedLines(line) == [StripLine(line)]
  {
    NewlineIndexAbsent(line);
    assert Split(line) == [line];
    assert StrippedLines([line]) == StrippedLines([]) + [StripLine(line)];
    TrimBlankEdgesBetween([StripLine(line)], 0, 1);
  }

  lemma {:induction false} TrimEndKeeps(s: string)
    requires s != [] && !IsWhitespace(s[|s| - 1])
    ensures TrimEnd(s) == s
  {
  }

  /** Cleaning already cleaned text can change it again. */
  lemma {:induction false} CleanNotIdempotent(preserveIndentation: bool)
    ensures Cleaned("1. 2. x", preserveIndentation) == "2. x"
    ensures Cleaned(Cleaned("1. 2. x", preserveIndentation), preserveIndentation) == "x"
  {
    OnlyOnePrefixGoes();
    TrimEndKeeps("2. x");
    assert !IsBlank("2. x") by { assert !IsWhitespace("2. x"[0]); }
    assert '\n' !in "1. 2. x";
    SingleLineCleaned("1. 2. x", preserveIndentation);
    TrimEndKeeps("x");
    assert '\n' !in "2. x";
    SingleLineCleaned("2. x", preserveIndentation);
  }

  lemma {:induction false} IndentedA()
    ensures StripLine("    a") == "a"
  {
    var line := "    a";
    assert !IsWhitespace(line[4]) && !IsDigit(line[4]) && line[4] != '$' && line[4] != '>';
    assert SpanFrom(IsWhitespace, line, 4) == 4;
    assert SpanFrom(IsWhitespace, line, 0) == 4;
    assert SpanFrom(IsGreaterThan, line, 4) == 4;
    assert StripPrefix(line) == "a";
  }

  lemma {:induction false} IndentedB()
    ensures StripLine("      b") == "b"
  {
    var line := "      b";
    assert !IsWhitespace(line[6]) && !IsDigit(line[6]) && line[6] != '$' && line[6] != '>';
    assert SpanFrom(IsWhitespace, line, 6) == 6;
    assert SpanFrom(IsWhitespace, line, 0) == 6;
    assert SpanFrom(IsGreaterThan, line, 6) == 6;
    assert StripPrefix(line) == "b";
  }

  lemma {:induction false} TwoLinesSplit(first: string, second: string)
    requires '\n' !in first && '\n' !in second
    ensures Split(first + "\n" + second) == [first, second]
  {
    var raw := [first, second];
    assert Join(raw) == first + "\n" + second;
    SplitJoin(raw);
  }

  lemma {:induction false} TwoLinesStripped(first: string, second: string)
    ensures StrippedLines([first, second]) == [StripLine(first), StripLine(second)]
  {
    var raw := [first, second];
    assert StrippedLines(raw[..1]) == StrippedLines([]) + [StripLine(first)];
    assert StrippedLines(raw) == StrippedLines(raw[..1]) + [StripLine(second)];
  }

  lemma {:induction false} TwoLinesTrimmed(first: string, second: string)
    requires '\n' !in first && '\n' !in second
    requires !IsBlank(StripLine(first)) && !IsBlank(StripLine(second))
    ensures TrimmedLines(first + "\n" + second) == [StripLine(first), StripLine(second)]
  {
    TwoLinesSplit(first, second);
    TwoLinesStripped(first, second);
    TrimBlankEdgesBetween([StripLine(first), StripLine(second)], 0, 2);
  }

  lemma {:induction false} JoinTwo(first: string, second: string)
    ensures Join([first, second]) == first + "\n" + second
  {
    assert [first, second][1..] == [second];
  }

  /** Text of two lines cleans to the two lines stripped, unless one of
      them strips to a blank line. */
  lemma {:induction false} TwoLinesCleaned(first: string, second: string, preserveIndentation: bool)
    requires '\n' !in first && '\n' !in second
    requires !IsBlank(StripLine(first)) && !IsBlank(StripLine(second))
    ensures Cleaned(first + "\n" + second, preserveIndentation) == StripLine(first) + "\n" + StripLine(second)
  {
    TwoLinesTrimmed(first, second);
    JoinTwo(StripLine(first), StripLine(second));
  }

  /** With `preserveIndentation` off, the relative indentation of the two
      lines is still lost: prefix stripping removed it before
      `normalizeIndentation` runs. */
  lemma {:induction false} IndentationLost()
    ensures Cleaned("    a" + "\n" + "      b", false) == "a" + "\n" + "b"
  {
    IndentedA();
    IndentedB();
    assert !IsBlank("a") && !IsBlank("b");
    assert '\n' !in "    a" && '\n' !in "      b";
    TwoLinesCleaned("    a", "      b", false);
  }
}
