/**
 * The line-oriented cleaning pipeline of the content script: `cleanCode` and
 * `normalizeIndentation`. Each step is a specification function; the two
 * methods follow the script's own loops and are proved equal to them.
 *
 * HTML entity decoding (a round trip through a `<textarea>`) belongs to the
 * browser: it enters as the parameter `decode` of `CleanCode`, and every
 * property below holds whatever it does.
 */
module TextCleaner {
  import opened JsString

  /** JavaScript's `\d`: ASCII digits only. */
  predicate IsDigit(c: char) {
    '0' <= c <= '9'
  }

  predicate IsGreaterThan(c: char) {
    c == '>'
  }

  // ---------------------------------------------------------------------------
  // Prefix stripping: line.replace(/^\s*(\d+\.?\s*|\$\s*|>*\s*)/, '')
  // ---------------------------------------------------------------------------

  /** Where the one leading match of `^\s*(\d+\.?\s*|\$\s*|>*\s*)` ends.
      The greedy `^\s*` takes every leading whitespace character, then the
      alternatives are tried in order. The third one can match the empty
      string, so a match always exists and the engine never backtracks into
      `^\s*`. Every alternative ends in a greedy `\s*`, so the match is
      never followed by whitespace. */
  function MatchEnd(line: string): (n: nat)
    ensures n <= |line|
    ensures n < |line| ==> !IsWhitespace(line[n])
  {
    var w := SpanFrom(IsWhitespace, line, 0);
    if w < |line| && IsDigit(line[w]) then
      var d := SpanFrom(IsDigit, line, w);
      SpanFrom(IsWhitespace, line, if d < |line| && line[d] == '.' then d + 1 else d)
    else if w < |line| && line[w] == '$' then
      SpanFrom(IsWhitespace, line, w + 1)
    else
      SpanFrom(IsWhitespace, line, SpanFrom(IsGreaterThan, line, w))
  }

  /** `line.replace(/^\s*(\d+\.?\s*|\$\s*|>*\s*)/, '')`: the pattern has no
      `g` flag, so only the one leading match goes. What is left is the
      rest of the line as it was, and never starts with whitespace. */
  function StripPrefix(line: string): (r: string)
    ensures |r| <= |line| && r == line[|line| - |r|..]
    ensures r == [] || !IsWhitespace(r[0])
  {
    line[MatchEnd(line)..]
  }

  /** `s[a..b]` is all whitespace (a run of `\s*`). */
  ghost predicate WhitespaceRun(s: string, a: nat, b: nat)
    requires a <= b <= |s|
  {
    forall k :: a <= k < b ==> IsWhitespace(s[k])
  }

  /** `s[a..b]` is all ASCII digits. */
  ghost predicate DigitRun(s: string, a: nat, b: nat)
    requires a <= b <= |s|
  {
    forall k :: a <= k < b ==> IsDigit(s[k])
  }

  /** `s[a..b]` is all `>`. */
  ghost predicate GreaterThanRun(s: string, a: nat, b: nat)
    requires a <= b <= |s|
  {
    forall k :: a <= k < b ==> s[k] == '>'
  }

  /** `\d+\.?\s*` matches `s[a..b]` exactly. */
  ghost predicate NumberLabel(s: string, a: nat, b: nat)
    requires a <= b <= |s|
  {
    exists i: nat, j: nat :: a < i <= j <= b && DigitRun(s, a, i)
      && (j == i || (j == i + 1 && s[i] == '.')) && WhitespaceRun(s, j, b)
  }

  /** `\$\s*` matches `s[a..b]` exactly. */
  ghost predicate ShellPrompt(s: string, a: nat, b: nat)
    requires a <= b <= |s|
  {
    a < b && s[a] == '$' && WhitespaceRun(s, a + 1, b)
  }

  /** `>*\s*` matches `s[a..b]` exactly. */
  ghost predicate QuoteMarker(s: string, a: nat, b: nat)
    requires a <= b <= |s|
  {
    exists i: nat :: a <= i <= b && GreaterThanRun(s, a, i) && WhitespaceRun(s, i, b)
  }

  /** `\d+\.?\s*` matches `s[a..b]`, and no longer stretch from `a`. */
  ghost predicate LongestNumberLabel(s: string, a: nat, b: nat)
    requires a <= b <= |s|
  {
    NumberLabel(s, a, b) && forall m :: b < m <= |s| ==> !NumberLabel(s, a, m)
  }

  /** `\$\s*` matches `s[a..b]`, and no longer stretch from `a`. */
  ghost predicate LongestShellPrompt(s: string, a: nat, b: nat)
    requires a <= b <= |s|
  {
    ShellPrompt(s, a, b) && forall m :: b < m <= |s| ==> !ShellPrompt(s, a, m)
  }

  /** `>*\s*` matches `s[a..b]`, and no longer stretch from `a`. */
  ghost predicate LongestQuoteMarker(s: string, a: nat, b: nat)
    requires a <= b <= |s|
  {
    QuoteMarker(s, a, b) && forall m :: b < m <= |s| ==> !QuoteMarker(s, a, m)
  }

  /** What StripPrefix removes is exactly one match of the pattern, taken in
      the order the regular expression tries it: all of the leading
      whitespace, then a line number if a digit follows, else a shell prompt
      if a `$` follows, else a (possibly empty) run of `>`, each with the
      whitespace after it. So `"1. 2. x"` keeps `"2. x"`, and `"3 + 4"`
      loses its `3`. */
  lemma {:induction false} StripPrefixRemovesOneMatch(line: string)
    ensures var n := MatchEnd(line);
            var w := SpanFrom(IsWhitespace, line, 0);
            && w <= n <= |line|
            && StripPrefix(line) == line[n..]
            && WhitespaceRun(line, 0, w)
            && (w < |line| ==> !IsWhitespace(line[w]))
            && (w < |line| && IsDigit(line[w]) ==> LongestNumberLabel(line, w, n))
            && (w < |line| && line[w] == '$' ==> LongestShellPrompt(line, w, n))
            && (w == |line| || (!IsDigit(line[w]) && line[w] != '$') ==> LongestQuoteMarker(line, w, n))
  {
    var n := MatchEnd(line);
    var w := SpanFrom(IsWhitespace, line, 0);
    if w < |line| && IsDigit(line[w]) {
      var i := SpanFrom(IsDigit, line, w);
      var j := if i < |line| && line[i] == '.' then i + 1 else i;
      assert n == SpanFrom(IsWhitespace, line, j);
      assert w < i <= j <= n && DigitRun(line, w, i)
        && (j == i || (j == i + 1 && line[i] == '.')) && WhitespaceRun(line, j, n);
    } else if w < |line| && line[w] == '$' {
    } else {
      var i := SpanFrom(IsGreaterThan, line, w);
      assert n == SpanFrom(IsWhitespace, line, i);
      assert w <= i <= n && GreaterThanRun(line, w, i) && WhitespaceRun(line, i, n);
    }
    if w < |line| && IsDigit(line[w]) {
      forall m | n < m <= |line| ensures !NumberLabel(line, w, m) {
        NoLongerNumberLabel(line, m);
      }
    } else if w < |line| && line[w] == '$' {
    } else {
      forall m | n < m <= |line| ensures !QuoteMarker(line, w, m) {
        NoLongerQuoteMarker(line, m);
      }
    }
  }

  /** The greedy `\d+`, `\.?` and `\s*` leave no longer match of the number
      label: the digit run ends at a non-digit, a following '.' is taken,
      and the whitespace run ends at a non-whitespace character. */
  lemma {:induction false} NoLongerNumberLabel(line: string, m: nat)
    requires SpanFrom(IsWhitespace, line, 0) < |line| && IsDigit(line[SpanFrom(IsWhitespace, line, 0)])
    requires MatchEnd(line) < m <= |line|
    ensures !NumberLabel(line, SpanFrom(IsWhitespace, line, 0), m)
  {
    var w := SpanFrom(IsWhitespace, line, 0);
    var n := MatchEnd(line);
    var d := SpanFrom(IsDigit, line, w);
    var j := if d < |line| && line[d] == '.' then d + 1 else d;
    assert n == SpanFrom(IsWhitespace, line, j);
  }

  /** The greedy `>*` and `\s*` leave no longer match of the quote marker. */
  lemma {:induction false} NoLongerQuoteMarker(line: string, m: nat)
    requires var w := SpanFrom(IsWhitespace, line, 0);
             w == |line| || (!IsDigit(line[w]) && line[w] != '$')
    requires MatchEnd(line) < m <= |line|
    ensures !QuoteMarker(line, SpanFrom(IsWhitespace, line, 0), m)
  {
    var w := SpanFrom(IsWhitespace, line, 0);
    var g := SpanFrom(IsGreaterThan, line, w);
    assert MatchEnd(line) == SpanFrom(IsWhitespace, line, g);
  }

  /** One line after both `map` calls: prefix stripped, then `trimEnd()`.
      The result starts and ends with a non-whitespace character, or is
      empty. */
  function StripLine(line: string): (r: string)
    ensures r == [] || (!IsWhitespace(r[0]) && !IsWhitespace(r[|r| - 1]))
  {
    TrimEnd(StripPrefix(line))
  }

  /** A line without a '\n' strips to a line without one. */
  lemma {:induction false} StripLineNoNewline(line: string)
    requires '\n' !in line
    ensures '\n' !in StripLine(line)
  {
    NoNewlineTrimmedSuffix(line, |line| - |StripPrefix(line)|);
  }

  lemma {:induction false} NoNewlineTrimmedSuffix(line: string, k: nat)
    requires k <= |line| && '\n' !in line
    ensures '\n' !in TrimEnd(line[k..])
  {
    var p := line[k..];
    var r := TrimEnd(p);
    forall j | 0 <= j < |r| ensures r[j] != '\n' {
      assert r[j] == p[j] == line[k + j];
    }
  }

  /** A whitespace-only line strips to the empty line. */
  lemma {:induction false} StripBlankLine(line: string)
    requires IsBlank(line)
    ensures StripLine(line) == ""
  {
  }

  /** A line as both `map` calls leave it: no '\n', and no whitespace at
      either end. */
  predicate Tidy(line: string) {
    && '\n' !in line
    && (line == [] || (!IsWhitespace(line[0]) && !IsWhitespace(line[|line| - 1])))
  }

  predicate AllTidy(lines: seq<string>) {
    forall i :: 0 <= i < |lines| ==> Tidy(lines[i])
  }

  /** The two `map` calls over the split lines. */
  function StrippedLines(lines: seq<string>): (r: seq<string>)
    ensures |r| == |lines|
    decreases |lines|
  {
    if lines == [] then []
    else StrippedLines(lines[..|lines| - 1]) + [StripLine(lines[|lines| - 1])]
  }

  lemma {:induction false} StrippedLineAt(lines: seq<string>, i: nat)
    requires i < |lines|
    ensures StrippedLines(lines)[i] == StripLine(lines[i])
    decreases |lines|
  {
    if i < |lines| - 1 {
      StrippedLineAt(lines[..|lines| - 1], i);
    }
  }

  /** Every stripped line of a split text is tidy. */
  lemma {:induction false} StrippedLinesTidy(decoded: string)
    ensures AllTidy(StrippedLines(Split(decoded)))
  {
    var raw := Split(decoded);
    forall i | 0 <= i < |raw| ensures Tidy(StrippedLines(raw)[i]) {
      StrippedLineAt(raw, i);
      StripLineNoNewline(raw[i]);
    }
  }

  // ---------------------------------------------------------------------------
  // Blank-edge trimming: the `shift` and `pop` loops
  // ---------------------------------------------------------------------------

  predicate AllBlank(lines: seq<string>) {
    forall i :: 0 <= i < |lines| ==> IsBlank(lines[i])
  }

  /** Neither the first nor the last line is blank. */
  predicate EdgesNonBlank(lines: seq<string>) {
    lines != [] ==> !IsBlank(lines[0]) && !IsBlank(lines[|lines| - 1])
  }

  /** The lines the `shift` and `pop` loops keep: from the first non-blank
      line through the last one. The `pop` loop works on what `shift` left,
      so it never reaches below where `shift` stopped. */
  function TrimBlankEdges(lines: seq<string>): (t: seq<string>)
    ensures |t| <= |lines|
    ensures EdgesNonBlank(t)
    ensures t == [] <==> AllBlank(lines)
  {
    var lo := SpanFrom(IsBlank, lines, 0);
    lines[lo..SpanBack(IsBlank, lines, lo, |lines|)]
  }

  // ---------------------------------------------------------------------------
  // normalizeIndentation
  // ---------------------------------------------------------------------------

  /** `minIndent`, which starts at `Infinity`. */
  datatype Bound = Infinity | Finite(value: nat)

  /** `Math.min(m, n)` */
  function MinOf(m: Bound, n: nat): Bound {
    match m
    case Infinity => Finite(n)
    case Finite(k) => Finite(if k <= n then k else n)
  }

  // Length of the match of the leading-whitespace pattern, which always matches.
  function Indent(line: string): nat {
    SpanFrom(IsWhitespace, line, 0)
  }

  predicate StartsWithSpace(line: string) {
    |line| > 0 && line[0] == ' '
  }

  /** `lines.filter(line => line.trim() !== '')` */
  function NonBlank(lines: seq<string>): seq<string>
    decreases |lines|
  {
    if lines == [] then []
    else
      var last := lines[|lines| - 1];
      NonBlank(lines[..|lines| - 1]) + (if IsBlank(last) then [] else [last])
  }

  /** The value of `minIndent` after the `for` loop has run over `lines`,
      starting from `Infinity`. */
  function MinIndent(lines: seq<string>): Bound
    decreases |lines|
  {
    if lines == [] then Infinity
    else MinOf(MinIndent(lines[..|lines| - 1]), Indent(lines[|lines| - 1]))
  }

  /** The least indentation among the non-blank lines, or Infinity when
      every line is blank. */
  function LeastIndent(lines: seq<string>): (m: Bound)
    ensures m == Infinity <==> forall i :: 0 <= i < |lines| ==> IsBlank(lines[i])
    ensures m.Finite? ==> forall i :: 0 <= i < |lines| && !IsBlank(lines[i]) ==> m.value <= Indent(lines[i])
    ensures m.Finite? ==> exists i :: 0 <= i < |lines| && !IsBlank(lines[i]) && m.value == Indent(lines[i])
    decreases |lines|
  {
    if lines == [] then Infinity
    else
      var front, last := lines[..|lines| - 1], lines[|lines| - 1];
      var m := LeastIndent(front);
      assert forall i :: 0 <= i < |front| ==> front[i] == lines[i];
      if IsBlank(last) then m
      else
        var r := MinOf(m, Indent(last));
        assert r.value != Indent(last) ==> r.value == m.value;
        r
  }

  /** Filtering the blank lines out and then taking the minimum, as the
      script does, gives the least indentation of the non-blank lines. */
  lemma {:induction false} FilterThenMinimum(lines: seq<string>)
    ensures MinIndent(NonBlank(lines)) == LeastIndent(lines)
    decreases |lines|
  {
    if lines != [] {
      var front, last := lines[..|lines| - 1], lines[|lines| - 1];
      FilterThenMinimum(front);
      var kept := NonBlank(front);
      if IsBlank(last) {
        assert NonBlank(lines) == kept + [] == kept;
        assert LeastIndent(lines) == LeastIndent(front);
      } else {
        assert NonBlank(lines) == kept + [last];
        assert (kept + [last])[..|kept|] == kept;
        assert MinIndent(kept + [last]) == MinOf(MinIndent(kept), Indent(last));
        assert LeastIndent(lines) == MinOf(LeastIndent(front), Indent(last));
      }
    }
  }

  /** One line as the final `map` leaves it: a line starting with a space
      loses its first `minIndent` characters, every other line is kept. */
  function Dedent(line: string, minIndent: nat): (r: string)
    ensures |r| <= |line| && r == line[|line| - |r|..]
    ensures StartsWithSpace(line) ==> |r| == if minIndent <= |line| then |line| - minIndent else 0
    ensures !StartsWithSpace(line) ==> r == line
  {
    if StartsWithSpace(line) then Substring(line, minIndent) else line
  }

  /** The value `normalizeIndentation` returns. */
  function Normalized(lines: seq<string>): (r: seq<string>)
    ensures |r| == |lines|
  {
    match LeastIndent(lines)
    case Finite(minIndent) =>
      if minIndent > 0 then seq(|lines|, i requires 0 <= i < |lines| => Dedent(lines[i], minIndent))
      else lines
    case Infinity => lines
  }

  /** Input whose lines are all blank, or that has a non-blank line with no
      leading whitespace, comes back unchanged (a line led by a tab counts
      as indented for the minimum but is never dedented). */
  lemma {:induction false} NormalizedIdentity(lines: seq<string>)
    requires AllBlank(lines) || exists i :: 0 <= i < |lines| && !IsBlank(lines[i]) && Indent(lines[i]) == 0
    ensures Normalized(lines) == lines
  {
    if !AllBlank(lines) {
      var i :| 0 <= i < |lines| && !IsBlank(lines[i]) && Indent(lines[i]) == 0;
      assert LeastIndent(lines).value <= Indent(lines[i]);
    }
  }

  /** What happens to each line: one that does not start with a space is
      kept; one that does loses `minIndent` characters (all of it when it is
      shorter). A non-blank line only ever loses leading whitespace. */
  lemma {:induction false} NormalizedLine(lines: seq<string>, i: nat)
    requires i < |lines|
    ensures !StartsWithSpace(lines[i]) ==> Normalized(lines)[i] == lines[i]
    ensures StartsWithSpace(lines[i]) && LeastIndent(lines).Finite? ==>
              Normalized(lines)[i] == Substring(lines[i], LeastIndent(lines).value)
    ensures !IsBlank(lines[i]) ==>
              && |lines[i]| - Indent(lines[i]) <= |Normalized(lines)[i]| <= |lines[i]|
              && Normalized(lines)[i] == lines[i][|lines[i]| - |Normalized(lines)[i]|..]
  {
    var m := LeastIndent(lines);
    if m.Finite? && m.value > 0 && StartsWithSpace(lines[i]) && !IsBlank(lines[i]) {
      assert m.value <= Indent(lines[i]);
    }
  }

  /** A list whose lines never start with whitespace. */
  predicate Unindented(lines: seq<string>) {
    forall i :: 0 <= i < |lines| ==> lines[i] == [] || !IsWhitespace(lines[i][0])
  }

  /** On lines that never start with whitespace, `normalizeIndentation`
      returns its input: either every line is blank, or some non-blank line
      has indentation 0, so `minIndent` is 0. */
  lemma {:induction false} NormalizedUnindented(lines: seq<string>)
    requires Unindented(lines)
    ensures Normalized(lines) == lines
  {
    var m := LeastIndent(lines);
    if m.Finite? {
      var i :| 0 <= i < |lines| && !IsBlank(lines[i]) && m.value == Indent(lines[i]);
      assert lines[i] != [];
    }
  }

  // ---------------------------------------------------------------------------
  // cleanCode
  // ---------------------------------------------------------------------------

  /** The lines left after the `shift` and `pop` loops. */
  function TrimmedLines(decoded: string): seq<string>
  {
    TrimBlankEdges(StrippedLines(Split(decoded)))
  }

  /** The lines `cleanCode` joins, for already-decoded text. */
  function CleanedLines(decoded: string, preserveIndentation: bool): seq<string>
  {
    if preserveIndentation then TrimmedLines(decoded) else Normalized(TrimmedLines(decoded))
  }

  /** The string `cleanCode` returns, for already-decoded text: the
      stripped lines with blank edges trimmed, joined, whatever the
      `preserveIndentation` setting. */
  function Cleaned(decoded: string, preserveIndentation: bool): (r: string)
    ensures r == Join(TrimmedLines(decoded))
  {
    CleanedIsTrimmed(decoded, preserveIndentation);
    Join(CleanedLines(decoded, preserveIndentation))
  }

  /** `t` is a contiguous run of `lines`, in order, with only blank lines
      cut off at either end. */
  ghost predicate BlankEdgesCut(t: seq<string>, lines: seq<string>) {
    exists lo, hi :: 0 <= lo <= hi <= |lines| && t == lines[lo..hi]
      && (forall i :: 0 <= i < lo ==> IsBlank(lines[i]))
      && (forall i :: hi <= i < |lines| ==> IsBlank(lines[i]))
  }

  /** The blank-edge trimming only cuts blank lines, and only at the ends;
      interior blank lines stay. */
  lemma {:induction false} TrimmedIsSlice(lines: seq<string>)
    ensures BlankEdgesCut(TrimBlankEdges(lines), lines)
  {
    var lo := SpanFrom(IsBlank, lines, 0);
    var hi := SpanBack(IsBlank, lines, lo, |lines|);
    assert TrimBlankEdges(lines) == lines[lo..hi];
  }

  /** Trimming blank edges off tidy lines leaves tidy lines. */
  lemma {:induction false} TidyTrimmed(s: seq<string>)
    requires AllTidy(s)
    ensures AllTidy(TrimBlankEdges(s))
  {
    var lo := SpanFrom(IsBlank, s, 0);
    var t := TrimBlankEdges(s);
    forall i | 0 <= i < |t| ensures Tidy(t[i]) {
      assert t[i] == s[lo + i];
    }
  }

  lemma {:induction false} TrimmedTidy(decoded: string)
    ensures AllTidy(TrimmedLines(decoded))
  {
    StrippedLinesTidy(decoded);
    TidyTrimmed(StrippedLines(Split(decoded)));
  }

  /** Inside `cleanCode`, `normalizeIndentation` returns its input: prefix
      stripping already removed every leading whitespace character. So the
      `preserveIndentation` setting never changes the result. */
  lemma {:induction false} PreserveIndentationHasNoEffect(decoded: string)
    ensures CleanedLines(decoded, false) == CleanedLines(decoded, true)
  {
    var t := TrimmedLines(decoded);
    TrimmedTidy(decoded);
    assert Unindented(t);
    NormalizedUnindented(t);
  }

  /** The cleaned lines are a contiguous, order-preserving slice of the
      stripped and right-trimmed input lines (`StrippedLineAt` says what each
      of those is), so their number never grows; only blank lines are cut
      away, and only at the ends. */
  lemma {:induction false} CleanedLinesAreSlice(decoded: string, preserveIndentation: bool)
    ensures BlankEdgesCut(CleanedLines(decoded, preserveIndentation), StrippedLines(Split(decoded)))
  {
    CleanedIsTrimmed(decoded, preserveIndentation);
    TrimmedIsSlice(StrippedLines(Split(decoded)));
  }

  lemma {:induction false} CleanedIsTrimmed(decoded: string, preserveIndentation: bool)
    ensures CleanedLines(decoded, preserveIndentation) == TrimmedLines(decoded)
  {
    PreserveIndentationHasNoEffect(decoded);
  }

  /** No line of the output starts or ends with whitespace: every line
      went through the prefix strip and `trimEnd`. */
  lemma {:induction false} OutputLinesTidy(decoded: string, preserveIndentation: bool)
    ensures AllTidy(Split(Cleaned(decoded, preserveIndentation)))
  {
    var t := TrimmedLines(decoded);
    CleanedIsTrimmed(decoded, preserveIndentation);
    TrimmedTidy(decoded);
    JoinTidyLines(t);
  }

  /** The output is empty exactly when every stripped line is blank;
      otherwise its first and last lines each hold a non-whitespace
      character. */
  lemma {:induction false} BlankEdgesGone(decoded: string, preserveIndentation: bool)
    ensures Cleaned(decoded, preserveIndentation) == "" <==> AllBlank(StrippedLines(Split(decoded)))
    ensures Cleaned(decoded, preserveIndentation) != "" ==>
              EdgesNonBlank(Split(Cleaned(decoded, preserveIndentation)))
  {
    var s := StrippedLines(Split(decoded));
    var t := TrimmedLines(decoded);
    CleanedIsTrimmed(decoded, preserveIndentation);
    TrimmedTidy(decoded);
    JoinTrimmed(t, s);
  }

  lemma {:induction false} JoinTrimmed(t: seq<string>, s: seq<string>)
    requires AllTidy(t) && EdgesNonBlank(t)
    requires t == [] <==> AllBlank(s)
    ensures Join(t) == "" <==> AllBlank(s)
    ensures Join(t) != "" ==> EdgesNonBlank(Split(Join(t)))
  {
    JoinTidyLines(t);
    if t != [] {
      assert t[0] != "";
    }
  }

  /** Tidy lines join to a string that splits back into them, and to the
      empty string only when there are none. */
  lemma {:induction false} JoinTidyLines(t: seq<string>)
    requires AllTidy(t)
    ensures Join(t) == "" ==> t == [] || t == [""]
    ensures t != [] ==> Split(Join(t)) == t
    ensures AllTidy(Split(Join(t)))
  {
    if t == [] {
      assert Split("") == [""];
    } else {
      SplitJoin(t);
    }
  }

  /** Empty or all-whitespace input cleans to "". */
  lemma {:induction false} BlankInputCleansToEmpty(decoded: string, preserveIndentation: bool)
    requires IsBlank(decoded)
    ensures Cleaned(decoded, preserveIndentation) == ""
  {
    var raw := Split(decoded);
    SplitBlank(decoded);
    forall i | 0 <= i < |raw| ensures StrippedLines(raw)[i] == "" {
      StrippedLineAt(raw, i);
      StripBlankLine(raw[i]);
    }
    BlankEdgesGone(decoded, preserveIndentation);
  }

  // ---------------------------------------------------------------------------
  // The script's own loops
  // ---------------------------------------------------------------------------

  /** `normalizeIndentation(lines)`, with its `for` loop over the non-blank
      lines accumulating `minIndent` from `Infinity`. */
  method NormalizeIndentation(lines: seq<string>) returns (result: seq<string>)
    ensures result == Normalized(lines)
  {
    var nonEmptyLines := NonBlank(lines);
    FilterThenMinimum(lines);
    if |nonEmptyLines| == 0 {
      return lines;
    }
    var minIndent := Infinity;
    for k := 0 to |nonEmptyLines|
      invariant minIndent == MinIndent(nonEmptyLines[..k])
    {
      assert nonEmptyLines[..k + 1][..k] == nonEmptyLines[..k];
      minIndent := MinOf(minIndent, Indent(nonEmptyLines[k]));
    }
    assert nonEmptyLines[..|nonEmptyLines|] == nonEmptyLines;
    if minIndent.value > 0 {
      return seq(|lines|, i requires 0 <= i < |lines| => Dedent(lines[i], minIndent.value));
    }
    return lines;
  }

  /** The `shift` loop, then the `pop` loop, of `cleanCode`. */
  method TrimBlankLines(lines: seq<string>) returns (kept: seq<string>)
    ensures kept == TrimBlankEdges(lines)
  {
    kept := lines;
    ghost var lo := 0;
    while |kept| > 0 && IsBlank(kept[0])
      invariant lo <= |lines| && kept == lines[lo..]
      invariant forall k :: 0 <= k < lo ==> IsBlank(lines[k])
      decreases |kept|
    {
      kept := kept[1..];
      lo := lo + 1;
    }
    ghost var hi := |lines|;
    while |kept| > 0 && IsBlank(kept[|kept| - 1])
      invariant lo <= hi <= |lines| && kept == lines[lo..hi]
      invariant forall k :: hi <= k < |lines| ==> IsBlank(lines[k])
      decreases |kept|
    {
      kept := kept[..|kept| - 1];
      hi := hi - 1;
    }
    TrimBlankEdgesBetween(lines, lo, hi);
  }

  /** The blank-edge trimming keeps `lines[lo..hi]` when everything outside
      is blank and both ends of it are not. */
  lemma {:induction false} TrimBlankEdgesBetween(lines: seq<string>, lo: nat, hi: nat)
    requires lo <= hi <= |lines|
    requires forall k :: 0 <= k < lo ==> IsBlank(lines[k])
    requires forall k :: hi <= k < |lines| ==> IsBlank(lines[k])
    requires lo < |lines| ==> !IsBlank(lines[lo])
    requires lo < hi ==> !IsBlank(lines[hi - 1])
    ensures TrimBlankEdges(lines) == lines[lo..hi]
  {
    var first := SpanFrom(IsBlank, lines, 0);
    assert first == lo;
    var last := SpanBack(IsBlank, lines, lo, |lines|);
    assert last == hi;
  }

  /** `cleanCode(text)` with the current `preserveIndentation` setting:
      decode, split, strip each line, then the `shift` and `pop` loops, then
      optionally `normalizeIndentation`, then join. */
  method CleanCode(decode: string -> string, text: string, preserveIndentation: bool)
    returns (cleaned: string)
    ensures cleaned == Cleaned(decode(text), preserveIndentation)
  {
    var decodedText := decode(text);
    var lines := Split(decodedText);
    var cleanedLines := StrippedLines(lines);
    cleanedLines := TrimBlankLines(cleanedLines);
    if !preserveIndentation {
      cleanedLines := NormalizeIndentation(cleanedLines);
    }
    cleaned := Join(cleanedLines);
  }
}
