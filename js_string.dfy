/**
 * The few JavaScript string built-ins the content script relies on:
 * the `\s` character class (which `trim`, `trimStart` and `trimEnd` share),
 * `split('\n')`, `join('\n')` and `substring(start)`.
 */
module JsString {

  /** JavaScript's `\s`: the WhiteSpace and LineTerminator code points of
      ECMA-262 (sections 12.2 and 12.3). `String.prototype.trim` and
      `trimEnd` strip exactly this set. */
  const WhitespaceChars: set<char> := {
    '\t', '\n', '\U{000B}', '\U{000C}', '\r', ' ', '\U{00A0}', '\U{1680}',
    '\U{2000}', '\U{2001}', '\U{2002}', '\U{2003}', '\U{2004}', '\U{2005}',
    '\U{2006}', '\U{2007}', '\U{2008}', '\U{2009}', '\U{200A}',
    '\U{2028}', '\U{2029}', '\U{202F}', '\U{205F}', '\U{3000}', '\U{FEFF}'
  }

  predicate IsWhitespace(c: char) {
    c in WhitespaceChars
  }

  /** `s.trim() === ''` */
  predicate IsBlank(s: string) {
    forall i :: 0 <= i < |s| ==> IsWhitespace(s[i])
  }

  /** The end of the longest run of elements satisfying `p` that starts
      at `from`: what a greedy `[...]*` consumes from there. */
  function SpanFrom<T>(p: T -> bool, s: seq<T>, from: nat): (n: nat)
    requires from <= |s|
    ensures from <= n <= |s|
    ensures forall i :: from <= i < n ==> p(s[i])
    ensures n < |s| ==> !p(s[n])
    decreases |s| - from
  {
    if from < |s| && p(s[from]) then SpanFrom(p, s, from + 1) else from
  }

  /** The start of the longest run of elements satisfying `p` that ends at
      `until` and does not reach below `floor`. */
  function SpanBack<T>(p: T -> bool, s: seq<T>, floor: nat, until: nat): (n: nat)
    requires floor <= until <= |s|
    ensures floor <= n <= until
    ensures forall i :: n <= i < until ==> p(s[i])
    ensures n > floor ==> !p(s[n - 1])
    decreases until
  {
    if until > floor && p(s[until - 1]) then SpanBack(p, s, floor, until - 1) else until
  }

  /** `s.trimEnd()`: the longest prefix of `s` that does not end in
      whitespace; everything cut off is whitespace. */
  function TrimEnd(s: string): (r: string)
    ensures |r| <= |s| && r == s[..|r|]
    ensures forall i :: |r| <= i < |s| ==> IsWhitespace(s[i])
    ensures r == [] || !IsWhitespace(r[|r| - 1])
  {
    s[..SpanBack(IsWhitespace, s, 0, |s|)]
  }

  /** `s.substring(start)` for a non-negative start: a start past the end gives "". */
  function Substring(s: string, start: nat): string {
    if start <= |s| then s[start..] else ""
  }

  /** Index of the first '\n' in `s`, or `|s|` when there is none. */
  function NewlineIndex(s: string): (i: nat)
    ensures i <= |s|
    ensures forall j :: 0 <= j < i ==> s[j] != '\n'
    ensures i < |s| ==> s[i] == '\n'
    decreases |s|
  {
    if s == [] || s[0] == '\n' then 0 else 1 + NewlineIndex(s[1..])
  }

  /** `s.split('\n')`: always at least one piece, and no piece holds a '\n'. */
  function Split(s: string): (lines: seq<string>)
    ensures |lines| >= 1
    ensures forall k :: 0 <= k < |lines| ==> '\n' !in lines[k]
    decreases |s|
  {
    var i := NewlineIndex(s);
    if i == |s| then [s] else [s[..i]] + Split(s[i + 1..])
  }

  /** `lines.join('\n')`; an empty array joins to "". The result starts
      with the first line. */
  function Join(lines: seq<string>): (r: string)
    ensures |lines| >= 1 ==> |r| >= |lines[0]| && r[..|lines[0]|] == lines[0]
    decreases |lines|
  {
    if lines == [] then ""
    else if |lines| == 1 then lines[0]
    else lines[0] + "\n" + Join(lines[1..])
  }

  /** Joining the pieces of a split gives the string back. */
  lemma {:induction false} JoinSplit(s: string)
    ensures Join(Split(s)) == s
    decreases |s|
  {
    var i := NewlineIndex(s);
    if i < |s| {
      var rest := s[i + 1..];
      var pieces := Split(s);
      JoinSplit(rest);
      assert pieces[0] == s[..i] && pieces[1..] == Split(rest);
      assert Join(pieces) == s[..i] + "\n" + Join(Split(rest));
      assert s == s[..i] + "\n" + rest;
    }
  }

  /** Splitting a join of newline-free lines gives the lines back. */
  lemma {:induction false} SplitJoin(lines: seq<string>)
    requires |lines| >= 1
    requires forall k :: 0 <= k < |lines| ==> '\n' !in lines[k]
    ensures Split(Join(lines)) == lines
    decreases |lines|
  {
    var s := Join(lines);
    if |lines| == 1 {
      NewlineIndexAbsent(lines[0]);
    } else {
      var head, rest := lines[0], Join(lines[1..]);
      assert s == head + "\n" + rest;
      NewlineIndexAfter(head, rest);
      assert s[..|head|] == head;
      assert s[|head| + 1..] == rest;
      SplitJoin(lines[1..]);
      assert lines == [head] + lines[1..];
    }
  }

  lemma {:induction false} NewlineIndexAbsent(s: string)
    requires '\n' !in s
    ensures NewlineIndex(s) == |s|
  {
  }

  lemma {:induction false} NewlineIndexAfter(head: string, rest: string)
    requires '\n' !in head
    ensures NewlineIndex(head + "\n" + rest) == |head|
  {
    var s := head + "\n" + rest;
    assert s[|head|] == '\n';
    forall j | 0 <= j < |head| ensures s[j] != '\n' {
      assert s[j] == head[j] && head[j] in head;
    }
  }

  /** A string of whitespace splits into whitespace-only lines. */
  lemma {:induction false} SplitBlank(s: string)
    requires IsBlank(s)
    ensures forall k :: 0 <= k < |Split(s)| ==> IsBlank(Split(s)[k])
    decreases |s|
  {
    var i := NewlineIndex(s);
    if i < |s| {
      SplitBlank(s[i + 1..]);
    }
  }
}
