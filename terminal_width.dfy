/**
 * The column width a menu label takes on the terminal. ANSI escape sequences
 * are removed first; then every code point above 127 counts two columns (a
 * deliberate approximation for CJK characters and emoji) and every other one
 * counts one.
 *
 * The escape sequences removed are those of the pattern
 *   ESC ( [@-Z\-_] | "[" [0-?]* [ -/]* [@-~] )
 * that is, ESC and one character in '@'..'Z' or '\'..'_', or a control
 * sequence: ESC '[', parameter characters '0'..'?', intermediate characters
 * ' '..'/', and one final character '@'..'~'.
 */
module TerminalWidth {

  const Esc: char := '\U{1B}'

  predicate IsShortFinal(c: char) { '@' <= c <= 'Z' || '\\' <= c <= '_' }
  predicate IsParameter(c: char) { '0' <= c <= '?' }
  predicate IsIntermediate(c: char) { ' ' <= c <= '/' }
  predicate IsFinal(c: char) { '@' <= c <= '~' }

  /** `t` is a control sequence: ESC '[', parameters, then intermediates, then a final character. */
  predicate IsControlSequence(t: seq<char>) {
    && |t| >= 3 && t[0] == Esc && t[1] == '[' && IsFinal(t[|t| - 1])
    && (forall i :: 2 <= i < |t| - 1 ==> IsParameter(t[i]) || IsIntermediate(t[i]))
    && (forall i, j :: 2 <= i < j < |t| - 1 ==> !(IsIntermediate(t[i]) && IsParameter(t[j])))
  }

  /** `t` is, in full, one match of the escape pattern. */
  predicate IsEscapeSequence(t: seq<char>) {
    (|t| == 2 && t[0] == Esc && IsShortFinal(t[1])) || IsControlSequence(t)
  }

  /** The end of the run of parameter characters starting at `i`. */
  function SkipParameters(s: seq<char>, i: nat): (j: nat)
    requires i <= |s|
    ensures i <= j <= |s|
    ensures forall k :: i <= k < j ==> IsParameter(s[k])
    ensures j < |s| ==> !IsParameter(s[j])
    decreases |s| - i
  {
    if i < |s| && IsParameter(s[i]) then SkipParameters(s, i + 1) else i
  }

  /** The end of the run of intermediate characters starting at `i`. */
  function SkipIntermediates(s: seq<char>, i: nat): (j: nat)
    requires i <= |s|
    ensures i <= j <= |s|
    ensures forall k :: i <= k < j ==> IsIntermediate(s[k])
    ensures j < |s| ==> !IsIntermediate(s[j])
    decreases |s| - i
  {
    if i < |s| && IsIntermediate(s[i]) then SkipIntermediates(s, i + 1) else i
  }

  /**
   * The length of the escape sequence at the start of `s`, 0 when there is
   * none: the pattern's first alternative is tried first, and the runs of the
   * second are taken greedily.
   */
  function EscapeAt(s: seq<char>): (n: nat)
    ensures n <= |s|
    ensures n > 0 ==> n >= 2 && s[0] == Esc
  {
    if |s| >= 2 && s[0] == Esc && IsShortFinal(s[1]) then 2
    else if |s| >= 2 && s[0] == Esc && s[1] == '[' then
      var p := SkipParameters(s, 2);
      var q := SkipIntermediates(s, p);
      if q < |s| && IsFinal(s[q]) then q + 1 else 0
    else 0
  }

  /** What EscapeAt finds is an escape sequence. */
  lemma EscapeAtFindsSequence(s: seq<char>)
    requires EscapeAt(s) > 0
    ensures IsEscapeSequence(s[..EscapeAt(s)])
  {
  }

  /** An escape sequence at the start of `s` is exactly what EscapeAt finds: matches are unique. */
  lemma EscapeAtIsTheSequence(s: seq<char>, n: nat)
    requires 0 < n <= |s|
    requires IsEscapeSequence(s[..n])
    ensures EscapeAt(s) == n
  {
  }

  /** The text left once every escape sequence is removed, scanning from the left. */
  function StripAnsi(s: seq<char>): (clean: seq<char>)
    ensures |clean| <= |s|
    decreases |s|
  {
    if s == [] then []
    else
      var n := EscapeAt(s);
      if n > 0 then StripAnsi(s[n..]) else [s[0]] + StripAnsi(s[1..])
  }

  /** Text without ESC has nothing to strip. */
  lemma {:induction false} StripAnsiWithoutEsc(s: seq<char>)
    requires Esc !in s
    ensures StripAnsi(s) == s
    decreases |s|
  {
    if s != [] {
      StripAnsiWithoutEsc(s[1..]);
      assert [s[0]] + s[1..] == s;
    }
  }

  /** An escape sequence in front of some text is removed and the text is untouched. */
  lemma StripAnsiLeadingSequence(e: seq<char>, s: seq<char>)
    requires IsEscapeSequence(e)
    ensures StripAnsi(e + s) == StripAnsi(s)
  {
    assert (e + s)[..|e|] == e;
    EscapeAtIsTheSequence(e + s, |e|);
    assert (e + s)[|e|..] == s;
  }

  /** Columns one character takes. */
  function CharColumns(c: char): nat {
    if c as int > 127 then 2 else 1
  }

  /** Columns of text with nothing left to strip, summed from the left. */
  function Columns(t: seq<char>): (w: nat)
    ensures |t| <= w <= 2 * |t|
    decreases |t|
  {
    if t == [] then 0 else Columns(t[..|t| - 1]) + CharColumns(t[|t| - 1])
  }

  /** Columns add up over concatenation. */
  lemma {:induction false} ColumnsAppend(a: seq<char>, b: seq<char>)
    ensures Columns(a + b) == Columns(a) + Columns(b)
    decreases |b|
  {
    if b == [] {
      assert a + b == a;
    } else {
      ColumnsAppend(a, b[..|b| - 1]);
      assert (a + b)[..|a + b| - 1] == a + b[..|b| - 1];
    }
  }

  /** Only code points up to 127 means one column each. */
  lemma {:induction false} ColumnsOfAscii(t: seq<char>)
    requires forall i :: 0 <= i < |t| ==> t[i] as int <= 127
    ensures Columns(t) == |t|
    decreases |t|
  {
    if t != [] {
      ColumnsOfAscii(t[..|t| - 1]);
    }
  }

  /** `get_display_width`: the columns of a label once its escape sequences are removed. */
  function DisplayWidthOf(s: seq<char>): (width: nat)
    ensures |StripAnsi(s)| <= width <= 2 * |StripAnsi(s)|
    ensures width <= 2 * |s|
  {
    Columns(StripAnsi(s))
  }

  /** Plain ASCII text without escapes is as wide as it is long. */
  lemma DisplayWidthOfPlainAscii(s: seq<char>)
    requires forall i :: 0 <= i < |s| ==> s[i] as int <= 127 && s[i] != Esc
    ensures DisplayWidthOf(s) == |s|
  {
    StripAnsiWithoutEsc(s);
    ColumnsOfAscii(s);
  }

  /** An escape sequence takes no columns, wherever it stands in front of text. */
  lemma EscapeSequenceIsInvisible(e: seq<char>, s: seq<char>)
    requires IsEscapeSequence(e)
    ensures DisplayWidthOf(e + s) == DisplayWidthOf(s)
    ensures DisplayWidthOf(e) == 0
  {
    StripAnsiLeadingSequence(e, s);
    StripAnsiLeadingSequence(e, []);
    assert e + [] == e;
  }

  /** A character in front of text that starts no escape sequence keeps its own columns. */
  lemma KeptCharColumns(s: seq<char>)
    requires |s| > 0 && EscapeAt(s) == 0
    ensures DisplayWidthOf(s) == CharColumns(s[0]) + DisplayWidthOf(s[1..])
  {
    assert StripAnsi(s) == [s[0]] + StripAnsi(s[1..]);
    ColumnsAppend([s[0]], StripAnsi(s[1..]));
    assert Columns([s[0]]) == Columns([]) + CharColumns(s[0]);
  }

  /** An ESC that begins no match of the pattern is kept and counts one column. */
  lemma UnmatchedEscCountsOne(s: seq<char>)
    requires |s| > 0 && s[0] == Esc
    requires forall n :: 0 < n <= |s| ==> !IsEscapeSequence(s[..n])
    ensures DisplayWidthOf(s) == 1 + DisplayWidthOf(s[1..])
  {
    if EscapeAt(s) > 0 {
      EscapeAtFindsSequence(s);
      assert false;
    }
    KeptCharColumns(s);
  }

  /** A code point above 127 counts two columns wherever it stands at the front. */
  lemma WideCharCountsTwo(c: char, s: seq<char>)
    requires c as int > 127
    ensures Columns([c]) == 2
    ensures DisplayWidthOf([c] + s) == 2 + DisplayWidthOf(s)
  {
    assert Columns([c]) == Columns([]) + CharColumns(c);
    KeptCharColumns([c] + s);
    assert ([c] + s)[1..] == s;
  }

  /** `n` spaces, `" " * n`. */
  function Spaces(n: nat): (r: seq<char>)
    ensures |r| == n
    ensures forall i :: 0 <= i < n ==> r[i] == ' '
  {
    seq(n, _ => ' ')
  }

  /**
   * Spaces appended to text never complete an escape sequence (a space is
   * never a final character), so they do not change what is stripped.
   */
  lemma EscapeAtAppendSpaces(a: seq<char>, n: nat)
    requires |a| > 0
    ensures EscapeAt(a + Spaces(n)) == EscapeAt(a)
  {
    var s := a + Spaces(n);
    var m := EscapeAt(a);
    if m > 0 {
      EscapeAtFindsSequence(a);
      assert s[..m] == a[..m];
      EscapeAtIsTheSequence(s, m);
    } else {
      var k := EscapeAt(s);
      if k > 0 {
        EscapeAtFindsSequence(s);
        if k <= |a| {
          assert s[..k] == a[..k];
          EscapeAtIsTheSequence(a, k);
          assert false;
        } else {
          assert false;
        }
      }
    }
  }

  lemma {:induction false} StripAnsiAppendSpaces(a: seq<char>, n: nat)
    ensures StripAnsi(a + Spaces(n)) == StripAnsi(a) + Spaces(n)
    decreases |a|
  {
    var s := a + Spaces(n);
    if a == [] {
      assert s == Spaces(n);
      StripAnsiWithoutEsc(Spaces(n));
    } else {
      EscapeAtAppendSpaces(a, n);
      var m := EscapeAt(a);
      if m > 0 {
        calc {
          StripAnsi(s);
          StripAnsi(s[m..]);
          { assert s[m..] == a[m..] + Spaces(n); }
          StripAnsi(a[m..] + Spaces(n));
          { StripAnsiAppendSpaces(a[m..], n); }
          StripAnsi(a[m..]) + Spaces(n);
        }
      } else {
        calc {
          StripAnsi(s);
          [s[0]] + StripAnsi(s[1..]);
          { assert s[1..] == a[1..] + Spaces(n); }
          [a[0]] + StripAnsi(a[1..] + Spaces(n));
          { StripAnsiAppendSpaces(a[1..], n); }
          [a[0]] + (StripAnsi(a[1..]) + Spaces(n));
        }
      }
    }
  }

  /** Padding a label with `n` spaces widens it by exactly `n` columns. */
  lemma DisplayWidthAppendSpaces(a: seq<char>, n: nat)
    ensures DisplayWidthOf(a + Spaces(n)) == DisplayWidthOf(a) + n
  {
    StripAnsiAppendSpaces(a, n);
    ColumnsAppend(StripAnsi(a), Spaces(n));
    ColumnsOfAscii(Spaces(n));
  }

  /** `get_display_width`, summing column by column over the stripped text. */
  method DisplayWidth(s: string) returns (width: nat)
    ensures width == DisplayWidthOf(s)
  {
    var cleanS := StripAnsi(s);
    width := 0;
    for i := 0 to |cleanS|
      invariant width == Columns(cleanS[..i])
    {
      if cleanS[i] as int > 127 {
        width := width + 2;
      } else {
        width := width + 1;
      }
      assert cleanS[..i + 1][..i] == cleanS[..i];
    }
    assert cleanS[..|cleanS|] == cleanS;
  }

  /** "abc" is three columns, a lone CJK character two, and the colour code ESC "[32m" none. */
  lemma DisplayWidthExamples()
    ensures DisplayWidthOf("abc") == 3
    ensures DisplayWidthOf("\U{4E2D}") == 2
    ensures DisplayWidthOf("\U{1B}[32m") == 0
    ensures DisplayWidthOf("\U{1B}") == 1
  {
    DisplayWidthOfPlainAscii("abc");
    var green := "\U{1B}[32m";
    assert IsControlSequence(green);
    EscapeSequenceIsInvisible(green, []);
    assert green + [] == green;
  }
}
