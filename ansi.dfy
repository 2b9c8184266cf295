/** Removal of terminal escape sequences from traceback lines, as both
    sandboxes do before reporting an `error` message. The pattern is
    `\x1B(?:[@-Z\\-_]|\[[0-?]*[ -/]*[@-~])`: a two-character Fe escape
    (section 5.3 of ECMA-48) or a control sequence introduced by `ESC [`
    (section 5.4 of ECMA-48), removed left to right as Python's `re.sub`
    does. */
module Ansi {
  import opened Common

  const ESC: char := '\U{1B}'

  /** The second character of a Fe escape: `[@-Z]` or the range `\` .. `_`
      (Python reads `\\-_` inside the class as a range, so `[` is excluded). */
  predicate IsFeFinal(c: char) { ('@' <= c <= 'Z') || ('\\' <= c <= '_') }

  /** Parameter bytes `[0-?]`, intermediate bytes `[ -/]` and final bytes `[@-~]`
      of a control sequence. */
  predicate IsParameter(c: char) { '0' <= c <= '?' }
  predicate IsIntermediate(c: char) { ' ' <= c <= '/' }
  predicate IsCsiFinal(c: char) { '@' <= c <= '~' }

  /** First index at or after `j` that is not a parameter byte. */
  function ParametersEnd(s: string, j: nat): (k: nat)
    requires j <= |s|
    ensures j <= k <= |s|
    ensures forall x :: j <= x < k ==> IsParameter(s[x])
    ensures k < |s| ==> !IsParameter(s[k])
    decreases |s| - j
  {
    if j < |s| && IsParameter(s[j]) then ParametersEnd(s, j + 1) else j
  }

  /** First index at or after `j` that is not an intermediate byte. */
  function IntermediatesEnd(s: string, j: nat): (k: nat)
    requires j <= |s|
    ensures j <= k <= |s|
    ensures forall x :: j <= x < k ==> IsIntermediate(s[x])
    ensures k < |s| ==> !IsIntermediate(s[k])
    decreases |s| - j
  {
    if j < |s| && IsIntermediate(s[j]) then IntermediatesEnd(s, j + 1) else j
  }

  /** Length of the escape sequence matched at the start of `s`, or 0 when
      the pattern does not match there. Greedy repetition gives the only
      possible match: parameter, intermediate and final bytes are disjoint
      ranges, so giving characters back never lets the final byte match. */
  function EscapeLength(s: string): (n: nat)
    ensures n == 0 || 2 <= n <= |s|
    ensures n > 0 ==> s[0] == ESC
  {
    if |s| < 2 || s[0] != ESC then 0
    else if IsFeFinal(s[1]) then 2
    else if s[1] != '[' then 0
    else
      var k := IntermediatesEnd(s, ParametersEnd(s, 2));
      if k < |s| && IsCsiFinal(s[k]) then k + 1 else 0
  }

  /** Whether `e`, as a whole, is matched by the pattern: ESC and a Fe
      final byte, or ESC, `[`, parameter and intermediate bytes with no
      parameter byte after an intermediate one (`[0-?]*[ -/]*`), and a
      final byte. */
  predicate IsEscape(e: string)
  {
    && |e| >= 2 && e[0] == ESC
    && ((|e| == 2 && IsFeFinal(e[1])) ||
        (&& |e| >= 3 && e[1] == '[' && IsCsiFinal(e[|e| - 1])
         && (forall x :: 2 <= x < |e| - 1 ==> IsParameter(e[x]) || IsIntermediate(e[x]))
         && (forall x, y :: 2 <= x < y < |e| - 1 && IsIntermediate(e[x]) ==> !IsParameter(e[y]))))
  }

  /** `EscapeLength` is the match of the pattern at the start of `s`: a
      positive length is a match, and it is the only one, so no match is
      missed when the length is 0. */
  lemma EscapeLengthMatches(s: string)
    ensures EscapeLength(s) > 0 ==> IsEscape(s[..EscapeLength(s)])
    ensures forall m :: 0 < m <= |s| && IsEscape(s[..m]) ==> m == EscapeLength(s)
  {
    var n := EscapeLength(s);
    if n > 2 {
      EscapeLengthSound(s);
    }
    forall m | 0 < m <= |s| && IsEscape(s[..m])
      ensures m == n
    {
      EscapeLengthComplete(s, m);
    }
  }

  lemma EscapeLengthSound(s: string)
    requires EscapeLength(s) > 2
    ensures IsEscape(s[..EscapeLength(s)])
  {
    var n := EscapeLength(s);
    var e := s[..n];
    var p := ParametersEnd(s, 2);
    var k := IntermediatesEnd(s, p);
    assert n == k + 1;
    assert forall x :: 2 <= x < p ==> IsParameter(e[x]);
    assert forall x :: p <= x < k ==> IsIntermediate(e[x]);
    forall x, y | 2 <= x < y < n - 1 && IsIntermediate(e[x])
      ensures !IsParameter(e[y])
    {
      assert x >= p;
    }
  }

  lemma EscapeLengthComplete(s: string, m: nat)
    requires 0 < m <= |s| && IsEscape(s[..m])
    ensures m == EscapeLength(s)
  {
    var e := s[..m];
    if m > 2 {
      assert s[1] == e[1] == '[';
      var p := ParametersEnd(s, 2);
      assert !IsParameter(s[m - 1]);
      assert p <= m - 1;
      forall y | p <= y < m - 1
        ensures IsIntermediate(s[y])
      {
        assert !IsParameter(s[p]);
        assert IsIntermediate(e[p]);
        assert IsParameter(e[y]) || IsIntermediate(e[y]);
      }
      var k := IntermediatesEnd(s, p);
      assert !IsIntermediate(s[m - 1]);
      assert k == m - 1;
    }
  }

  /** An escape at the head of a line is removed and the rest stripped. */
  lemma AnsiStripDropsEscape(e: string, t: string)
    requires IsEscape(e)
    ensures AnsiStrip(e + t) == AnsiStrip(t)
  {
    var s := e + t;
    assert s[..|e|] == e;
    EscapeLengthMatches(s);
    assert s[|e|..] == t;
  }

  /** A colour code in front of a word is removed. */
  lemma StripsColourCode()
    ensures AnsiStrip([ESC, '[', '3', '1', 'm'] + "x") == "x"
  {
    var e := [ESC, '[', '3', '1', 'm'];
    assert IsEscape(e);
    AnsiStripDropsEscape(e, "x");
    assert AnsiStrip("x") == "x" + AnsiStrip("");
  }

  /** `_ansi_strip`: every match removed, scanning left to right. */
  function AnsiStrip(s: string): string
    decreases |s|
  {
    if s == [] then ""
    else
      var n := EscapeLength(s);
      if n > 0 then AnsiStrip(s[n..]) else [s[0]] + AnsiStrip(s[1..])
  }

  /** Only characters of the input are kept, in their order. */
  lemma {:induction false} AnsiStripIsSubsequence(s: string)
    ensures IsSubsequence(AnsiStrip(s), s)
    decreases |s|
  {
    if s != [] {
      var n := EscapeLength(s);
      if n > 0 {
        AnsiStripIsSubsequence(s[n..]);
        SubsequenceSkip(AnsiStrip(s[n..]), s[..n], s[n..]);
        assert s[..n] + s[n..] == s;
      } else {
        AnsiStripIsSubsequence(s[1..]);
        SubsequenceCons(s[0], AnsiStrip(s[1..]), s[1..]);
        assert [s[0]] + s[1..] == s;
      }
    }
  }

  /** A line without ESC is returned unchanged. */
  lemma {:induction false} AnsiStripWithoutEscape(s: string)
    requires ESC !in s
    ensures AnsiStrip(s) == s
    decreases |s|
  {
    if s != [] {
      assert s[0] != ESC;
      assert ESC !in s[1..];
      AnsiStripWithoutEscape(s[1..]);
      assert [s[0]] + s[1..] == s;
    }
  }

  /** A character that can never be part of a match: neither ESC nor
      printable ASCII (line breaks, tabs, non-ASCII text). */
  predicate IsPreserved(c: char) { c != ESC && !(' ' <= c <= '~') }

  /** Removed runs consist of ESC and printable ASCII only, so every other
      character -- in particular every line break -- survives, each
      occurrence of it. */
  lemma {:induction false} AnsiStripKeepsOtherCharacters(s: string, c: char)
    requires IsPreserved(c)
    ensures multiset(AnsiStrip(s))[c] == multiset(s)[c]
    decreases |s|
  {
    if s != [] {
      var n := EscapeLength(s);
      if n > 0 {
        AnsiStripKeepsOtherCharacters(s[n..], c);
        EscapeHasNo(s, n, c);
        CountSplit(s, n, c);
      } else {
        AnsiStripKeepsOtherCharacters(s[1..], c);
        CountSplit(s, 1, c);
        CountCons(s[0], AnsiStrip(s[1..]), c);
      }
    }
  }

  lemma CountSplit(s: string, n: nat, c: char)
    requires n <= |s|
    ensures multiset(s)[c] == multiset(s[..n])[c] + multiset(s[n..])[c]
  {
    assert s == s[..n] + s[n..];
  }

  lemma CountCons(x: char, t: string, c: char)
    ensures multiset([x] + t)[c] == multiset([x])[c] + multiset(t)[c]
  {
  }

  lemma EscapeHasNo(s: string, n: nat, c: char)
    requires n > 0 && n == EscapeLength(s) && IsPreserved(c)
    ensures multiset(s[..n])[c] == 0
  {
    if IsFeFinal(s[1]) {
      assert s[..n] == [s[0], s[1]];
    } else {
      var p := ParametersEnd(s, 2);
      var k := IntermediatesEnd(s, p);
      assert forall x :: 0 <= x < n ==> s[x] == ESC || (' ' <= s[x] <= '~');
      assert c !in s[..n];
    }
  }

  /** `_format_traceback`: the stripped lines joined by line breaks. */
  function FormatTraceback(lines: seq<string>): string
  {
    Join(StripEach(lines), "\n")
  }

  function StripEach(lines: seq<string>): (r: seq<string>)
    ensures |r| == |lines|
    ensures forall i :: 0 <= i < |lines| ==> r[i] == AnsiStrip(lines[i])
  {
    if lines == [] then [] else [AnsiStrip(lines[0])] + StripEach(lines[1..])
  }

  /** An empty traceback formats to the empty string, and a traceback
      without escapes is just its lines joined by line breaks. */
  lemma {:induction false} FormatTracebackPlain(lines: seq<string>)
    requires forall i :: 0 <= i < |lines| ==> ESC !in lines[i]
    ensures FormatTraceback(lines) == Join(lines, "\n")
    ensures lines == [] ==> FormatTraceback(lines) == ""
  {
    forall i | 0 <= i < |lines| ensures AnsiStrip(lines[i]) == lines[i] {
      AnsiStripWithoutEscape(lines[i]);
    }
    assert StripEach(lines) == lines;
  }

  /** The formatted traceback only deletes characters from the plain join. */
  lemma {:induction false} FormatTracebackIsSubsequence(lines: seq<string>)
    ensures IsSubsequence(FormatTraceback(lines), Join(lines, "\n"))
    decreases |lines|
  {
    if lines == [] {
    } else if |lines| == 1 {
      AnsiStripIsSubsequence(lines[0]);
    } else {
      FormatTracebackIsSubsequence(lines[1..]);
      AnsiStripIsSubsequence(lines[0]);
      assert StripEach(lines)[1..] == StripEach(lines[1..]);
      SubsequenceRefl("\n");
      SubsequenceConcat(AnsiStrip(lines[0]), lines[0], "\n", "\n");
      SubsequenceConcat(AnsiStrip(lines[0]) + "\n", lines[0] + "\n",
                        FormatTraceback(lines[1..]), Join(lines[1..], "\n"));
    }
  }
}
