/** The two tag-repair passes applied to model output before it is
    rendered, and the literal string removal that follows them.

    Both passes walk the matches of the global regular expression
    `/<\/?(\w+)(?:\s[^>]*)?>/g` (ECMAScript `RegExp.prototype.exec`,
    section 22.2.7.2 of ECMA-262: each search starts where the previous
    match ended and finds the leftmost match) and keep a stack of the
    names of tags that are still open. */
module XmlRepair {
  import opened Common

  /** `\w`: ASCII letters, digits and underscore. */
  predicate IsWordChar(c: char)
  {
    ('a' <= c <= 'z') || ('A' <= c <= 'Z') || ('0' <= c <= '9') || c == '_'
  }

  /** `\s`: the white space and line terminators of sections 12.2 and
      12.3 of ECMA-262. */
  const Spaces: set<char> := {
    '\t', '\n', '\U{0B}', '\U{0C}', '\r', ' ', '\U{A0}', '\U{1680}',
    '\U{2000}', '\U{2001}', '\U{2002}', '\U{2003}', '\U{2004}', '\U{2005}',
    '\U{2006}', '\U{2007}', '\U{2008}', '\U{2009}', '\U{200A}',
    '\U{2028}', '\U{2029}', '\U{202F}', '\U{205F}', '\U{3000}', '\U{FEFF}' }

  predicate IsSpace(c: char) { c in Spaces }

  predicate IsName(s: string)
  {
    s != [] && forall k :: 0 <= k < |s| ==> IsWordChar(s[k])
  }

  /** End of the run of word characters starting at `j`. */
  function WordEnd(text: string, j: nat): (k: nat)
    requires j <= |text|
    ensures j <= k <= |text|
    decreases |text| - j
  {
    if j < |text| && IsWordChar(text[j]) then WordEnd(text, j + 1) else j
  }

  /** `WordEnd` ends the longest run: every character before it is a
      word character, and the one at it is not. */
  lemma {:induction false} WordEndRun(text: string, j: nat)
    requires j <= |text|
    ensures forall x :: j <= x < WordEnd(text, j) ==> IsWordChar(text[x])
    ensures WordEnd(text, j) < |text| ==> !IsWordChar(text[WordEnd(text, j)])
    decreases |text| - j
  {
    if j < |text| && IsWordChar(text[j]) {
      WordEndRun(text, j + 1);
    }
  }

  /** Index of the first `>` at or after `j`, or `|text|`. */
  function FirstGt(text: string, j: nat): (k: nat)
    requires j <= |text|
    ensures j <= k <= |text|
    ensures k < |text| ==> text[k] == '>'
    decreases |text| - j
  {
    if j < |text| && text[j] != '>' then FirstGt(text, j + 1) else j
  }

  /** No `>` comes before the one `FirstGt` finds. */
  lemma {:induction false} FirstGtIsFirst(text: string, j: nat, x: nat)
    requires j <= |text| && j <= x < FirstGt(text, j)
    ensures text[x] != '>'
    decreases x - j
  {
    if j < x {
      FirstGtIsFirst(text, j + 1, x);
    }
  }

  lemma {:induction false} FirstGtAtMost(text: string, j: nat, g: nat)
    requires j <= g < |text| && text[g] == '>'
    ensures FirstGt(text, j) <= g
    decreases g - j
  {
    if j < g && text[j] != '>' {
      FirstGtAtMost(text, j + 1, g);
    }
  }

  /** One match: the captured name, whether the match starts with `</`,
      whether it ends with `/>`, and the half-open range it covers. */
  datatype Tag = Tag(name: string, closing: bool, selfClosing: bool, start: nat, end: nat)

  /** Start of the name inside a match. */
  function NameStart(t: Tag): nat { t.start + if t.closing then 2 else 1 }

  /** The match of the expression that starts at `i`, if any. The
      expression can match in only one way: the optional `/` is taken
      when present (the name cannot start with `/`), the name is the whole
      run of word characters (a shorter run is followed by a word
      character, which is neither `\s` nor `>`), and the attribute part,
      when the name is followed by white space, runs to the first `>`.
      So `<br/>` is not a match, while `<br />` is one ending in `/>`. */
  function MatchAt(text: string, i: nat): (m: Option<Tag>)
    ensures m.Some? ==> m.value.start == i && i < m.value.end <= |text|
  {
    if i >= |text| || text[i] != '<' then None
    else
      var ns := if i + 1 < |text| && text[i + 1] == '/' then i + 2 else i + 1;
      var e := WordEnd(text, ns);
      if e == ns || e == |text| then None
      else if text[e] == '>' then Some(Tag(text[ns..e], ns == i + 2, text[e - 1] == '/', i, e + 1))
      else if IsSpace(text[e]) && FirstGt(text, e + 1) < |text| then
        var g := FirstGt(text, e + 1);
        Some(Tag(text[ns..e], ns == i + 2, text[g - 1] == '/', i, g + 1))
      else None
  }

  /** The shape of every match: `<`, an optional `/`, a name of word
      characters followed by `>` or by white space, and everything up to
      the first `>` after the name. */
  lemma MatchShape(text: string, i: nat)
    requires MatchAt(text, i).Some?
    ensures var t := MatchAt(text, i).value;
      var ne := NameStart(t) + |t.name|;
      && ne < t.end
      && text[i] == '<' && (t.closing <==> text[i + 1] == '/')
      && IsName(t.name) && text[NameStart(t)..ne] == t.name
      && (text[ne] == '>' || IsSpace(text[ne]))
      && text[t.end - 1] == '>' && (forall x :: ne <= x < t.end - 1 ==> text[x] != '>')
      && (t.selfClosing <==> text[t.end - 2] == '/')
  {
    var t := MatchAt(text, i).value;
    var ns := if i + 1 < |text| && text[i + 1] == '/' then i + 2 else i + 1;
    var e := WordEnd(text, ns);
    WordEndRun(text, ns);
    assert NameStart(t) == ns && t.name == text[ns..e];
    assert ns + |t.name| == e;
    if text[e] == '>' {
      assert t.end == e + 1;
    } else {
      var g := FirstGt(text, e + 1);
      assert t.end == g + 1;
      forall x | e <= x < g ensures text[x] != '>' {
        if x > e {
          FirstGtIsFirst(text, e + 1, x);
        }
      }
    }
  }

  /** `tagRegex.exec(text)` with `lastIndex == from`: the leftmost match
      starting at or after `from`. */
  function NextMatch(text: string, from: nat): (m: Option<Tag>)
    requires from <= |text|
    ensures m.Some? ==> from <= m.value.start && MatchAt(text, m.value.start) == m
    decreases |text| - from
  {
    if from == |text| then None
    else match MatchAt(text, from)
      case Some(t) => Some(t)
      case None => NextMatch(text, from + 1)
  }

  /** The match found is the leftmost one: no match starts between
      `from` and it, and none at all when there is no match. */
  lemma {:induction false} NextMatchLeftmost(text: string, from: nat, j: nat)
    requires from <= j < |text|
    requires NextMatch(text, from).Some? ==> j < NextMatch(text, from).value.start
    ensures MatchAt(text, j).None?
    decreases j - from
  {
    if from < j {
      NextMatchLeftmost(text, from + 1, j);
    }
  }

  /** `openTags.lastIndexOf(name)`. */
  function LastIndexOf(stack: seq<string>, name: string): (k: int)
    ensures -1 <= k < |stack|
    ensures k >= 0 ==> stack[k] == name && forall j :: k < j < |stack| ==> stack[j] != name
    ensures k == -1 ==> name !in stack
    decreases |stack|
  {
    if stack == [] then -1
    else if stack[|stack| - 1] == name then |stack| - 1
    else LastIndexOf(stack[..|stack| - 1], name)
  }

  /** How one match changes the stack of open names: a closing tag
      removes the most recent open tag of its name wherever it sits in the
      stack (nothing when there is none), an opening tag not ending in
      `/>` is pushed, and a self-closing one changes nothing. */
  function Step(stack: seq<string>, t: Tag): (r: seq<string>)
    ensures t.closing && t.name in stack ==>
      var k := LastIndexOf(stack, t.name);
      r == stack[..k] + stack[k + 1..]
    ensures t.closing && t.name !in stack ==> r == stack
    ensures !t.closing && !t.selfClosing ==> r == stack + [t.name]
    ensures !t.closing && t.selfClosing ==> r == stack
  {
    if t.closing then
      var k := LastIndexOf(stack, t.name);
      if k != -1 then stack[..k] + stack[k + 1..]
      else stack
    else if !t.selfClosing then stack + [t.name]
    else stack
  }

  /** The stack after every match from `from` on. */
  function OpenAfter(text: string, from: nat, stack: seq<string>): seq<string>
    requires from <= |text|
    decreases |text| - from
  {
    match NextMatch(text, from)
    case None => stack
    case Some(t) => OpenAfter(text, t.end, Step(stack, t))
  }

  /** Where the text after the last match begins. */
  function Rest(text: string, from: nat): (r: nat)
    requires from <= |text|
    ensures from <= r <= |text|
    decreases |text| - from
  {
    match NextMatch(text, from)
    case None => from
    case Some(t) => Rest(text, t.end)
  }

  /** The closing tags for a stack, innermost (last pushed) first. */
  function Closers(stack: seq<string>): string
    decreases |stack|
  {
    if stack == [] then ""
    else "</" + stack[|stack| - 1] + ">" + Closers(stack[..|stack| - 1])
  }

  /** What `completeUnclosedXmlTags` returns. */
  function Completed(text: string): string
  {
    text + Closers(OpenAfter(text, 0, []))
  }

  /** `completeUnclosedXmlTags`: the text, followed by one closing tag
      per tag still open after the last match, in reverse order of
      opening. */
  method CompleteUnclosedXmlTags(text: string) returns (r: string)
    ensures r == Completed(text)
  {
    var result, openTags := ScanTags(text);
    result := PushClosers(result, openTags);
    r := Join(result, "");
  }

  method ScanTags(text: string) returns (result: seq<string>, openTags: seq<string>)
    ensures Join(result, "") == text
    ensures openTags == OpenAfter(text, 0, [])
  {
    openTags := [];
    result := [];
    var currentIndex := 0;
    var m := NextMatch(text, 0);
    while m.Some?
      invariant currentIndex <= |text|
      invariant m == NextMatch(text, currentIndex)
      invariant Join(result, "") == text[..currentIndex]
      invariant OpenAfter(text, currentIndex, openTags) == OpenAfter(text, 0, [])
      decreases |text| - currentIndex
    {
      var t := m.value;
      ghost var before := openTags;
      OpenAfterUnfold(text, currentIndex, openTags);
      JoinAppend(result, text[currentIndex..t.start]);
      result := result + [text[currentIndex..t.start]];
      if t.closing {
        var k := LastIndexOf(openTags, t.name);
        if k != -1 {
          openTags := openTags[..k] + openTags[k + 1..];
        }
      } else if !t.selfClosing {
        openTags := openTags + [t.name];
      }
      assert openTags == Step(before, t);
      JoinAppend(result, text[t.start..t.end]);
      result := result + [text[t.start..t.end]];
      SliceJoin(text, currentIndex, t.start, t.end);
      currentIndex := t.end;
      m := NextMatch(text, currentIndex);
    }
    OpenAfterUnfold(text, currentIndex, openTags);
    JoinAppend(result, text[currentIndex..]);
    result := result + [text[currentIndex..]];
    SliceJoin(text, currentIndex, |text|, |text|);
  }

  /** The loop `for (i = openTags.length - 1; i >= 0; i--)` pushing
      `</name>` for each name still open. */
  method PushClosers(pieces: seq<string>, openTags: seq<string>) returns (result: seq<string>)
    ensures Join(result, "") == Join(pieces, "") + Closers(openTags)
  {
    result := pieces;
    assert openTags[..|openTags|] == openTags;
    var i := |openTags| - 1;
    while i >= 0
      invariant -1 <= i < |openTags|
      invariant Join(result, "") + Closers(openTags[..i + 1]) == Join(pieces, "") + Closers(openTags)
      decreases i
    {
      ClosersUnfold(openTags, i);
      JoinAppend(result, "</" + openTags[i] + ">");
      result := result + ["</" + openTags[i] + ">"];
      i := i - 1;
    }
    assert openTags[..0] == [];
  }

  /** One step of the scan. */
  lemma OpenAfterUnfold(text: string, from: nat, stack: seq<string>)
    requires from <= |text|
    ensures NextMatch(text, from).None? ==> OpenAfter(text, from, stack) == stack
    ensures NextMatch(text, from).Some? ==> var t := NextMatch(text, from).value;
      OpenAfter(text, from, stack) == OpenAfter(text, t.end, Step(stack, t))
  {
  }

  lemma RemovedUnfold(text: string, from: nat, stack: seq<string>)
    requires from <= |text|
    ensures NextMatch(text, from).None? ==> RemovedFrom(text, from, stack) == text[from..]
    ensures NextMatch(text, from).Some? ==> var t := NextMatch(text, from).value;
      RemovedFrom(text, from, stack) ==
        text[from..t.start] + (if Dropped(stack, t) then "" else text[t.start..t.end]) +
        RemovedFrom(text, t.end, Step(stack, t))
  {
  }

  lemma Assoc4(a: string, b: string, c: string, d: string)
    ensures a + b + c + d == a + (b + c + d)
  {
  }

  lemma SliceSplit(text: string, a: nat, b: nat, c: nat)
    requires a <= b <= c <= |text|
    ensures text[a..] == text[a..b] + text[b..c] + text[c..]
  {
  }

  lemma SliceJoin(text: string, a: nat, b: nat, c: nat)
    requires a <= b <= c <= |text|
    ensures text[..a] + text[a..b] + text[b..c] == text[..c]
  {
  }

  lemma ClosersUnfold(stack: seq<string>, i: nat)
    requires i < |stack|
    ensures Closers(stack[..i + 1]) == "</" + stack[i] + ">" + Closers(stack[..i])
  {
    assert stack[..i + 1][..i] == stack[..i];
  }

  /** A closing tag is dropped when no open tag of its name precedes it. */
  predicate Dropped(stack: seq<string>, t: Tag)
  {
    t.closing && t.name !in stack
  }

  /** What `removeUnpairedBackslashXmlTags` returns, from `from` on. */
  function RemovedFrom(text: string, from: nat, stack: seq<string>): string
    requires from <= |text|
    decreases |text| - from
  {
    match NextMatch(text, from)
    case None => text[from..]
    case Some(t) =>
      text[from..t.start] + (if Dropped(stack, t) then "" else text[t.start..t.end]) +
      RemovedFrom(text, t.end, Step(stack, t))
  }

  /** Every closing tag from `from` on has an open partner. */
  predicate AllPaired(text: string, from: nat, stack: seq<string>)
    requires from <= |text|
    decreases |text| - from
  {
    match NextMatch(text, from)
    case None => true
    case Some(t) => !Dropped(stack, t) && AllPaired(text, t.end, Step(stack, t))
  }

  /** `removeUnpairedBackslashXmlTags`. */
  method RemoveUnpairedBackslashXmlTags(text: string) returns (r: string)
    ensures r == RemovedFrom(text, 0, [])
  {
    var openTags: seq<string> := [];
    var result: seq<string> := [];
    var currentIndex := 0;
    var m := NextMatch(text, 0);
    while m.Some?
      invariant currentIndex <= |text|
      invariant m == NextMatch(text, currentIndex)
      invariant Join(result, "") + RemovedFrom(text, currentIndex, openTags) == RemovedFrom(text, 0, [])
      decreases |text| - currentIndex
    {
      var t := m.value;
      ghost var before := openTags;
      ghost var done := Join(result, "");
      ghost var gap := text[currentIndex..t.start];
      ghost var part := if Dropped(before, t) then "" else text[t.start..t.end];
      RemovedStep(done, text, currentIndex, before, RemovedFrom(text, 0, []));
      JoinAppend(result, text[currentIndex..t.start]);
      result := result + [text[currentIndex..t.start]];
      if t.closing {
        var k := LastIndexOf(openTags, t.name);
        if k != -1 {
          openTags := openTags[..k] + openTags[k + 1..];
          JoinAppend(result, text[t.start..t.end]);
          result := result + [text[t.start..t.end]];
        }
      } else {
        if !t.selfClosing {
          openTags := openTags + [t.name];
        }
        JoinAppend(result, text[t.start..t.end]);
        result := result + [text[t.start..t.end]];
      }
      assert openTags == Step(before, t);
      assert Join(result, "") == done + gap + part;
      currentIndex := t.end;
      m := NextMatch(text, currentIndex);
    }
    RemovedUnfold(text, currentIndex, openTags);
    JoinAppend(result, text[currentIndex..]);
    result := result + [text[currentIndex..]];
    r := Join(result, "");
  }

  /** One match of the removal loop: the text before it, the match
      unless it is dropped, then the removal of the rest. */
  lemma RemovedStep(done: string, text: string, from: nat, stack: seq<string>, total: string)
    requires from <= |text| && NextMatch(text, from).Some?
    requires done + RemovedFrom(text, from, stack) == total
    ensures var t := NextMatch(text, from).value;
      done + text[from..t.start] + (if Dropped(stack, t) then "" else text[t.start..t.end]) +
      RemovedFrom(text, t.end, Step(stack, t)) == total
  {
    var t := NextMatch(text, from).value;
    var gap := text[from..t.start];
    var part := if Dropped(stack, t) then "" else text[t.start..t.end];
    var rest := RemovedFrom(text, t.end, Step(stack, t));
    RemovedUnfold(text, from, stack);
    Assoc4(done, gap, part, rest);
  }

  /** The removal only deletes characters. */
  lemma {:induction false} RemovedIsSubsequence(text: string, from: nat, stack: seq<string>)
    requires from <= |text|
    ensures IsSubsequence(RemovedFrom(text, from, stack), text[from..])
    decreases |text| - from
  {
    RemovedUnfold(text, from, stack);
    var m := NextMatch(text, from);
    if m.None? {
      SubsequenceRefl(text[from..]);
    } else {
      var t := m.value;
      RemovedIsSubsequence(text, t.end, Step(stack, t));
      SliceSplit(text, from, t.start, t.end);
      KeepOrDrop(text[from..t.start], text[t.start..t.end], Dropped(stack, t),
                 RemovedFrom(text, t.end, Step(stack, t)), text[t.end..]);
    }
  }

  /** One step of the removal: the gap is kept, the tag kept or dropped. */
  lemma KeepOrDrop(gap: string, tag: string, drop: bool, rest: string, tail: string)
    requires IsSubsequence(rest, tail)
    ensures IsSubsequence(gap + (if drop then "" else tag) + rest, gap + tag + tail)
  {
    SubsequenceRefl(gap);
    if drop {
      SubsequenceSkip(rest, tag, tail);
      SubsequenceConcat(gap, gap, rest, tag + tail);
      assert gap + "" + rest == gap + rest;
      assert gap + (tag + tail) == gap + tag + tail;
    } else {
      SubsequenceRefl(tag);
      SubsequenceConcat(gap, gap, tag, tag);
      SubsequenceConcat(gap + tag, gap + tag, rest, tail);
    }
  }

  /** The removal never lengthens the text, and shortens it as soon as
      one closing tag lacks a partner. */
  lemma {:induction false} RemovedLength(text: string, from: nat, stack: seq<string>)
    requires from <= |text|
    ensures |RemovedFrom(text, from, stack)| <= |text| - from
    ensures !AllPaired(text, from, stack) ==> |RemovedFrom(text, from, stack)| < |text| - from
    decreases |text| - from
  {
    RemovedUnfold(text, from, stack);
    var m := NextMatch(text, from);
    if m.Some? {
      var t := m.value;
      RemovedLength(text, t.end, Step(stack, t));
    }
  }

  lemma {:induction false} PairedUnchanged(text: string, from: nat, stack: seq<string>)
    requires from <= |text| && AllPaired(text, from, stack)
    ensures RemovedFrom(text, from, stack) == text[from..]
    decreases |text| - from
  {
    RemovedUnfold(text, from, stack);
    var m := NextMatch(text, from);
    if m.Some? {
      var t := m.value;
      PairedUnchanged(text, t.end, Step(stack, t));
      SliceSplit(text, from, t.start, t.end);
    }
  }

  /** Nothing is removed exactly when every closing tag has an open
      partner. */
  lemma RemovedUnchangedIffPaired(text: string)
    ensures AllPaired(text, 0, []) <==> RemovedFrom(text, 0, []) == text
  {
    RemovedLength(text, 0, []);
    if AllPaired(text, 0, []) {
      PairedUnchanged(text, 0, []);
    }
  }

  /** Text without any match is returned unchanged by both passes. */
  lemma NoTagsUnchanged(text: string)
    requires forall j :: 0 <= j < |text| ==> MatchAt(text, j).None?
    ensures Completed(text) == text
    ensures RemovedFrom(text, 0, []) == text
  {
    assert NextMatch(text, 0).None?;
  }

  /** Names on the stack come from matches. */
  predicate AllNames(stack: seq<string>)
  {
    forall k :: 0 <= k < |stack| ==> IsName(stack[k])
  }

  lemma {:induction false} OpenAfterNames(text: string, from: nat, stack: seq<string>)
    requires from <= |text| && AllNames(stack)
    ensures AllNames(OpenAfter(text, from, stack))
    decreases |text| - from
  {
    match NextMatch(text, from)
    case None =>
    case Some(t) =>
      var next := Step(stack, t);
      MatchShape(text, t.start);
      assert AllNames(next) by {
        if t.closing && t.name in stack {
          var k := LastIndexOf(stack, t.name);
          forall x | 0 <= x < |next| ensures IsName(next[x]) {
            if x < k { assert next[x] == stack[x]; } else { assert next[x] == stack[x + 1]; }
          }
        }
      }
      OpenAfterNames(text, t.end, next);
  }

  lemma {:induction false} WordEndExtend(text: string, suffix: string, j: nat)
    requires j <= |text| && WordEnd(text, j) < |text|
    ensures WordEnd(text + suffix, j) == WordEnd(text, j)
    decreases |text| - j
  {
    if IsWordChar(text[j]) {
      WordEndExtend(text, suffix, j + 1);
    }
  }

  lemma {:induction false} FirstGtExtend(text: string, suffix: string, j: nat)
    requires j <= |text| && FirstGt(text, j) < |text|
    ensures FirstGt(text + suffix, j) == FirstGt(text, j)
    decreases |text| - j
  {
    if text[j] != '>' {
      FirstGtExtend(text, suffix, j + 1);
    }
  }

  /** A match attempt that meets a `>` inside the text does not look at
      anything appended after it. */
  lemma MatchAtExtend(text: string, suffix: string, i: nat)
    requires i < |text| && FirstGt(text, i) < |text|
    ensures MatchAt(text + suffix, i) == MatchAt(text, i)
  {
    var t2 := text + suffix;
    var g := FirstGt(text, i);
    assert t2[i] == text[i];
    if text[i] == '<' {
      assert i + 1 < |text| && t2[i + 1] == text[i + 1];
      var ns := if text[i + 1] == '/' then i + 2 else i + 1;
      var e := WordEnd(text, ns);
      WordEndRun(text, ns);
      assert text[g] == '>';
      assert e <= g;
      WordEndExtend(text, suffix, ns);
      if e != ns && IsSpace(text[e]) {
        MatchAtExtendSpace(text, suffix, i, ns, e, g);
      } else {
        PrefixSlice(text, suffix, ns, e);
        assert t2[e] == text[e];
        assert e != ns && text[e] == '>' ==> t2[e - 1] == text[e - 1];
      }
    }
  }

  lemma MatchAtExtendSpace(text: string, suffix: string, i: nat, ns: nat, e: nat, g: nat)
    requires i + 1 < |text| && text[i] == '<'
    requires ns == if text[i + 1] == '/' then i + 2 else i + 1
    requires ns < e == WordEnd(text, ns) == WordEnd(text + suffix, ns) < g
    requires g < |text| && IsSpace(text[e]) && text[g] == '>'
    ensures MatchAt(text + suffix, i) == MatchAt(text, i)
  {
    var t2 := text + suffix;
    FirstGtAtMost(text, e + 1, g);
    FirstGtExtend(text, suffix, e + 1);
    var g2 := FirstGt(text, e + 1);
    assert t2[i] == '<' && t2[i + 1] == text[i + 1];
    PrefixSlice(text, suffix, ns, e);
    assert t2[e] == text[e] && t2[g2 - 1] == text[g2 - 1];
  }

  lemma PrefixSlice(text: string, suffix: string, a: nat, b: nat)
    requires a <= b <= |text|
    ensures (text + suffix)[a..b] == text[a..b]
  {
  }

  lemma {:induction false} NextMatchExtend(text: string, suffix: string, from: nat)
    requires from <= |text| && NextMatch(text, from).Some?
    ensures NextMatch(text + suffix, from) == NextMatch(text, from)
    decreases |text| - from
  {
    var t := NextMatch(text, from).value;
    MatchShape(text, t.start);
    FirstGtAtMost(text, from, t.end - 1);
    MatchAtExtend(text, suffix, from);
    if MatchAt(text, from).None? {
      NextMatchExtend(text, suffix, from + 1);
    }
  }

  /** With no `<` left, the search skips straight to the appended part. */
  lemma {:induction false} NextMatchSkipsPlain(text: string, suffix: string, from: nat)
    requires from <= |text| && forall x :: from <= x < |text| ==> text[x] != '<'
    ensures NextMatch(text + suffix, from) == NextMatch(text + suffix, |text|)
    decreases |text| - from
  {
    if from < |text| {
      NextMatchSkipsPlain(text, suffix, from + 1);
    }
  }

  /** Scanning a text followed by more text is scanning the text and
      then the addition, provided the text ends in a part with no `<`
      that could start a match reaching into the addition. */
  lemma {:induction false} OpenAfterAppend(text: string, suffix: string, from: nat, stack: seq<string>)
    requires from <= |text|
    requires forall x :: Rest(text, from) <= x < |text| ==> text[x] != '<'
    ensures OpenAfter(text + suffix, from, stack) == OpenAfter(text + suffix, |text|, OpenAfter(text, from, stack))
    decreases |text| - from
  {
    match NextMatch(text, from)
    case None =>
      NextMatchSkipsPlain(text, suffix, from);
    case Some(t) =>
      NextMatchExtend(text, suffix, from);
      OpenAfterAppend(text, suffix, t.end, Step(stack, t));
  }

  /** Scanning the appended closers pops the stack they were made from. */
  lemma ClosersEmptyTheStack(prefix: string, stack: seq<string>)
    requires AllNames(stack)
    ensures OpenAfter(prefix + Closers(stack), |prefix|, stack) == []
  {
    var text := prefix + Closers(stack);
    assert text[|prefix|..] == Closers(stack);
    ClosersEmptyFrom(text, |prefix|, stack);
  }

  /** The same, for closers that make up the text from index `i` on. */
  lemma {:induction false} ClosersEmptyFrom(text: string, i: nat, stack: seq<string>)
    requires i <= |text| && AllNames(stack) && text[i..] == Closers(stack)
    ensures OpenAfter(text, i, stack) == []
    decreases |stack|
  {
    if stack == [] {
      assert text[i..] == [];
      NoMatchAtEnd(text, i, stack);
    } else {
      var j := CloserStepFrom(text, i, stack);
      ClosersEmptyFrom(text, j, stack[..|stack| - 1]);
    }
  }

  /** Scanning the first closer pops the top of the stack. */
  lemma CloserStepFrom(text: string, i: nat, stack: seq<string>) returns (j: nat)
    requires i <= |text| && stack != [] && AllNames(stack) && text[i..] == Closers(stack)
    ensures i <= j <= |text| && AllNames(stack[..|stack| - 1])
    ensures text[j..] == Closers(stack[..|stack| - 1])
    ensures OpenAfter(text, i, stack) == OpenAfter(text, j, stack[..|stack| - 1])
  {
    var x := stack[|stack| - 1];
    j := ClosersSliceSplit(text, i, stack);
    assert IsName(x);
    CloserAt(text, i, j, x);
    CloserPops(text, i, j, stack);
  }

  lemma NoMatchAtEnd(text: string, i: nat, stack: seq<string>)
    requires i == |text|
    ensures OpenAfter(text, i, stack) == stack
  {
  }

  /** The first closer of `Closers(stack)` closes the top name, and the
      closers of the rest of the stack follow it. */
  lemma ClosersSliceSplit(text: string, i: nat, stack: seq<string>) returns (j: nat)
    requires i <= |text| && stack != [] && text[i..] == Closers(stack)
    ensures j == i + |stack[|stack| - 1]| + 3 && j <= |text|
    ensures text[i..j] == "</" + stack[|stack| - 1] + ">"
    ensures text[j..] == Closers(stack[..|stack| - 1])
  {
    var closer := "</" + stack[|stack| - 1] + ">";
    var rest := Closers(stack[..|stack| - 1]);
    assert text[i..] == closer + rest;
    j := i + |closer|;
    assert text[i..j] == (closer + rest)[..|closer|] == closer;
    assert text[j..] == (closer + rest)[|closer|..] == rest;
  }

  lemma CloserPops(text: string, i: nat, j: nat, stack: seq<string>)
    requires i <= j <= |text| && stack != []
    requires NextMatch(text, i) == Some(Tag(stack[|stack| - 1], true, false, i, j))
    ensures OpenAfter(text, i, stack) == OpenAfter(text, j, stack[..|stack| - 1])
  {
    var t := NextMatch(text, i).value;
    MatchShape(text, i);
    OpenAfterUnfold(text, i, stack);
    StepPopsTop(stack, t);
  }

  /** A closing tag for a name at index `i` is the next match from `i`. */
  lemma CloserAt(text: string, i: nat, j: nat, x: string)
    requires IsName(x) && j == i + |x| + 3 && j <= |text| && text[i..j] == "</" + x + ">"
    ensures NextMatch(text, i) == Some(Tag(x, true, false, i, j))
  {
    var e := i + 2 + |x|;
    var closer := text[i..j];
    CloserParts(x);
    SubSlice(text, i, j, 2, |x| + 2);
    assert text[i] == closer[0] == '<' && text[i + 1] == closer[1] == '/';
    assert text[i + 2..e] == x;
    assert text[e] == closer[|x| + 2] == '>';
    assert text[e - 1] == x[|x| - 1];
    WordRun(text, i + 2, e);
    var t := Tag(x, true, false, i, e + 1);
    assert MatchAt(text, i) == Some(t);
  }

  lemma CloserParts(x: string)
    ensures var c := "</" + x + ">";
      |c| == |x| + 3 && c[0] == '<' && c[1] == '/' && c[2..|x| + 2] == x && c[|x| + 2] == '>'
  {
    var c := "</" + x + ">";
    assert c == ['<', '/'] + x + ['>'];
  }

  lemma SubSlice(s: string, i: nat, j: nat, a: nat, b: nat)
    requires i <= j <= |s| && a <= b <= j - i
    ensures s[i..j][a..b] == s[i + a..i + b]
  {
    assert forall k :: 0 <= k < b - a ==> s[i..j][a..b][k] == s[i + a + k];
  }

  /** The closing tag of the top name pops it. */
  lemma StepPopsTop(stack: seq<string>, t: Tag)
    requires stack != [] && t.closing && t.name == stack[|stack| - 1]
    ensures Step(stack, t) == stack[..|stack| - 1]
  {
    assert LastIndexOf(stack, t.name) == |stack| - 1;
  }

  lemma {:induction false} WordRun(text: string, j: nat, e: nat)
    requires j <= e < |text|
    requires forall x :: j <= x < e ==> IsWordChar(text[x])
    requires !IsWordChar(text[e])
    ensures WordEnd(text, j) == e
    decreases e - j
  {
    if j < e {
      WordRun(text, j + 1, e);
    }
  }

  /** Completion closes every tag, provided the text does not end inside
      an unfinished tag: after the last match there is no `<`. */
  lemma CompletedClosesAll(text: string)
    requires forall x :: Rest(text, 0) <= x < |text| ==> text[x] != '<'
    ensures OpenAfter(Completed(text), 0, []) == []
  {
    var stack := OpenAfter(text, 0, []);
    OpenAfterNames(text, 0, []);
    OpenAfterAppend(text, Closers(stack), 0, []);
    ClosersEmptyTheStack(text, stack);
  }

  /** `<br/>` is not a tag at all (the name is followed by `/`), while
      `<br />` is one that ends in `/>` and is never pushed. */
  lemma SelfClosingForms()
    ensures MatchAt("<br/>", 0).None?
    ensures MatchAt("<br />", 0) == Some(Tag("br", false, true, 0, 6))
    ensures OpenAfter("<br />", 0, []) == []
  {
    var s1 := "<br/>";
    WordRun(s1, 1, 3);
    var s2 := "<br />";
    WordRun(s2, 1, 3);
    assert FirstGt(s2, 5) == 5;
    assert FirstGt(s2, 4) == 5;
    assert s2[1..3] == "br" && IsSpace(s2[3]) && s2[4] == '/';
    assert MatchAt(s2, 0) == Some(Tag("br", false, true, 0, 6));
    OpenAfterUnfold(s2, 0, []);
    OpenAfterUnfold(s2, 6, []);
  }

  /** Without the proviso of `CompletedClosesAll` completion can fail: in
      `<a><b x` the unfinished `<b x` is not a tag, but followed by the
      appended `</a>` it becomes the opening tag `<b x</a>`, so the
      completed text still leaves `a` and `b` open. */
  lemma CompletionSwallowedByUnfinishedTag()
    ensures Completed("<a><b x") == "<a><b x</a>"
    ensures OpenAfter(Completed("<a><b x"), 0, []) == ["a", "b"]
  {
    var text := "<a><b x";
    UnfinishedTagLeavesOneOpen();
    ClosersOfOne("a");
    assert Completed(text) == text + "</a>";
    assert text + "</a>" == "<a><b x</a>";
    SwallowedCloserOpensTag();
  }

  lemma ClosersOfOne(name: string)
    ensures Closers([name]) == "</" + name + ">"
  {
  }

  lemma UnfinishedTagLeavesOneOpen()
    ensures OpenAfter("<a><b x", 0, []) == ["a"]
  {
    var text := "<a><b x";
    WordRun(text, 1, 2);
    assert text[1..2] == "a";
    assert MatchAt(text, 0) == Some(Tag("a", false, false, 0, 3));
    assert NextMatch(text, 0) == Some(Tag("a", false, false, 0, 3));
    WordRun(text, 4, 5);
    assert FirstGt(text, 6) == 7;
    assert MatchAt(text, 3).None?;
    NoMatchFrom(text, 4);
    assert NextMatch(text, 3).None?;
    OpenAfterUnfold(text, 0, []);
    OpenAfterUnfold(text, 3, ["a"]);
  }

  lemma SwallowedCloserOpensTag()
    ensures OpenAfter("<a><b x</a>", 0, []) == ["a", "b"]
  {
    var done := "<a><b x</a>";
    WordRun(done, 1, 2);
    assert done[1..2] == "a";
    assert MatchAt(done, 0) == Some(Tag("a", false, false, 0, 3));
    assert NextMatch(done, 0) == Some(Tag("a", false, false, 0, 3));
    WordRun(done, 4, 5);
    assert FirstGt(done, 6) == 10 by {
      assert done[6] != '>' && done[7] != '>' && done[8] != '>' && done[9] != '>' && done[10] == '>';
    }
    assert done[4..5] == "b" && IsSpace(done[5]) && done[9] != '/';
    assert MatchAt(done, 3) == Some(Tag("b", false, false, 3, 11));
    assert NextMatch(done, 3) == Some(Tag("b", false, false, 3, 11));
    OpenAfterUnfold(done, 0, []);
    OpenAfterUnfold(done, 3, ["a"]);
    OpenAfterUnfold(done, 11, ["a", "b"]);
  }

  /** No `<` from `from` on: no match either. */
  lemma {:induction false} NoMatchFrom(text: string, from: nat)
    requires from <= |text| && forall x :: from <= x < |text| ==> text[x] != '<'
    ensures NextMatch(text, from).None?
    decreases |text| - from
  {
    if from < |text| {
      NoMatchFrom(text, from + 1);
    }
  }

  /** `remove_string(text, substring)` when the substring contains no
      regular-expression metacharacter: the pattern then matches exactly
      the occurrences of the substring, and the global replacement deletes
      them left to right, resuming after each. An empty pattern matches
      only the empty string, so nothing changes. */
  function RemoveString(text: string, sub: string): (r: string)
    ensures |r| <= |text|
    decreases |text|
  {
    if sub == [] || |text| < |sub| then text
    else if text[..|sub|] == sub then RemoveString(text[|sub|..], sub)
    else [text[0]] + RemoveString(text[1..], sub)
  }

  /** The removal only deletes characters. */
  lemma {:induction false} RemoveStringIsSubsequence(text: string, sub: string)
    ensures IsSubsequence(RemoveString(text, sub), text)
    decreases |text|
  {
    if sub == [] || |text| < |sub| {
      SubsequenceRefl(text);
    } else if text[..|sub|] == sub {
      RemoveStringIsSubsequence(text[|sub|..], sub);
      SubsequenceSkip(RemoveString(text[|sub|..], sub), text[..|sub|], text[|sub|..]);
      assert text[..|sub|] + text[|sub|..] == text;
    } else {
      RemoveStringIsSubsequence(text[1..], sub);
      SubsequenceCons(text[0], RemoveString(text[1..], sub), text[1..]);
      assert [text[0]] + text[1..] == text;
    }
  }

  /** A piece that cannot start an occurrence is kept whole. */
  lemma {:induction false} RemoveStringKeepsPlain(piece: string, rest: string, sub: string)
    requires sub != [] && sub[0] !in piece
    ensures RemoveString(piece + rest, sub) == piece + RemoveString(rest, sub)
    decreases |piece|
  {
    if piece != [] {
      var t := piece + rest;
      assert t[0] == piece[0] != sub[0];
      if |t| >= |sub| {
        assert t[..|sub|] != sub;
      }
      assert t[1..] == piece[1..] + rest;
      RemoveStringKeepsPlain(piece[1..], rest, sub);
      if |t| < |sub| {
        RemoveStringShort(rest, sub);
      }
      assert [piece[0]] + piece[1..] == piece;
    } else {
      assert piece + rest == rest;
    }
  }

  lemma RemoveStringShort(text: string, sub: string)
    requires |text| < |sub|
    ensures RemoveString(text, sub) == text
  {
  }

  /** Deleting the separators of a join gives the pieces back, when no
      piece contains the first character of the separator. */
  lemma {:induction false} RemoveStringInvertsJoin(pieces: seq<string>, sub: string)
    requires sub != []
    requires forall k :: 0 <= k < |pieces| ==> sub[0] !in pieces[k]
    ensures RemoveString(Join(pieces, sub), sub) == Join(pieces, "")
    decreases |pieces|
  {
    if pieces == [] {
    } else if |pieces| == 1 {
      RemoveStringKeepsPlain(pieces[0], "", sub);
      assert pieces[0] + "" == pieces[0];
    } else {
      RemoveStringInvertsJoin(pieces[1..], sub);
      RemoveStringJoinStep(pieces, sub);
    }
  }

  lemma RemoveStringJoinStep(pieces: seq<string>, sub: string)
    requires sub != [] && |pieces| >= 2 && sub[0] !in pieces[0]
    requires RemoveString(Join(pieces[1..], sub), sub) == Join(pieces[1..], "")
    ensures RemoveString(Join(pieces, sub), sub) == Join(pieces, "")
  {
    var tail := Join(pieces[1..], sub);
    assert Join(pieces, sub) == pieces[0] + (sub + tail);
    RemoveStringKeepsPlain(pieces[0], sub + tail, sub);
    RemoveStringSkipsMatch(sub, tail);
  }

  lemma RemoveStringSkipsMatch(sub: string, rest: string)
    requires sub != []
    ensures RemoveString(sub + rest, sub) == RemoveString(rest, sub)
  {
    assert (sub + rest)[..|sub|] == sub;
    assert (sub + rest)[|sub|..] == rest;
  }
}
