/** The working-directory path is spliced into the bootstrap command
    `import os; os.chdir('<path>')`, i.e. into a Python single-quoted string
    literal. `SanitizePath` is the escaping the sandbox applies; `DecodeBody`
    is the part of Python's literal decoding that matters for it. */
module PyLiteral {
  import opened Common

  /** `s.replace(c, rep)` for a one-character pattern. */
  function ReplaceChar(s: string, c: char, rep: string): (r: string)
    ensures c !in s ==> r == s
  {
    if s == [] then ""
    else (if s[0] == c then rep else [s[0]]) + ReplaceChar(s[1..], c, rep)
  }

  /** `_sanitize_path`: backslashes are doubled first, then quotes escaped. */
  function SanitizePath(p: string): string
  {
    ReplaceChar(ReplaceChar(p, '\\', "\\\\"), '\'', "\\'")
  }

  /** The escape applied to one character of the path. */
  function EscapeChar(c: char): string
  {
    if c == '\\' then "\\\\" else if c == '\'' then "\\'" else [c]
  }

  function EscapeEach(p: string): string
  {
    if p == [] then "" else EscapeChar(p[0]) + EscapeEach(p[1..])
  }

  lemma {:induction false} ReplaceCharAppend(a: string, b: string, c: char, rep: string)
    ensures ReplaceChar(a + b, c, rep) == ReplaceChar(a, c, rep) + ReplaceChar(b, c, rep)
    decreases |a|
  {
    if a != [] {
      ReplaceCharAppend(a[1..], b, c, rep);
      assert (a + b)[1..] == a[1..] + b;
    } else {
      assert a + b == b;
    }
  }

  /** The two sequential replacements amount to escaping each character on
      its own: the backslash inserted before a quote by the second
      replacement is not doubled again, because the doubling ran first. */
  lemma {:induction false} SanitizeEscapesEachChar(p: string)
    ensures SanitizePath(p) == EscapeEach(p)
    decreases |p|
  {
    if p != [] {
      SanitizeEscapesEachChar(p[1..]);
      var head := if p[0] == '\\' then "\\\\" else [p[0]];
      assert ReplaceChar(p, '\\', "\\\\") == head + ReplaceChar(p[1..], '\\', "\\\\");
      ReplaceCharAppend(head, ReplaceChar(p[1..], '\\', "\\\\"), '\'', "\\'");
      if p[0] == '\\' {
        assert ReplaceChar(head, '\'', "\\'") == "\\\\";
      } else if p[0] == '\'' {
        assert ReplaceChar(head, '\'', "\\'") == "\\'";
      } else {
        assert ReplaceChar(head, '\'', "\\'") == [p[0]];
      }
    }
  }

  /** Decoding the body of a single-quoted Python literal, for the escapes
      `\\` and `\'`. `None` means the body is not a literal whose value this
      model decides: an unescaped quote ends the literal early (the rest is
      a syntax error), a raw line break ends the line, a lone trailing
      backslash escapes the closing quote, and other escapes are outside
      the model. */
  function DecodeBody(s: string): Option<string>
    decreases |s|
  {
    if s == [] then Some("")
    else if s[0] == '\'' || s[0] == '\n' || s[0] == '\r' then None
    else if s[0] == '\\' then
      if |s| == 1 || (s[1] != '\\' && s[1] != '\'') then None
      else match DecodeBody(s[2..])
        case None => None
        case Some(t) => Some([s[1]] + t)
    else match DecodeBody(s[1..])
      case None => None
      case Some(t) => Some([s[0]] + t)
  }

  predicate NoLineBreak(p: string) { '\n' !in p && '\r' !in p }

  /** The round trip the bootstrap `chdir` relies on: for a path without
      line breaks, the literal body decodes back to the path itself. */
  lemma {:induction false} SanitizeRoundTrip(p: string)
    requires NoLineBreak(p)
    ensures DecodeBody(SanitizePath(p)) == Some(p)
  {
    SanitizeEscapesEachChar(p);
    EscapeEachRoundTrip(p);
  }

  lemma {:induction false} EscapeEachRoundTrip(p: string)
    requires NoLineBreak(p)
    ensures DecodeBody(EscapeEach(p)) == Some(p)
    decreases |p|
  {
    if p != [] {
      assert NoLineBreak(p[1..]);
      EscapeEachRoundTrip(p[1..]);
      var e := EscapeEach(p);
      assert e == EscapeChar(p[0]) + EscapeEach(p[1..]);
      if p[0] == '\\' || p[0] == '\'' {
        assert e[2..] == EscapeEach(p[1..]);
      } else {
        assert e[1..] == EscapeEach(p[1..]);
      }
      assert [p[0]] + p[1..] == p;
    }
  }

  /** The bootstrap commands every new kernel receives, in this order:
      the R bridge, the Julia bridge, and the change of directory. */
  function BootstrapCommands(workingDir: string): (cmds: seq<string>)
    ensures |cmds| == 3
  {
    [ "%load_ext rpy2.ipython",
      "from juliacall import Main as jl",
      ChdirCommand(SanitizePath(workingDir)) ]
  }

  /** `import os; os.chdir('<body>')` around an already prepared body. */
  function ChdirCommand(body: string): string
  {
    "import os; os.chdir('" + body + "')"
  }

  /** The older sandbox splices the path in without escaping it. */
  function LegacyBootstrapCommands(workingDir: string): (cmds: seq<string>)
    ensures |cmds| == 3
  {
    [ "%load_ext rpy2.ipython",
      "from juliacall import Main as jl",
      ChdirCommand(workingDir) ]
  }

  /** Counterexample for the unescaped splice: a directory named `it's`
      yields a literal that ends after `it`, so the command is a syntax
      error instead of a change to that directory. */
  lemma LegacyChdirBreaksOnQuote()
    ensures var p := "it's";
      LegacyBootstrapCommands(p)[2] == ChdirCommand(p) &&
      DecodeBody(p) != Some(p) &&
      DecodeBody(SanitizePath(p)) == Some(p)
  {
    var p := "it's";
    assert p[2] == '\'';
    assert DecodeBody(p[2..]) == None;
    assert DecodeBody(p[1..]) == None;
    SanitizeRoundTrip(p);
  }
}
