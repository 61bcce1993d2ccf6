/**
 * `shlex_posix` and `shlex_windows`: quoting a script path, when it
 * contains a space, so that a shell reads it back as one word.
 *
 * The displayed path (`user_display()` of the joined path) is the input
 * string; its rendering is platform code outside this model.
 */
module Shlex {
  import opened Results
  import opened Text
  import opened Shells
  import PosixWords
  import CmdWords

  /**
   * What each single quote becomes inside a single-quoted word: close the
   * span, a double-quoted single quote, reopen the span.
   */
  const QuoteEscape: string := "'\"'\"'"

  /** `replace('\'', QuoteEscape)`: every single quote rewritten, all else kept. */
  function EscapeQuotes(s: string): (r: string)
    ensures |r| >= |s|
  {
    if s == [] then ""
    else (if s[0] == '\'' then QuoteEscape else [s[0]]) + EscapeQuotes(s[1..])
  }

  /** POSIX quoting: single-quote a path containing a space, else leave it as is. */
  function ShlexPosix(path: string): (r: string)
    ensures !HasSpace(path) ==> r == path
  {
    if HasSpace(path) then "'" + EscapeQuotes(path) + "'" else path
  }

  /**
   * PowerShell and `cmd` quoting: a path containing a space is wrapped in
   * double quotes, behind the `&` call operator on PowerShell; inner
   * characters are not escaped.
   */
  function ShlexWindows(path: string, shell: Shell): (r: string)
    ensures !HasSpace(path) ==> r == path
    ensures HasSpace(path) ==> |r| == |path| + (if shell == Powershell then 4 else 2)
  {
    if HasSpace(path) then
      if shell == Powershell then "& \"" + path + "\"" else "\"" + path + "\""
    else path
  }

  /** A single character: a single quote becomes `QuoteEscape`, anything else stays. */
  lemma EscapeQuotesChar(c: char)
    ensures EscapeQuotes([c]) == if c == '\'' then QuoteEscape else [c]
  {
  }

  /** `replace` works character by character, so it distributes over concatenation. */
  lemma {:induction false} EscapeQuotesAppend(a: string, b: string)
    ensures EscapeQuotes(a + b) == EscapeQuotes(a) + EscapeQuotes(b)
  {
    if a == [] {
      assert a + b == b;
    } else {
      assert (a + b)[1..] == a[1..] + b;
      EscapeQuotesAppend(a[1..], b);
    }
  }

  /** Each single quote grows by four characters; nothing else changes length. */
  lemma {:induction false} EscapeQuotesLength(s: string)
    ensures |EscapeQuotes(s)| == |s| + 4 * Count(s, '\'')
  {
    if s != [] {
      EscapeQuotesLength(s[1..]);
    }
  }

  /** Escaping leaves a string unchanged exactly when it holds no single quote. */
  lemma {:induction false} EscapeQuotesIdentity(s: string)
    ensures EscapeQuotes(s) == s <==> '\'' !in s
  {
    EscapeQuotesLength(s);
    CountZero(s, '\'');
    if s != [] && '\'' !in s {
      assert '\'' !in s[1..] by {
        assert forall i | 0 <= i < |s[1..]| :: s[1..][i] == s[i + 1];
      }
      EscapeQuotesIdentity(s[1..]);
      assert [s[0]] + s[1..] == s;
    }
  }

  /**
   * A path without a space comes back unchanged, whatever it contains; a
   * path with one comes back between single quotes, four characters longer
   * for each single quote it holds.
   */
  lemma ShlexPosixShape(path: string)
    ensures !HasSpace(path) ==> ShlexPosix(path) == path
    ensures HasSpace(path) ==>
      var r := ShlexPosix(path);
      && r == "'" + EscapeQuotes(path) + "'"
      && |r| == |path| + 2 + 4 * Count(path, '\'')
      && r[0] == '\'' && r[|r| - 1] == '\''
  {
    EscapeQuotesLength(path);
  }

  /**
   * Closing a single-quoted span on `p`, then a double-quoted single quote:
   * reading continues with `r` after `p` and the quote.
   */
  lemma QuoteThenRest(p: string, r: string)
    requires '\'' !in p
    ensures PosixWords.Unquote("'" + p + "'" + "\"'\"" + r) == Prepend(p + "'", PosixWords.Unquote(r))
  {
    var dq := "\"'\"" + r;
    assert "'" + p + "'" + "\"'\"" + r == "'" + p + "'" + dq;
    PosixWords.SingleQuotedThen(p, dq);
    PosixWords.DoubleQuotedQuote(r);
    if PosixWords.Unquote(r).Some? {
      var u := PosixWords.Unquote(r).value;
      assert p + ("'" + u) == p + "'" + u;
    }
  }

  /**
   * The escaped text of `t`, inside a single-quoted span already holding the
   * quote-free `p`, reads back as `p + t`.
   */
  lemma {:induction false} EscapedSpan(p: string, t: string)
    requires '\'' !in p
    ensures PosixWords.Unquote("'" + p + EscapeQuotes(t) + "'") == Some(p + t)
    decreases |t|
  {
    if t == [] {
      assert "'" + p + EscapeQuotes(t) + "'" == "'" + p + "'" + "";
      PosixWords.SingleQuotedThen(p, "");
      assert p + "" == p + t;
    } else if t[0] == '\'' {
      EscapedSpan("", t[1..]);
      EscapedQuote(p, t);
    } else {
      EscapedSpan(p + [t[0]], t[1..]);
      EscapedOther(p, t);
    }
  }

  /** The step of `EscapedSpan` for a leading single quote. */
  lemma EscapedQuote(p: string, t: string)
    requires '\'' !in p && t != [] && t[0] == '\''
    requires PosixWords.Unquote("'" + "" + EscapeQuotes(t[1..]) + "'") == Some("" + t[1..])
    ensures PosixWords.Unquote("'" + p + EscapeQuotes(t) + "'") == Some(p + t)
  {
    var e := EscapeQuotes(t[1..]);
    var rest := "'" + e + "'";
    assert EscapeQuotes(t) == QuoteEscape + e;
    Regroupings(p, t[0], e, t[1..]);
    QuoteThenRest(p, rest);
    assert [t[0]] + t[1..] == t;
  }

  /** The step of `EscapedSpan` for a leading character other than a single quote. */
  lemma EscapedOther(p: string, t: string)
    requires '\'' !in p && t != [] && t[0] != '\''
    requires PosixWords.Unquote("'" + (p + [t[0]]) + EscapeQuotes(t[1..]) + "'") == Some(p + [t[0]] + t[1..])
    ensures PosixWords.Unquote("'" + p + EscapeQuotes(t) + "'") == Some(p + t)
  {
    var e := EscapeQuotes(t[1..]);
    assert EscapeQuotes(t) == [t[0]] + e;
    Regroupings(p, t[0], e, t[1..]);
    assert [t[0]] + t[1..] == t;
  }

  /**
   * The ways `EscapedQuote` and `EscapedOther` regroup a concatenation,
   * kept in one lemma of their own so that neither step proof has to
   * rediscover them within its resource budget.
   */
  lemma Regroupings(p: string, c: char, e: string, u: string)
    ensures "'" + p + (QuoteEscape + e) + "'" == "'" + p + "'" + "\"'\"" + ("'" + e + "'")
    ensures "'" + "" + e + "'" == "'" + e + "'"
    ensures "" + u == u
    ensures p + [c] + u == p + ([c] + u)
    ensures "'" + (p + [c]) + e + "'" == "'" + p + ([c] + e) + "'"
  {
    var d := "\"'\"";
    assert QuoteEscape == "'" + d + "'";
    var l := "'" + p;
    assert l + ("'" + d + "'" + e) + "'" == l + "'" + d + "'" + e + "'";
    assert l + "'" + d + ("'" + e + "'") == l + "'" + d + "'" + e + "'";
  }

  /**
   * Round trip: under POSIX quote removal, `shlex_posix`'s output reads back
   * as the original path exactly when the path holds a space (the quoted case) or
   * needs no quoting at all. A path such as `$'b` is returned bare and is
   * then not read back as itself.
   */
  lemma ShlexPosixReadsBack(path: string)
    ensures PosixWords.Unquote(ShlexPosix(path)) == Some(path)
        <==> HasSpace(path) || PosixWords.Plain(path)
  {
    if HasSpace(path) {
      EscapedSpan("", path);
      assert "'" + "" + EscapeQuotes(path) + "'" == ShlexPosix(path);
      assert "" + path == path;
    } else {
      PosixWords.UnquoteIdentity(path);
    }
  }

  /**
   * The comment above `shlex_posix` quotes `$'b` as Python's `shlex.quote`
   * would; having no space, it is returned bare and does not read back.
   */
  lemma ShlexPosixCommentExample()
    ensures ShlexPosix("$'b") == "$'b"
    ensures PosixWords.Unquote(ShlexPosix("$'b")) == None
  {
    var s := "$'b";
    assert !HasSpace(s);
    assert s[0] == '$' && PosixWords.Special(s[0]);
  }

  /** With a space in front, the same text is quoted and reads back. */
  lemma ShlexPosixSpacedExample()
    ensures ShlexPosix("a $'b") == "'a $'\"'\"'b'"
    ensures PosixWords.Unquote(ShlexPosix("a $'b")) == Some("a $'b")
  {
    var s := "a $'b";
    assert HasSpace(s) by { assert s[1] == ' '; }
    EscapeExample();
    assert ShlexPosix(s) == "'" + ("a $" + QuoteEscape + "b") + "'";
    assert "'" + ("a $" + QuoteEscape + "b") + "'" == "'a $'\"'\"'b'";
    ShlexPosixReadsBack(s);
  }

  lemma EscapeExample()
    ensures EscapeQuotes("a $'b") == "a $" + QuoteEscape + "b"
  {
    var x, y := "a $", "b";
    assert "a $'b" == x + ("'" + y);
    EscapeQuotesAppend(x, "'" + y);
    EscapeQuotesAppend("'", y);
    EscapeQuotesIdentity(x);
    EscapeQuotesIdentity(y);
    assert EscapeQuotes("'") == QuoteEscape;
  }

  /**
   * Round trip under `cmd` quote removal: the output for any shell but
   * PowerShell reads back as the path when the path holds a space and no double quote, or
   * needs no quoting; an inner double quote is not escaped and breaks it.
   */
  lemma ShlexWindowsCmdReadsBack(path: string, shell: Shell)
    requires shell != Powershell
    ensures CmdWords.Unquote(ShlexWindows(path, shell), false) == Some(path)
        <==> if HasSpace(path) then '"' !in path else CmdWords.Plain(path)
  {
    if HasSpace(path) {
      var w := "\"" + path + "\"";
      assert ShlexWindows(path, shell) == w;
      assert w[1..] == path + "\"";
      if '"' !in path {
        CmdWords.QuotedSpan(path);
      } else if CmdWords.Unquote(w, false) == Some(path) {
        CountAppend("\"" + path, "\"", '"');
        CountAppend("\"", path, '"');
        CountZero(path, '"');
      }
    } else {
      CmdWords.UnquoteIdentity(path);
    }
  }

  /**
   * With a space, the path is wrapped in double quotes exactly as it is,
   * nothing inside escaped, and PowerShell adds its call operator `& `.
   */
  lemma ShlexWindowsForm(path: string, shell: Shell)
    requires HasSpace(path)
    ensures ShlexWindows(path, shell) == (if shell == Powershell then "& " else "") + "\"" + path + "\""
  {
  }

  /**
   * PowerShell gets the `cmd` form behind the `&` call operator when the
   * path is quoted, and the bare path otherwise; every other shell gets the
   * `cmd` form.
   */
  lemma ShlexWindowsByShell(path: string, shell: Shell)
    ensures !HasSpace(path) ==> ShlexWindows(path, shell) == path
    ensures shell == Powershell && HasSpace(path) ==>
      ShlexWindows(path, shell) == "& " + ShlexWindows(path, Cmd)
    ensures shell != Powershell ==> ShlexWindows(path, shell) == ShlexWindows(path, Cmd)
  {
  }
}
