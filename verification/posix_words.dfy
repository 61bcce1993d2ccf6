/**
 * Quote removal for one word of the Shell Command Language (POSIX.1-2017,
 * section 2.2): the reference reading against which `shlex_posix` is judged.
 * It performs quote removal only: no pathname expansion (`*`, `?`, `[`), no
 * tilde expansion and no comments.
 *
 * `Unquote(s)` is the single word a POSIX shell reads from `s`, or `None`
 * when `s` is not exactly one literal word: an unterminated quote, an
 * unquoted blank or operator character (the word would end there), or an
 * unquoted or double-quoted `$` or backquote (an expansion would run).
 */
module PosixWords {
  import opened Results

  /** Characters that, unquoted, end a word or start an expansion (POSIX.1-2017 section 2.2). */
  predicate Special(c: char) {
    c == ' ' || c == '\t' || c == '\n' || c == '|' || c == '&' || c == ';'
    || c == '<' || c == '>' || c == '(' || c == ')' || c == '$' || c == '`'
  }

  /** The three quoting characters of POSIX.1-2017 section 2.2. */
  predicate Quoting(c: char) {
    c == '\'' || c == '"' || c == '\\'
  }

  /** A word that needs no quoting: every character stands for itself. */
  predicate Plain(s: string) {
    forall i | 0 <= i < |s| :: !Special(s[i]) && !Quoting(s[i])
  }

  /** Characters a backslash still escapes inside double quotes (POSIX.1-2017 section 2.2.3). */
  predicate DoubleQuoteEscapable(c: char) {
    c == '$' || c == '`' || c == '"' || c == '\\' || c == '\n'
  }

  /**
   * POSIX.1-2017 section 2.2.2: after an opening single quote every character up to the
   * next single quote is literal. Gives the span's content and what follows
   * the closing quote, or `None` when no closing quote exists.
   */
  function SingleQuoted(s: string): (r: Option<(string, string)>)
    ensures r.Some? ==> s == r.value.0 + "'" + r.value.1 && '\'' !in r.value.0
    ensures r.None? ==> '\'' !in s
  {
    if s == [] then None
    else if s[0] == '\'' then Some(("", s[1..]))
    else
      match SingleQuoted(s[1..])
      case None => None
      case Some((lit, rest)) => Some(([s[0]] + lit, rest))
  }

  /**
   * POSIX.1-2017 section 2.2.3: after an opening double quote characters are literal up
   * to the closing double quote, except that a backslash escapes the five
   * characters of `DoubleQuoteEscapable` (an escaped newline vanishes) and
   * `$` or a backquote would start an expansion, which this reading refuses.
   */
  function DoubleQuoted(s: string): (r: Option<(string, string)>)
    ensures r.Some? ==> |r.value.0| + |r.value.1| < |s|
  {
    if s == [] then None
    else if s[0] == '"' then Some(("", s[1..]))
    else if s[0] == '$' || s[0] == '`' then None
    else if s[0] == '\\' && |s| > 1 && DoubleQuoteEscapable(s[1]) then
      match DoubleQuoted(s[2..])
      case None => None
      case Some((lit, rest)) => Some((if s[1] == '\n' then lit else [s[1]] + lit, rest))
    else
      match DoubleQuoted(s[1..])
      case None => None
      case Some((lit, rest)) => Some(([s[0]] + lit, rest))
  }

  /** The literal word a POSIX shell reads from `s` after quote removal. */
  function Unquote(s: string): (r: Option<string>)
    ensures r.Some? ==> |r.value| <= |s|
    decreases |s|
  {
    if s == [] then Some("")
    else if s[0] == '\'' then
      match SingleQuoted(s[1..])
      case None => None
      case Some((lit, rest)) => Prepend(lit, Unquote(rest))
    else if s[0] == '"' then
      match DoubleQuoted(s[1..])
      case None => None
      case Some((lit, rest)) => Prepend(lit, Unquote(rest))
    else if s[0] == '\\' then
      // POSIX.1-2017 section 2.2.1: an unquoted backslash keeps the next character
      // literally; before a newline it joins lines and both vanish.
      if |s| == 1 then None
      else if s[1] == '\n' then Unquote(s[2..])
      else Prepend([s[1]], Unquote(s[2..]))
    else if Special(s[0]) then None
    else Prepend([s[0]], Unquote(s[1..]))
  }

  /** A single-quoted span opened on a quote-free prefix ends at the first quote. */
  lemma {:induction false} SingleQuotedSpan(p: string, rest: string)
    requires '\'' !in p
    ensures SingleQuoted(p + "'" + rest) == Some((p, rest))
  {
    if p != [] {
      assert '\'' !in p[1..] by {
        assert forall i | 0 <= i < |p[1..]| :: p[1..][i] == p[i + 1];
      }
      SingleQuotedSpan(p[1..], rest);
      assert (p + "'" + rest)[1..] == p[1..] + "'" + rest;
      assert [p[0]] + p[1..] == p;
    }
  }

  /** A single-quoted span holding `p` is read literally, then reading goes on. */
  lemma SingleQuotedThen(p: string, rest: string)
    requires '\'' !in p
    ensures Unquote("'" + p + "'" + rest) == Prepend(p, Unquote(rest))
  {
    var w := "'" + p + "'" + rest;
    assert w[0] == '\'' && w[1..] == p + "'" + rest;
    SingleQuotedSpan(p, rest);
  }

  /** A double-quoted single quote reads as a single quote. */
  lemma DoubleQuotedQuote(rest: string)
    ensures Unquote("\"'\"" + rest) == Prepend("'", Unquote(rest))
  {
    var w := "\"'\"" + rest;
    var inner := w[1..];
    assert w[0] == '"' && inner == "'\"" + rest;
    assert inner[0] == '\'' && inner[1..] == "\"" + rest;
    assert DoubleQuoted(inner[1..]) == Some(("", rest));
    assert DoubleQuoted(inner) == Some(([inner[0]] + "", rest));
    assert [inner[0]] + "" == "'";
  }

  /** A plain word reads back as itself. */
  lemma {:induction false} PlainUnquote(s: string)
    requires Plain(s)
    ensures Unquote(s) == Some(s)
  {
    if s != [] {
      assert Plain(s[1..]) by {
        forall i | 0 <= i < |s[1..]| ensures !Special(s[1..][i]) && !Quoting(s[1..][i]) {
          assert s[1..][i] == s[i + 1];
        }
      }
      PlainUnquote(s[1..]);
      assert [s[0]] + s[1..] == s;
    }
  }

  /** Reading a word that is not plain removes at least one character. */
  lemma {:induction false} UnquoteShortens(s: string)
    requires !Plain(s) && Unquote(s).Some?
    ensures |Unquote(s).value| < |s|
    decreases |s|
  {
    if s[0] == '\'' || s[0] == '"' || s[0] == '\\' {
    } else if Special(s[0]) {
    } else {
      assert !Plain(s[1..]) by {
        var i :| 0 <= i < |s| && (Special(s[i]) || Quoting(s[i]));
        assert i > 0;
        assert s[1..][i - 1] == s[i];
      }
      UnquoteShortens(s[1..]);
    }
  }

  /** A word reads back as exactly itself if and only if it is plain. */
  lemma UnquoteIdentity(s: string)
    ensures Unquote(s) == Some(s) <==> Plain(s)
  {
    if Plain(s) {
      PlainUnquote(s);
    } else if Unquote(s).Some? {
      UnquoteShortens(s);
    }
  }
}
