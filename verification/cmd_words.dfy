/**
 * Quote removal for one word on a `cmd` command line: the reference reading
 * against which `shlex_windows` is judged.
 *
 * Each double quote toggles quoting and is removed; inside quotes every
 * other character is literal; outside quotes a blank ends the word and
 * `& | < > ^` are operators or escapes. `Unquote(s, false)` is the single
 * word `cmd` reads from `s`, or `None` when `s` is not exactly one literal
 * word (an operator character, a blank, or a quote left open). It performs
 * quote removal only: `%VAR%` expansion is not part of this reading.
 */
module CmdWords {
  import opened Results
  import opened Text

  /** Characters `cmd` treats specially outside double quotes. */
  predicate Special(c: char) {
    c == ' ' || c == '\t' || c == '&' || c == '|' || c == '<' || c == '>' || c == '^'
  }

  /** A word that needs no quoting. */
  predicate Plain(s: string) {
    forall i | 0 <= i < |s| :: s[i] != '"' && !Special(s[i])
  }

  /** The word read from `s`, starting inside quotes when `quoted` holds. */
  function Unquote(s: string, quoted: bool): (r: Option<string>)
    ensures r.Some? ==> |r.value| == |s| - Count(s, '"')
  {
    if s == [] then (if quoted then None else Some(""))
    else if s[0] == '"' then Unquote(s[1..], !quoted)
    else if !quoted && Special(s[0]) then None
    else Prepend([s[0]], Unquote(s[1..], quoted))
  }

  /** Inside quotes, a quote-free text followed by the closing quote reads as itself. */
  lemma {:induction false} QuotedSpan(s: string)
    requires '"' !in s
    ensures Unquote(s + "\"", true) == Some(s)
  {
    if s != [] {
      assert '"' !in s[1..] by {
        assert forall i | 0 <= i < |s[1..]| :: s[1..][i] == s[i + 1];
      }
      QuotedSpan(s[1..]);
      assert (s + "\"")[1..] == s[1..] + "\"";
      assert [s[0]] + s[1..] == s;
    }
  }

  /** A plain word reads back as itself. */
  lemma {:induction false} PlainUnquote(s: string)
    requires Plain(s)
    ensures Unquote(s, false) == Some(s)
  {
    if s != [] {
      assert Plain(s[1..]) by {
        assert forall i | 0 <= i < |s[1..]| :: s[1..][i] == s[i + 1];
      }
      PlainUnquote(s[1..]);
      assert [s[0]] + s[1..] == s;
    }
  }

  /** Without any quote, an unquoted special character makes the text no single word. */
  lemma {:induction false} UnquotedSpecial(s: string)
    requires '"' !in s && !Plain(s)
    ensures Unquote(s, false) == None
  {
    if !Special(s[0]) {
      assert '"' !in s[1..] && !Plain(s[1..]) by {
        assert forall i | 0 <= i < |s[1..]| :: s[1..][i] == s[i + 1];
        var i :| 0 <= i < |s| && (s[i] == '"' || Special(s[i]));
        assert i > 0 && s[1..][i - 1] == s[i];
      }
      UnquotedSpecial(s[1..]);
    }
  }

  /** A word reads back as exactly itself if and only if it is plain. */
  lemma UnquoteIdentity(s: string)
    ensures Unquote(s, false) == Some(s) <==> Plain(s)
  {
    if Plain(s) {
      PlainUnquote(s);
    } else if Unquote(s, false) == Some(s) {
      CountZero(s, '"');
      UnquotedSpecial(s);
    }
  }
}
