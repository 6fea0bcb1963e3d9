/** The LIKE pattern of runtime/query/sql.go and what it matches. */
module Like {

  /** likeEscaper: '!' before each of '!', '%' and '_'. */
  function Escape(s: string): string {
    if s == "" then ""
    else (if s[0] == '!' || s[0] == '%' || s[0] == '_' then ['!', s[0]] else [s[0]]) + Escape(s[1..])
  }

  /** The pattern a "contains" filter binds. */
  function ContainsPattern(s: string): string {
    "%" + Escape(s) + "%"
  }

  /** `text LIKE pattern ESCAPE '!'`, after section 8.5 of SQL-92: '%' stands for any text, '_' for any
      one character, an escaped character and any other for itself. An escape character that does not
      precede one of the three special characters matches nothing. */
  predicate Matches(pattern: string, text: string)
    decreases |pattern| + |text|
  {
    if pattern == "" then text == ""
    else if pattern[0] == '%' then
      Matches(pattern[1..], text) || (text != "" && Matches(pattern, text[1..]))
    else if pattern[0] == '_' then
      text != "" && Matches(pattern[1..], text[1..])
    else if pattern[0] == '!' then
      |pattern| > 1 && (pattern[1] == '!' || pattern[1] == '%' || pattern[1] == '_')
      && text != "" && text[0] == pattern[1] && Matches(pattern[2..], text[1..])
    else
      text != "" && text[0] == pattern[0] && Matches(pattern[1..], text[1..])
  }

  ghost predicate Contains(text: string, s: string) {
    exists i :: 0 <= i <= |text| && s <= text[i..]
  }

  /** An escaped character, or one that needs no escape, matches itself and nothing else. */
  lemma OneMatchesLiterally(c: char, tail: string, text: string)
    ensures Matches(Escape([c]) + tail, text) <==> text != "" && text[0] == c && Matches(tail, text[1..])
  {
    var one := Escape([c]);
    assert [c][1..] == "" && Escape("") == "";
    if |one| == 2 {
      assert one == ['!', c] && (one + tail)[1] == c && (one + tail)[2..] == tail;
    } else {
      assert one == [c] && (one + tail)[1..] == tail;
    }
  }

  lemma EscapeStep(s: string)
    requires s != ""
    ensures Escape(s) == Escape([s[0]]) + Escape(s[1..])
  {
    assert [s[0]][1..] == "" && Escape("") == "";
  }

  lemma PrefixStep(s: string, text: string)
    requires s != ""
    ensures s <= text <==> text != "" && text[0] == s[0] && s[1..] <= text[1..]
    ensures s <= text ==> text[1..][|s| - 1..] == text[|s|..]
  {
    if text != "" && text[0] == s[0] && s[1..] <= text[1..] {
      assert s == [s[0]] + s[1..] && text == [text[0]] + text[1..];
    }
  }

  /** An escaped text matches itself and nothing else. */
  lemma {:induction false} EscapedMatchesLiterally(s: string, rest: string, text: string)
    ensures Matches(Escape(s) + rest, text) <==> s <= text && Matches(rest, text[|s|..])
  {
    hide Matches, Escape;
    if s == "" {
      EscapeNothing(rest);
    } else {
      EscapeStep(s);
      assert Escape(s) + rest == Escape([s[0]]) + (Escape(s[1..]) + rest);
      OneMatchesLiterally(s[0], Escape(s[1..]) + rest, text);
      PrefixStep(s, text);
      if text != "" {
        EscapedMatchesLiterally(s[1..], rest, text[1..]);
      }
    }
  }

  lemma EscapeNothing(rest: string)
    ensures Escape("") + rest == rest
  {}

  lemma {:induction false} AnythingMatchesPercent(text: string)
    ensures Matches("%", text)
  {
    if text != "" {
      AnythingMatchesPercent(text[1..]);
    }
  }

  /** A leading '%' skips any number of characters. */
  lemma {:induction false} PercentSkips(rest: string, text: string)
    ensures Matches("%" + rest, text) <==> exists i :: 0 <= i <= |text| && Matches(rest, text[i..])
    decreases |text|
  {
    assert ("%" + rest)[1..] == rest && text[0..] == text;
    if text != "" {
      PercentSkips(rest, text[1..]);
      assert forall i :: 0 <= i <= |text[1..]| ==> text[1..][i..] == text[i + 1..];
      if exists i :: 0 < i <= |text| && Matches(rest, text[i..]) {
        var i :| 0 < i <= |text| && Matches(rest, text[i..]);
        assert Matches(rest, text[1..][i - 1..]);
      }
    }
  }

  /** The bound pattern matches exactly the texts that contain the search text, whatever wildcards and
      escape characters either holds. */
  lemma PatternMeansContains(s: string, text: string)
    ensures Matches(ContainsPattern(s), text) <==> Contains(text, s)
  {
    assert ContainsPattern(s) == "%" + (Escape(s) + "%");
    PercentSkips(Escape(s) + "%", text);
    forall i | 0 <= i <= |text|
      ensures Matches(Escape(s) + "%", text[i..]) <==> s <= text[i..]
    {
      EscapedMatchesLiterally(s, "%", text[i..]);
      if s <= text[i..] {
        AnythingMatchesPercent(text[i..][|s|..]);
      }
    }
  }
}
