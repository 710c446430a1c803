/** The changelog lexer and printer of the release script: one alternation of regular expressions,
    tried in order at each position, `^` and `$` matching at line breaks. */
module Changelog {
  import opened Options

  datatype Token = Title(level: nat, text: string) | Line(text: string) | Newline | Mismatch(c: char)

  /** A match: the token it gives and the text it takes. */
  datatype Lexeme = Lexeme(token: Token, slice: string)

  /** White space, for `\s`, `str.strip` and `str.split` alike. */
  predicate IsSpace(c: char) {
    var n := c as int;
    || 0x09 <= n <= 0x0d || 0x1c <= n <= 0x20 || n == 0x85 || n == 0xa0 || n == 0x1680
    || 0x2000 <= n <= 0x200a || n == 0x2028 || n == 0x2029 || n == 0x202f || n == 0x205f || n == 0x3000
  }

  /** The length of `[^\n]*`. */
  function LineLength(s: string): (n: nat)
    ensures n <= |s|
    ensures forall i :: 0 <= i < n ==> s[i] != '\n'
    ensures n < |s| ==> s[n] == '\n'
  {
    if s == [] || s[0] == '\n' then 0 else 1 + LineLength(s[1..])
  }

  /** The length of `\s*`. */
  function SpaceLength(s: string): (n: nat)
    ensures n <= |s|
    ensures forall i :: 0 <= i < n ==> IsSpace(s[i])
    ensures n < |s| ==> !IsSpace(s[n])
  {
    if s == [] || !IsSpace(s[0]) then 0 else 1 + SpaceLength(s[1..])
  }

  predicate AllOf(s: string, c: char) {
    forall i :: 0 <= i < |s| ==> s[i] == c
  }

  predicate IsUnderline(line: string, c: char) {
    |line| >= 3 && AllOf(line, c)
  }

  /** `^([^\n]+)\n={3,}$`, or with dashes. */
  function MatchUnderlined(s: string, c: char, level: nat): (m: Option<Lexeme>)
    ensures m.Some? ==> m.value.slice != [] && m.value.slice <= s
  {
    var n := LineLength(s);
    if n == 0 || n == |s| then None
    else
      var k := LineLength(s[n + 1..]);
      if IsUnderline(s[n + 1..][..k], c) then Some(Lexeme(Title(level, s[..n]), s[..n + 1 + k])) else None
  }

  /** Backtracking in `\s+([^\n]+)`: the most white space, at most `j`, that leaves the title a character. */
  function Backtrack(s: string, j: nat): (k: Option<nat>)
    requires j <= |s|
    ensures k.Some? ==> 0 < k.value <= j && k.value < |s| && s[k.value] != '\n'
  {
    if j == 0 then None
    else if j < |s| && s[j] != '\n' then Some(j)
    else Backtrack(s, j - 1)
  }

  function Hashes(n: nat): string {
    seq(n, i => '#')
  }

  /** `^#{3}\s+([^\n]+)$`, or with four. */
  function MatchHashes(s: string, level: nat): (m: Option<Lexeme>)
    ensures m.Some? ==> m.value.slice != [] && m.value.slice <= s
  {
    if !(Hashes(level) <= s) then None
    else
      var rest := s[level..];
      match Backtrack(rest, SpaceLength(rest))
      case None => None
      case Some(k) =>
        var n := LineLength(rest[k..]);
        Some(Lexeme(Title(level, rest[k..][..n]), s[..level + k + n]))
  }

  /** The alternatives that start with `^`, in their order. */
  function MatchLine(s: string): (m: Option<Lexeme>)
    ensures m.Some? ==> m.value.slice != [] && m.value.slice <= s
  {
    if MatchUnderlined(s, '=', 1).Some? then MatchUnderlined(s, '=', 1)
    else if MatchUnderlined(s, '-', 2).Some? then MatchUnderlined(s, '-', 2)
    else if MatchHashes(s, 3).Some? then MatchHashes(s, 3)
    else if MatchHashes(s, 4).Some? then MatchHashes(s, 4)
    else if LineLength(s) > 0 then Some(Lexeme(Line(s[..LineLength(s)]), s[..LineLength(s)]))
    else None
  }

  /** The match at the head of `s`; `bol` says whether this is the beginning of a line. */
  function MatchAt(s: string, bol: bool): (m: Lexeme)
    requires s != []
    ensures m.slice != [] && m.slice <= s
  {
    if bol && MatchLine(s).Some? then MatchLine(s).value
    else if s[0] == '\n' then Lexeme(Newline, "\n")
    else Lexeme(Mismatch(s[0]), [s[0]])
  }

  /** `re.finditer`: there is always a match, so it never skips a character. */
  function Lex(s: string, bol: bool): seq<Lexeme>
    decreases |s|
  {
    if s == [] then []
    else
      var m := MatchAt(s, bol);
      [m] + Lex(s[|m.slice|..], m.slice[|m.slice| - 1] == '\n')
  }

  function TokensOf(ms: seq<Lexeme>): seq<Token> {
    seq(|ms|, i requires 0 <= i < |ms| => ms[i].token)
  }

  /** `parse_changelog`. */
  function Parse(s: string): seq<Token> {
    TokensOf(Lex(s, true))
  }

  // ------------------------------------------------------------------------ printing

  function StripLeft(s: string): string {
    if s != [] && IsSpace(s[0]) then StripLeft(s[1..]) else s
  }

  function StripRight(s: string): string {
    if s != [] && IsSpace(s[|s| - 1]) then StripRight(s[..|s| - 1]) else s
  }

  function Strip(s: string): string {
    StripRight(StripLeft(s))
  }

  function Repeat(c: char, n: nat): string {
    seq(n, i => c)
  }

  function Str(t: Token): string {
    match t
    case Title(level, text) =>
      var title := Strip(text);
      if level == 1 then title + "\n" + Repeat('=', |title|)
      else if level == 2 then title + "\n" + Repeat('-', |title|)
      else Hashes(level) + " " + title
    case Line(text) => text
    case Newline => "\n"
    case Mismatch(c) => [c]
  }

  function Print(ts: seq<Token>): string {
    if ts == [] then [] else Str(ts[0]) + Print(ts[1..])
  }

  // ------------------------------------------------------------------------ updating

  function WordLength(s: string): (n: nat)
    ensures n <= |s|
  {
    if s == [] || IsSpace(s[0]) then 0 else 1 + WordLength(s[1..])
  }

  /** `s.split()[0]`; `None` stands for the IndexError of a text without words. */
  function FirstWord(s: string): Option<string> {
    var t := StripLeft(s);
    if t == [] then None else Some(t[..WordLength(t)])
  }

  function NewTitle(version: string, date: string): string {
    "v" + version + " (" + date + ")"
  }

  predicate IsRelease(t: Token) {
    t.Title? && t.level == 2
  }

  /** The tokens after the update: the first release title gets the new date when it is the title of
      the same version, and the new title in front of it otherwise. */
  function Update(ts: seq<Token>, title: string): Option<seq<Token>> {
    if ts == [] then Some([])
    else if !IsRelease(ts[0]) then
      match Update(ts[1..], title)
      case None => None
      case Some(rest) => Some([ts[0]] + rest)
    else if FirstWord(ts[0].text).None? then None
    else if FirstWord(ts[0].text) == FirstWord(title) then Some([Title(2, title)] + ts[1..])
    else Some([Title(2, title), Newline, Newline, Newline] + ts)
  }

  /** The index of the first release title, or the length. */
  function FirstRelease(ts: seq<Token>): (i: nat)
    ensures i <= |ts|
    ensures forall j :: 0 <= j < i ==> !IsRelease(ts[j])
    ensures i < |ts| ==> IsRelease(ts[i])
  {
    if ts == [] || IsRelease(ts[0]) then 0 else 1 + FirstRelease(ts[1..])
  }

  function Prepended(before: seq<Token>, rest: Option<seq<Token>>): Option<seq<Token>> {
    if rest.None? then None else Some(before + rest.value)
  }

  lemma PrependedNothing(rest: Option<seq<Token>>)
    ensures Prepended([], rest) == rest
  {
    if rest.Some? {
      assert [] + rest.value == rest.value;
    }
  }

  lemma PrependedMore(before: seq<Token>, t: Token, rest: Option<seq<Token>>)
    ensures Prepended(before, Prepended([t], rest)) == Prepended(before + [t], rest)
  {
    if rest.Some? {
      assert before + ([t] + rest.value) == before + [t] + rest.value;
    }
  }

  /** What the release title `ts[0]` and the tokens after it become, behind `before`. */
  lemma AtRelease(before: seq<Token>, ts: seq<Token>, title: string)
    requires ts != [] && IsRelease(ts[0])
    ensures var t, four := Title(2, title), [Title(2, title), Newline, Newline, Newline];
            Prepended(before, Update(ts, title)) ==
            if FirstWord(ts[0].text).None? then None
            else if FirstWord(ts[0].text) == FirstWord(title) then Some(before + [t] + ts[1..])
            else Some(before + (four + [ts[0]]) + ts[1..])
  {
    var four := [Title(2, title), Newline, Newline, Newline];
    assert before + ([Title(2, title)] + ts[1..]) == before + [Title(2, title)] + ts[1..];
    assert ts == [ts[0]] + ts[1..];
    assert before + (four + ([ts[0]] + ts[1..])) == before + (four + [ts[0]]) + ts[1..];
  }

  lemma AfterRelease(out: seq<Token>, ts: seq<Token>)
    requires ts != []
    ensures out + ts == out + [ts[0]] + ts[1..]
  {
  }

  lemma NotRelease(before: seq<Token>, ts: seq<Token>, title: string)
    requires ts != [] && !IsRelease(ts[0])
    ensures Prepended(before, Update(ts, title)) == Prepended(before + [ts[0]], Update(ts[1..], title))
  {
    PrependedMore(before, ts[0], Update(ts[1..], title));
  }

  /** `update_changelog`; when the generator ends with an exception, `ok` is false and `out` is what
      it had yielded by then: everything before the first release title. */
  method UpdateChangelog(tokens: seq<Token>, version: string, date: string) returns (out: seq<Token>, ok: bool)
    ensures var title := "v" + version + " (" + date + ")";
            (ok <==> Update(tokens, title).Some?) && (ok ==> Update(tokens, title) == Some(out))
    ensures !ok ==> out == tokens[..FirstRelease(tokens)]
  {
    var newTitle := NewTitle(version, date);
    var firstReleaseFound := false;
    out, ok := [], true;
    PrependedNothing(Update(tokens, newTitle));
    assert tokens[0..] == tokens;
    var i := 0;
    while i < |tokens|
      invariant 0 <= i <= |tokens| && ok
      invariant if firstReleaseFound then Update(tokens, newTitle) == Some(out + tokens[i..])
                else out == tokens[..i] && Update(tokens, newTitle) == Prepended(out, Update(tokens[i..], newTitle))
      invariant !firstReleaseFound ==> forall j :: 0 <= j < i ==> !IsRelease(tokens[j])
    {
      var token, rest := tokens[i], tokens[i..];
      assert rest[1..] == tokens[i + 1..];
      if firstReleaseFound {
        AfterRelease(out, rest);
        out := out + [token];
      } else if IsRelease(token) {
        AtRelease(out, rest, newTitle);
        firstReleaseFound := true;
        if FirstWord(token.text).None? {
          return out, false;
        }
        if FirstWord(token.text) == FirstWord(newTitle) {
          out := out + [Title(2, newTitle)];
        } else {
          out := out + ([Title(2, newTitle), Newline, Newline, Newline] + [token]);
        }
      } else {
        NotRelease(out, rest, newTitle);
        out := out + [token];
      }
      i := i + 1;
    }
    assert tokens[i..] == [] && out + [] == out;
  }

  /** The whole script on the text of the changelog. */
  function UpdateText(s: string, title: string): Option<string> {
    match Update(Parse(s), title)
    case None => None
    case Some(ts) => Some(Print(ts))
  }

  lemma {:induction false} PrintMore(ts: seq<Token>, t: Token)
    ensures Print(ts + [t]) == Print(ts) + Str(t)
  {
    if ts != [] {
      assert (ts + [t])[1..] == ts[1..] + [t];
      PrintMore(ts[1..], t);
      assert Str(ts[0]) + (Print(ts[1..]) + Str(t)) == Str(ts[0]) + Print(ts[1..]) + Str(t);
    } else {
      assert [t][1..] == [];
    }
  }

  /** The changelog is opened for writing and the tokens are printed into it as they come: after an
      exception the file holds the text before the first release title and nothing more. */
  method RewriteChangelog(text: string, version: string, date: string) returns (file: string, ok: bool)
    ensures var title := "v" + version + " (" + date + ")";
            (ok <==> UpdateText(text, title).Some?) && (ok ==> UpdateText(text, title) == Some(file))
    ensures !ok ==> file == Print(Parse(text)[..FirstRelease(Parse(text))])
  {
    var tokens;
    tokens, ok := UpdateChangelog(Parse(text), version, date);
    file := "";
    for i := 0 to |tokens|
      invariant file == Print(tokens[..i])
    {
      PrintMore(tokens[..i], tokens[i]);
      assert tokens[..i + 1] == tokens[..i] + [tokens[i]];
      file := file + Str(tokens[i]);
    }
    assert tokens[..|tokens|] == tokens;
  }
}
