/** The lexer is total; on canonical streams it undoes the printer; and releasing twice is releasing
    once. */
module ChangelogProofs {
  import opened Options
  import opened Changelog

  // ------------------------------------------------------------------------ totality

  function Slices(ms: seq<Lexeme>): string {
    if ms == [] then [] else ms[0].slice + Slices(ms[1..])
  }

  predicate EndsLine(m: Lexeme) {
    m.slice != [] && m.slice[|m.slice| - 1] == '\n'
  }

  /** Match `i` is a line break, or begins a line: `bol` tells whether the text does. */
  predicate Placed(ms: seq<Lexeme>, bol: bool, i: nat)
    requires i < |ms|
  {
    ms[i].slice == "\n" || (if i == 0 then bol else EndsLine(ms[i - 1]))
  }

  /** Every match begins a line, or is a line break. */
  ghost predicate OnLineStarts(ms: seq<Lexeme>, bol: bool) {
    forall i :: 0 <= i < |ms| ==> Placed(ms, bol, i)
  }

  /** A match other than a line break stops at the end of its line. */
  lemma MatchStopsAtLineEnd(s: string)
    requires s != [] && s[0] != '\n'
    ensures MatchLine(s).Some?
    ensures var k := |MatchLine(s).value.slice|; !EndsLine(MatchLine(s).value) && (k == |s| || s[k] == '\n')
    ensures !MatchLine(s).value.token.Mismatch?
  {
    assert LineLength(s) > 0;
    UnderlinedStops(s, '=', 1);
    UnderlinedStops(s, '-', 2);
    HashesStop(s, 3);
    HashesStop(s, 4);
  }

  ghost predicate Stops(s: string, m: Lexeme) {
    m.slice <= s && m.slice != [] && !EndsLine(m) && (|m.slice| == |s| || s[|m.slice|] == '\n') && !m.token.Mismatch?
  }

  lemma UnderlinedStops(s: string, c: char, level: nat)
    requires c != '\n'
    ensures MatchUnderlined(s, c, level).Some? ==> Stops(s, MatchUnderlined(s, c, level).value)
  {
    var n := LineLength(s);
    if MatchUnderlined(s, c, level).Some? {
      var k := LineLength(s[n + 1..]);
      assert s[n + 1..][..k][k - 1] == s[n + k] == c;
      assert n + 1 + k < |s| ==> s[n + 1 + k] == s[n + 1..][k];
    }
  }

  lemma HashesStop(s: string, level: nat)
    ensures MatchHashes(s, level).Some? ==> Stops(s, MatchHashes(s, level).value)
  {
    if MatchHashes(s, level).Some? {
      var rest := s[level..];
      var k := Backtrack(rest, SpaceLength(rest)).value;
      var n := LineLength(rest[k..]);
      assert n > 0;
      assert s[level + k + n - 1] == rest[k..][n - 1];
      assert level + k + n < |s| ==> s[level + k + n] == rest[k..][n];
    }
  }

  lemma NewlineMatch(s: string, bol: bool)
    requires s != [] && s[0] == '\n'
    ensures MatchAt(s, bol) == Lexeme(Newline, "\n")
  {
    assert LineLength(s) == 0;
    assert !(Hashes(3) <= s) by {
      assert Hashes(3)[0] == '#';
    }
    assert !(Hashes(4) <= s) by {
      assert Hashes(4)[0] == '#';
    }
  }

  lemma LexStep(s: string, bol: bool)
    requires s != [] && (bol || s[0] == '\n')
    ensures var m := MatchAt(s, bol);
            && !m.token.Mismatch? && (m.slice == "\n" || bol)
            && (EndsLine(m) || |m.slice| == |s| || s[|m.slice|] == '\n')
  {
    if s[0] == '\n' {
      NewlineMatch(s, bol);
    } else {
      MatchStopsAtLineEnd(s);
    }
  }

  lemma OneMoreMatch(m: Lexeme, ms: seq<Lexeme>, bol: bool)
    requires OnLineStarts(ms, EndsLine(m)) && (m.slice == "\n" || bol)
    ensures OnLineStarts([m] + ms, bol)
  {
    forall i | 0 <= i < |[m] + ms| ensures Placed([m] + ms, bol, i) {
      if i > 0 {
        assert Placed(ms, EndsLine(m), i - 1);
      }
    }
  }

  /** Each match starts at a line start or is a line break, nothing is a mismatch, and the matched
      slices together are the text. */
  ghost predicate Tiles(ms: seq<Lexeme>, s: string, bol: bool) {
    // bound to a name, so that it is proved as one goal and not conjunct by conjunct
    var all := Slices(ms) == s && OnLineStarts(ms, bol) && forall m :: m in ms ==> !m.token.Mismatch?;
    all
  }

  lemma TilesOneMore(m: Lexeme, ms: seq<Lexeme>, s: string, bol: bool)
    requires m.slice <= s && Tiles(ms, s[|m.slice|..], EndsLine(m))
    requires !m.token.Mismatch? && (m.slice == "\n" || bol)
    ensures Tiles([m] + ms, s, bol)
  {
    OneMoreMatch(m, ms, bol);
    SlicesOneMore(m, ms, s);
  }

  /** The lexer is total: on every text its matches tile the text. */
  lemma {:induction false} LexerIsTotal(s: string, bol: bool)
    requires bol || s == [] || s[0] == '\n'
    ensures Tiles(Lex(s, bol), s, bol)
    decreases |s|
  {
    if s != [] {
      var m := MatchAt(s, bol);
      LexStep(s, bol);
      LexerIsTotal(s[|m.slice|..], EndsLine(m));
      TilesOneMore(m, Lex(s[|m.slice|..], EndsLine(m)), s, bol);
    }
  }

  lemma SlicesOneMore(m: Lexeme, ms: seq<Lexeme>, s: string)
    requires m.slice <= s && Slices(ms) == s[|m.slice|..]
    ensures Slices([m] + ms) == s
  {
    assert ([m] + ms)[1..] == ms;
  }

  /** `parse_changelog` never raises. */
  lemma ParserNeverFails(s: string)
    ensures forall t :: t in Parse(s) ==> !t.Mismatch?
  {
    LexerIsTotal(s, true);
    forall t | t in Parse(s) ensures !t.Mismatch? {
      var i :| 0 <= i < |Parse(s)| && Parse(s)[i] == t;
      assert Lex(s, true)[i] in Lex(s, true);
    }
  }

  // --------------------------------------------------------------- canonical streams

  predicate OneLine(s: string) {
    s != [] && '\n' !in s
  }

  /** The text reads as the beginning of an H3 or an H4. */
  predicate HashLine(s: string) {
    || (Hashes(3) <= s && (|s| == 3 || IsSpace(s[3])))
    || (Hashes(4) <= s && (|s| == 4 || IsSpace(s[4])))
  }

  predicate Trim(s: string) {
    s != [] && !IsSpace(s[0]) && !IsSpace(s[|s| - 1])
  }

  predicate Plain(t: Token) {
    match t
    case Title(level, text) => 1 <= level <= 4 && OneLine(text) && Trim(text) && (level <= 2 ==> |text| >= 3)
    case Line(text) => OneLine(text) && !HashLine(text)
    case Newline => true
    case Mismatch(_) => false
  }

  /** The first line that a token prints. */
  function Opening(t: Token): string {
    match t
    case Title(level, text) => if level <= 2 then text else Hashes(level) + " " + text
    case Line(text) => text
    case Newline => ""
    case Mismatch(c) => [c]
  }

  /** A token that an underline on the next line would turn into a title. */
  predicate Exposed(t: Token) {
    t.Line? || (t.Title? && t.level >= 3)
  }

  predicate Underlines(t: Token) {
    IsUnderline(Opening(t), '=') || IsUnderline(Opening(t), '-')
  }

  ghost predicate Canonical(ts: seq<Token>) {
    && (forall i :: 0 <= i < |ts| ==> Plain(ts[i]))
    && (forall i :: 0 <= i < |ts| - 1 ==> ts[i].Newline? || ts[i + 1].Newline?)
    && (forall i :: 0 <= i < |ts| - 2 && Exposed(ts[i]) ==> !Underlines(ts[i + 2]))
  }

  lemma CanonicalTail(ts: seq<Token>)
    requires Canonical(ts) && ts != []
    ensures Canonical(ts[1..])
  {
    var rest := ts[1..];
    forall i | 0 <= i < |rest| - 1 ensures rest[i].Newline? || rest[i + 1].Newline? {
      assert ts[i + 1].Newline? || ts[i + 1 + 1].Newline?;
    }
    forall i | 0 <= i < |rest| - 2 && Exposed(rest[i]) ensures !Underlines(rest[i + 2]) {
      assert Exposed(ts[i + 1]);
      assert rest[i + 2] == ts[i + 1 + 2];
    }
  }

  // ------------------------------------------------------------- lexing what was printed

  lemma {:induction false} LineLengthOf(a: string, b: string)
    requires '\n' !in a && (b == [] || b[0] == '\n')
    ensures LineLength(a + b) == |a|
  {
    if a == [] {
      assert a + b == b;
    } else {
      assert (a + b)[1..] == a[1..] + b;
      LineLengthOf(a[1..], b);
    }
  }

  lemma TrimmedStrip(s: string)
    requires Trim(s)
    ensures Strip(s) == s
  {
  }

  /** What follows a printed token on its line: nothing. */
  predicate AtLineEnd(s: string) {
    s == [] || s[0] == '\n'
  }

  /** The line after the current one. */
  function NextLine(s: string): string {
    if s == [] then [] else s[1..][..LineLength(s[1..])]
  }

  /** The text begins with a line and a bar of the same length below it. */
  ghost predicate HasTitle(s: string, text: string, c: char) {
    var n := |text|;
    && |s| >= n + 1 + n && s[..n] == text && s[n] == '\n'
    && (forall i :: n + 1 <= i < n + 1 + n ==> s[i] == c)
    && (|s| > n + 1 + n ==> s[n + 1 + n] == '\n')
  }

  lemma PrintedTitle(text: string, c: char, rest: string)
    requires AtLineEnd(rest)
    ensures HasTitle(text + "\n" + Repeat(c, |text|) + rest, text, c)
    ensures (text + "\n" + Repeat(c, |text|) + rest)[..|text| + 1 + |text|] == text + "\n" + Repeat(c, |text|)
  {
  }

  lemma TitleLines(s: string, text: string, c: char)
    requires OneLine(text) && c != '\n' && HasTitle(s, text, c)
    ensures LineLength(s) == |text| && LineLength(s[|text| + 1..]) == |text|
    ensures AllOf(s[|text| + 1..][..|text|], c)
  {
    var n := |text|;
    var below := s[n + 1..];
    assert forall i :: 0 <= i < n ==> s[i] == s[..n][i] != '\n';
    assert forall i :: 0 <= i < n ==> below[i] == s[n + 1 + i] == c;
    assert |below| > n ==> below[n] == s[n + 1 + n];
    assert LineLength(below) == n;
    assert LineLength(s) == n;
  }

  lemma UnderlinedTitle(text: string, c: char, level: nat, rest: string)
    requires OneLine(text) && |text| >= 3 && c != '\n' && AtLineEnd(rest)
    ensures var slice := text + "\n" + Repeat(c, |text|);
            MatchUnderlined(slice + rest, c, level) == Some(Lexeme(Title(level, text), slice))
  {
    PrintedTitle(text, c, rest);
    TitleLines(text + "\n" + Repeat(c, |text|) + rest, text, c);
  }

  lemma OtherUnderline(text: string, rest: string)
    requires OneLine(text) && |text| >= 3 && AtLineEnd(rest)
    ensures MatchUnderlined(text + "\n" + Repeat('-', |text|) + rest, '=', 1) == None
  {
    var s := text + "\n" + Repeat('-', |text|) + rest;
    PrintedTitle(text, '-', rest);
    TitleLines(s, text, '-');
    assert s[|text| + 1..][..|text|][0] == '-';
  }

  lemma NotUnderlined(line: string, c: char, level: nat, rest: string)
    requires '\n' !in line && AtLineEnd(rest) && !IsUnderline(NextLine(rest), c)
    ensures MatchUnderlined(line + rest, c, level) == None
  {
    var s := line + rest;
    LineLengthOf(line, rest);
    if |line| < |s| {
      assert s[|line| + 1..] == rest[1..];
    }
  }

  /** The text begins with hashes, a blank and a title that fills the line. */
  ghost predicate HasHashTitle(s: string, level: nat, text: string) {
    var n := level + 1 + |text|;
    && |s| >= n && Hashes(level) <= s && s[level] == ' '
    && s[level + 1..n] == text
    && (|s| > n ==> s[n] == '\n')
  }

  lemma PrintedHashTitle(level: nat, text: string, rest: string)
    requires AtLineEnd(rest)
    ensures HasHashTitle(Hashes(level) + " " + text + rest, level, text)
    ensures (Hashes(level) + " " + text + rest)[..level + 1 + |text|] == Hashes(level) + " " + text
  {
  }

  /** After the hashes: one blank, then the title. */
  lemma HashTitleParts(s: string, level: nat, text: string)
    requires OneLine(text) && Trim(text) && HasHashTitle(s, level, text)
    ensures SpaceLength(s[level..]) == 1
    ensures s[level..][1] != '\n'
    ensures LineLength(s[level..][1..]) == |text| && s[level..][1..][..|text|] == text
  {
    var after := s[level..];
    var tail := after[1..];
    var title := s[level + 1..level + 1 + |text|];
    assert forall i :: 0 <= i < |text| ==> tail[i] == s[level + 1 + i] == title[i];
    assert |tail| > |text| ==> tail[|text|] == s[level + 1 + |text|];
    assert LineLength(tail) == |text|;
    assert after[0] == ' ' && after[1] == text[0];
    assert SpaceLength(tail) == 0;
  }

  lemma HashTitle(level: nat, text: string, rest: string)
    requires OneLine(text) && Trim(text) && AtLineEnd(rest)
    ensures var slice := Hashes(level) + " " + text;
            MatchHashes(slice + rest, level) == Some(Lexeme(Title(level, text), slice))
  {
    var s := Hashes(level) + " " + text + rest;
    PrintedHashTitle(level, text, rest);
    HashTitleParts(s, level, text);
    assert Backtrack(s[level..], 1) == Some(1);
  }

  lemma NoHashes(line: string, rest: string, level: nat)
    requires OneLine(line) && AtLineEnd(rest) && (level == 3 || level == 4)
    requires Hashes(level) <= line ==> |line| > level && !IsSpace(line[level])
    ensures MatchHashes(line + rest, level) == None
  {
    var s := line + rest;
    if Hashes(level) <= s {
      HashesInLine(line, rest, level);
      assert s[level..][0] == line[level];
      assert SpaceLength(s[level..]) == 0;
    }
  }

  lemma HashesInLine(line: string, rest: string, level: nat)
    requires OneLine(line) && AtLineEnd(rest) && Hashes(level) <= line + rest
    ensures Hashes(level) <= line
  {
    var s := line + rest;
    assert s[..level] == Hashes(level);
    assert forall i :: 0 <= i < level ==> s[i] == s[..level][i] == '#';
    assert |line| < |s| ==> s[|line|] == '\n';
    assert line[..level] == s[..level];
  }

  lemma HashesChosen(s: string, level: nat)
    requires level == 3 || (level == 4 && MatchHashes(s, 3).None?)
    requires MatchUnderlined(s, '=', 1).None? && MatchUnderlined(s, '-', 2).None? && MatchHashes(s, level).Some?
    ensures MatchLine(s) == MatchHashes(s, level)
  {
  }

  lemma LexHashTitle(t: Token, rest: string)
    requires t.Title? && Plain(t) && t.level >= 3 && AtLineEnd(rest)
    requires !IsUnderline(NextLine(rest), '=') && !IsUnderline(NextLine(rest), '-')
    ensures MatchLine(Hashes(t.level) + " " + t.text + rest) == Some(Lexeme(t, Hashes(t.level) + " " + t.text))
  {
    var line := Hashes(t.level) + " " + t.text;
    NotUnderlined(line, '=', 1, rest);
    NotUnderlined(line, '-', 2, rest);
    HashTitle(t.level, t.text, rest);
    if t.level == 4 {
      FourAreNotThree(t.text);
      NoHashes(line, rest, 3);
    }
    HashesChosen(line + rest, t.level);
  }

  lemma LexTitle(t: Token, rest: string)
    requires t.Title? && Plain(t) && AtLineEnd(rest)
    requires t.level >= 3 ==> !IsUnderline(NextLine(rest), '=') && !IsUnderline(NextLine(rest), '-')
    ensures MatchLine(Str(t) + rest) == Some(Lexeme(t, Str(t)))
  {
    TrimmedStrip(t.text);
    if t.level == 1 {
      UnderlinedTitle(t.text, '=', 1, rest);
    } else if t.level == 2 {
      OtherUnderline(t.text, rest);
      UnderlinedTitle(t.text, '-', 2, rest);
    } else {
      LexHashTitle(t, rest);
    }
  }

  lemma FourAreNotThree(text: string)
    ensures var line := Hashes(4) + " " + text; |line| > 3 && !IsSpace(line[3])
  {
    assert (Hashes(4) + " " + text)[3] == '#';
  }

  lemma LexLine(text: string, rest: string)
    requires OneLine(text) && !HashLine(text) && AtLineEnd(rest)
    requires !IsUnderline(NextLine(rest), '=') && !IsUnderline(NextLine(rest), '-')
    ensures MatchLine(text + rest) == Some(Lexeme(Line(text), text))
  {
    NotUnderlined(text, '=', 1, rest);
    NotUnderlined(text, '-', 2, rest);
    NoHashes(text, rest, 3);
    NoHashes(text, rest, 4);
    LineLengthOf(text, rest);
    assert (text + rest)[..|text|] == text;
  }

  lemma PrintedLine(t: Token, rest: string)
    requires Plain(t) && (t.Newline? || AtLineEnd(rest))
    ensures (Str(t) + rest)[..LineLength(Str(t) + rest)] == Opening(t)
  {
    match t
    case Newline => assert LineLength("\n" + rest) == 0;
    case Line(text) => LineLengthOf(text, rest);
    case Title(level, text) =>
      TrimmedStrip(text);
      if level <= 2 {
        var bar := Repeat(if level == 1 then '=' else '-', |text|);
        assert Str(t) + rest == text + ("\n" + bar + rest);
        LineLengthOf(text, "\n" + bar + rest);
      } else {
        LineLengthOf(Hashes(level) + " " + text, rest);
      }
  }

  lemma PrintStarts(ts: seq<Token>)
    requires ts == [] || ts[0].Newline?
    ensures AtLineEnd(Print(ts))
  {
  }

  /** After an exposed token, the next printed line is no underline. */
  lemma NextLineIsSafe(ts: seq<Token>)
    requires Canonical(ts) && ts != [] && Exposed(ts[0])
    ensures !IsUnderline(NextLine(Print(ts[1..])), '=') && !IsUnderline(NextLine(Print(ts[1..])), '-')
  {
    var rest := ts[1..];
    if rest != [] {
      assert ts[0].Newline? || ts[0 + 1].Newline?;
      var after := rest[1..];
      assert Print(rest) == "\n" + Print(after);
      assert Print(rest)[1..] == Print(after);
      if after != [] {
        assert after[0] == ts[0 + 2];
        CanonicalTail(ts);
        CanonicalTail(rest);
        FirstPrintedLine(after);
      }
    }
  }

  lemma FirstPrintedLine(ts: seq<Token>)
    requires Canonical(ts) && ts != []
    ensures Print(ts)[..LineLength(Print(ts))] == Opening(ts[0])
  {
    if !ts[0].Newline? && |ts| > 1 {
      assert ts[0].Newline? || ts[0 + 1].Newline?;
      PrintStarts(ts[1..]);
    }
    PrintedLine(ts[0], Print(ts[1..]));
  }

  lemma FirstTokenBack(ts: seq<Token>, bol: bool)
    requires Canonical(ts) && ts != [] && (bol || ts[0].Newline?)
    ensures Print(ts) != [] && MatchAt(Print(ts), bol) == Lexeme(ts[0], Str(ts[0]))
  {
    var rest := Print(ts[1..]);
    if ts[0].Newline? {
      NewlineMatch(Print(ts), bol);
    } else {
      if |ts| > 1 {
        assert ts[0].Newline? || ts[0 + 1].Newline?;
      }
      PrintStarts(ts[1..]);
      if Exposed(ts[0]) {
        NextLineIsSafe(ts);
      }
      if ts[0].Line? {
        LexLine(ts[0].text, rest);
      } else {
        LexTitle(ts[0], rest);
      }
    }
  }

  lemma LastCharacter(t: Token)
    requires Plain(t)
    ensures Str(t) != [] && (Str(t)[|Str(t)| - 1] == '\n' <==> t.Newline?)
  {
    if t.Title? {
      TrimmedStrip(t.text);
    }
  }

  lemma TokensOneMore(m: Lexeme, ms: seq<Lexeme>)
    ensures TokensOf([m] + ms) == [m.token] + TokensOf(ms)
  {
  }

  lemma Remainder(s: string, slice: string, rest: string)
    requires s == slice + rest
    ensures s[|slice|..] == rest
  {
  }

  lemma RestStarts(ts: seq<Token>)
    requires Canonical(ts) && ts != []
    ensures ts[0].Newline? || ts[1..] == [] || ts[1..][0].Newline?
  {
    if |ts| > 1 {
      assert ts[0].Newline? || ts[0 + 1].Newline?;
    }
  }

  lemma LexUnfolds(s: string, bol: bool)
    requires s != []
    ensures var m := MatchAt(s, bol);
            Lex(s, bol) == [m] + Lex(s[|m.slice|..], EndsLine(m))
  {
  }

  lemma LexHead(ts: seq<Token>, bol: bool)
    requires Canonical(ts) && ts != [] && (bol || ts[0].Newline?)
    ensures Lex(Print(ts), bol) == [Lexeme(ts[0], Str(ts[0]))] + Lex(Print(ts[1..]), ts[0].Newline?)
  {
    FirstTokenBack(ts, bol);
    LexUnfolds(Print(ts), bol);
    LastCharacter(ts[0]);
    Remainder(Print(ts), Str(ts[0]), Print(ts[1..]));
  }

  /** On canonical streams, lexing the printed text gives the stream back. */
  lemma {:induction false} LexPrintRoundTrip(ts: seq<Token>, bol: bool)
    requires Canonical(ts) && (bol || ts == [] || ts[0].Newline?)
    ensures TokensOf(Lex(Print(ts), bol)) == ts
    decreases |ts|
  {
    if ts != [] {
      LexHead(ts, bol);
      CanonicalTail(ts);
      RestStarts(ts);
      LexPrintRoundTrip(ts[1..], ts[0].Newline?);
      TokensOneMore(Lexeme(ts[0], Str(ts[0])), Lex(Print(ts[1..]), ts[0].Newline?));
    }
  }
}
