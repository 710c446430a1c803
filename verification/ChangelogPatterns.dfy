/** The functions of the lexer and of the update against what they stand for: the regular expressions
    as relations, `strip` and `split`, and the first title of level two. */
module ChangelogPatterns {
  import opened Options
  import opened Changelog
  import opened ChangelogProofs
  import opened ChangelogUpdate

  // ---------------------------------------------------------------------- white space

  /** The white space characters, one by one. */
  lemma SpaceCodes(c: char)
    ensures IsSpace(c) <==> c as int in {
              9, 10, 11, 12, 13, 28, 29, 30, 31, 32, 133, 160, 5760, 8192, 8193, 8194, 8195, 8196, 8197, 8198, 8199,
              8200, 8201, 8202, 8232, 8233, 8239, 8287, 12288}
  {
  }

  // ----------------------------------------------------------------- titles over a bar

  /** `s` begins with a match of `^([^\n]+)\nc{3,}$` whose group is `text`. */
  ghost predicate HasBar(s: string, c: char, text: string, bar: string, rest: string) {
    && s == text + "\n" + bar + rest && AtLineEnd(rest)
    && text != [] && '\n' !in text && |bar| >= 3 && AllOf(bar, c)
  }

  lemma FourPieces(a: string, b: string, c: string, d: string)
    ensures var s := a + b + c + d;
            && s == a + (b + c + d) && s == a + b + (c + d)
            && s[..|a|] == a && s[|a| + |b|..] == c + d && (c + d)[..|c|] == c && (c + d)[|c|..] == d
            && s[..|a| + |b| + |c|] == a + b + c
  {
  }

  lemma Glued(s: string, n: nat, k: nat)
    requires n < |s| && s[n] == '\n' && k <= |s[n + 1..]|
    ensures s == s[..n] + "\n" + s[n + 1..][..k] + s[n + 1..][k..]
  {
    var below := s[n + 1..];
    assert s == s[..n] + "\n" + below;
    assert below == below[..k] + below[k..];
  }

  lemma NoBreakIn(bar: string, c: char)
    requires AllOf(bar, c) && c != '\n'
    ensures '\n' !in bar
  {
  }

  lemma BarIsMatched(c: char, level: nat, text: string, bar: string, rest: string)
    requires c != '\n' && HasBar(text + "\n" + bar + rest, c, text, bar, rest)
    ensures MatchUnderlined(text + "\n" + bar + rest, c, level) == Some(Lexeme(Title(level, text), text + "\n" + bar))
  {
    FourPieces(text, "\n", bar, rest);
    LineLengthOf(text, "\n" + bar + rest);
    NoBreakIn(bar, c);
    LineLengthOf(bar, rest);
  }

  lemma FirstLine(s: string)
    ensures '\n' !in s[..LineLength(s)] && AtLineEnd(s[LineLength(s)..])
  {
  }

  lemma MatchedIsBar(s: string, c: char, level: nat) returns (text: string, bar: string, rest: string)
    requires MatchUnderlined(s, c, level).Some?
    ensures HasBar(s, c, text, bar, rest)
  {
    var n := LineLength(s);
    var k := LineLength(s[n + 1..]);
    text, bar, rest := s[..n], s[n + 1..][..k], s[n + 1..][k..];
    Glued(s, n, k);
    FirstLine(s);
    FirstLine(s[n + 1..]);
  }

  /** The match is that of the regular expression. */
  lemma UnderlinedMeans(s: string, c: char, level: nat, text: string, slice: string)
    requires c != '\n'
    ensures MatchUnderlined(s, c, level) == Some(Lexeme(Title(level, text), slice)) <==>
            exists bar, rest :: HasBar(s, c, text, bar, rest) && slice == text + "\n" + bar
  {
    if MatchUnderlined(s, c, level).Some? {
      var text', bar, rest := MatchedIsBar(s, c, level);
      BarIsMatched(c, level, text', bar, rest);
    }
    if bar, rest :| HasBar(s, c, text, bar, rest) && slice == text + "\n" + bar {
      BarIsMatched(c, level, text, bar, rest);
    }
  }

  // -------------------------------------------------------------- titles behind hashes

  /** `s` begins with a match of `^#{level}\s+([^\n]+)$` whose group is `text`. */
  ghost predicate HasHashes(s: string, level: nat, space: string, text: string, rest: string) {
    && s == Hashes(level) + space + text + rest && AtLineEnd(rest)
    && space != [] && AllSpace(space) && text != [] && '\n' !in text
  }

  lemma {:induction false} BacktrackIsLongest(s: string, j: nat)
    requires j <= |s|
    ensures match Backtrack(s, j)
            case Some(k) => forall i :: k < i <= j && i < |s| ==> s[i] == '\n'
            case None => forall i :: 0 < i <= j && i < |s| ==> s[i] == '\n'
    decreases j
  {
    if j > 0 && !(j < |s| && s[j] != '\n') {
      BacktrackIsLongest(s, j - 1);
    }
  }

  lemma {:induction false} SpaceAtLeast(space: string, rest: string)
    requires AllSpace(space)
    ensures SpaceLength(space + rest) >= |space|
  {
    if space != [] {
      assert (space + rest)[1..] == space[1..] + rest;
      SpaceAtLeast(space[1..], rest);
    }
  }

  /** How much white space the matcher takes behind the hashes. */
  function Taken(s: string, level: nat): Option<nat>
    requires level <= |s|
  {
    Backtrack(s[level..], SpaceLength(s[level..]))
  }

  /** No reading of the text has more white space than the matcher takes. */
  lemma HashesFindLongest(s: string, level: nat, space: string, text: string, rest: string)
    requires HasHashes(s, level, space, text, rest)
    ensures level <= |s| && Hashes(level) <= s && MatchHashes(s, level).Some?
    ensures Taken(s, level).Some? && |space| <= Taken(s, level).value
  {
    var behind := space + (text + rest);
    FourPieces(Hashes(level), space, text, rest);
    assert s[level..] == behind;
    SpaceAtLeast(space, text + rest);
    assert behind[|space|] == text[0] && text[0] in text;
    BacktrackIsLongest(behind, SpaceLength(behind));
  }

  lemma FoundHasHashes(s: string, level: nat) returns (space: string, text: string, rest: string)
    requires MatchHashes(s, level).Some?
    ensures level <= |s| && Taken(s, level).Some? && |space| == Taken(s, level).value
    ensures HasHashes(s, level, space, text, rest)
    ensures MatchHashes(s, level).value == Lexeme(Title(level, text), Hashes(level) + space + text)
  {
    var behind := s[level..];
    var k := Backtrack(behind, SpaceLength(behind)).value;
    var n := LineLength(behind[k..]);
    space, text, rest := behind[..k], behind[k..][..n], behind[k..][n..];
    InFour(s, level, k, n);
  }

  lemma InFour(s: string, level: nat, k: nat, n: nat)
    requires Hashes(level) <= s && k <= |s[level..]| && n <= |s[level..][k..]|
    ensures var behind := s[level..];
            && s == Hashes(level) + behind[..k] + behind[k..][..n] + behind[k..][n..]
            && s[..level + k + n] == Hashes(level) + behind[..k] + behind[k..][..n]
  {
  }

  /** The match is that of the regular expression with greedy `\s+`: there is one exactly when the
      text can be read so, and of all readings it is the one with the most white space. */
  lemma HashesMean(s: string, level: nat)
    ensures MatchHashes(s, level).Some? <==> exists space, text, rest :: HasHashes(s, level, space, text, rest)
    ensures MatchHashes(s, level).Some? ==>
              exists space, text, rest ::
                && HasHashes(s, level, space, text, rest)
                && MatchHashes(s, level).value == Lexeme(Title(level, text), Hashes(level) + space + text)
                && Greediest(s, level, |space|)
  {
    if space, text, rest :| HasHashes(s, level, space, text, rest) {
      HashesFindLongest(s, level, space, text, rest);
    }
    if MatchHashes(s, level).Some? {
      var space, text, rest := FoundHasHashes(s, level);
      TakenIsGreediest(s, level, |space|);
    }
  }

  ghost predicate Greediest(s: string, level: nat, k: nat) {
    forall space, text, rest :: HasHashes(s, level, space, text, rest) ==> |space| <= k
  }

  lemma TakenIsGreediest(s: string, level: nat, k: nat)
    requires level <= |s| && Taken(s, level) == Some(k)
    ensures Greediest(s, level, k)
  {
    forall space, text, rest | HasHashes(s, level, space, text, rest) ensures |space| <= k {
      HashesFindLongest(s, level, space, text, rest);
    }
  }

  // ------------------------------------------------------------------- strip and split

  /** `s` is `w` between white space. */
  ghost predicate Between(s: string, a: string, w: string, b: string) {
    s == a + w + b && AllSpace(a) && AllSpace(b)
  }

  lemma {:induction false} StripLeftMeans(s: string) returns (a: string)
    ensures s == a + StripLeft(s) && AllSpace(a)
    ensures StripLeft(s) != [] ==> !IsSpace(StripLeft(s)[0])
  {
    if s != [] && IsSpace(s[0]) {
      var rest := StripLeftMeans(s[1..]);
      a := [s[0]] + rest;
    } else {
      a := [];
    }
  }

  lemma {:induction false} StripRightMeans(s: string) returns (b: string)
    ensures s == StripRight(s) + b && AllSpace(b)
    ensures StripRight(s) != [] ==> StripRight(s)[0] == s[0] && !IsSpace(StripRight(s)[|StripRight(s)| - 1])
    decreases |s|
  {
    if s != [] && IsSpace(s[|s| - 1]) {
      var rest := StripRightMeans(s[..|s| - 1]);
      b := rest + [s[|s| - 1]];
    } else {
      b := [];
    }
  }

  /** `str.strip`: what is left begins and ends with something else than white space. */
  lemma StripMeans(s: string) returns (a: string, b: string)
    ensures Between(s, a, Strip(s), b)
    ensures Strip(s) != [] ==> !IsSpace(Strip(s)[0]) && !IsSpace(Strip(s)[|Strip(s)| - 1])
  {
    a := StripLeftMeans(s);
    b := StripRightMeans(StripLeft(s));
  }

  lemma {:induction false} WordLengthMeans(s: string)
    ensures forall i :: 0 <= i < WordLength(s) ==> !IsSpace(s[i])
    ensures WordLength(s) < |s| ==> IsSpace(s[WordLength(s)])
  {
    if s != [] && !IsSpace(s[0]) {
      WordLengthMeans(s[1..]);
    }
  }

  /** `w` is the first word of `s`: behind white space, and before white space or the end. */
  ghost predicate IsFirstWord(s: string, a: string, w: string, b: string) {
    && s == a + w + b && AllSpace(a) && w != [] && (forall i :: 0 <= i < |w| ==> !IsSpace(w[i]))
    && (b == [] || IsSpace(b[0]))
  }

  lemma WordFirst(s: string, a: string, t: string)
    requires s == a + t && AllSpace(a) && t != [] && !IsSpace(t[0])
    ensures IsFirstWord(s, a, t[..WordLength(t)], t[WordLength(t)..])
  {
    WordLengthMeans(t);
    assert a + t == a + t[..WordLength(t)] + t[WordLength(t)..];
  }

  /** `split()[0]`: the first word; none exactly when there is nothing but white space. */
  lemma FirstWordMeans(s: string) returns (a: string, b: string)
    ensures FirstWord(s).None? <==> AllSpace(s)
    ensures FirstWord(s).Some? ==> IsFirstWord(s, a, FirstWord(s).value, b)
  {
    WordlessIsSpace(s);
    a := StripLeftMeans(s);
    b := StripLeft(s)[WordLength(StripLeft(s))..];
    if FirstWord(s).Some? {
      WordFirst(s, a, StripLeft(s));
    }
  }

  // ------------------------------------------------------------------------ the update

  /** Position `i` is that of the first title of level two, or the end when there is none. */
  ghost predicate IsFirstOfLevelTwo(ts: seq<Token>, i: nat) {
    && i <= |ts|
    && (forall j, text :: 0 <= j < i ==> ts[j] != Title(2, text))
    && (i < |ts| ==> exists text :: ts[i] == Title(2, text))
  }

  /** The update, written out on that position. */
  lemma UpdateAt(ts: seq<Token>, i: nat, version: string, date: string)
    requires IsFirstOfLevelTwo(ts, i) && forall j :: 0 <= j < |version| ==> !IsSpace(version[j])
    ensures var title := Title(2, "v" + version + " (" + date + ")");
            Update(ts, NewTitle(version, date)) ==
            if i == |ts| then Some(ts)
            else if AllSpace(ts[i].text) then None
            else if FirstWord(ts[i].text) == Some("v" + version) then Some(ts[i := title])
            else Some(ts[..i] + [title, Newline, Newline, Newline] + ts[i..])
  {
    var n := FirstRelease(ts);
    assert n < |ts| ==> ts[n] == Title(2, ts[n].text);
    UpdateTouchesFirstReleaseOnly(ts, NewTitle(version, date));
    NewTitleNamesVersion(version, date);
    if i < |ts| {
      WordlessIsSpace(ts[i].text);
    }
  }
}
