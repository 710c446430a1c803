/** What the release script does to a changelog: it touches the first release title only, keeps the
    stream canonical, and done twice it is done once. */
module ChangelogUpdate {
  import opened Options
  import opened Changelog
  import opened ChangelogProofs

  /** The tokens before the first release title and those from it on; without a release title
      nothing changes. */
  lemma {:induction false} UpdateTouchesFirstReleaseOnly(ts: seq<Token>, title: string)
    ensures var i := FirstRelease(ts);
            Update(ts, title) ==
            if i == |ts| then Some(ts)
            else if FirstWord(ts[i].text) == None then None
            else if FirstWord(ts[i].text) == FirstWord(title) then Some(ts[i := Title(2, title)])
            else Some(ts[..i] + [Title(2, title), Newline, Newline, Newline] + ts[i..])
    decreases |ts|
  {
    if ts != [] && !IsRelease(ts[0]) {
      UpdateTouchesFirstReleaseOnly(ts[1..], title);
      assert [ts[0]] + ts[1..] == ts;
      Shifted(ts, FirstRelease(ts[1..]), title);
    } else if ts != [] {
      assert [Title(2, title)] + ts[1..] == ts[0 := Title(2, title)];
      assert ts[..0] + [Title(2, title), Newline, Newline, Newline] + ts[0..]
          == [Title(2, title), Newline, Newline, Newline] + ts;
    }
  }

  lemma Shifted(ts: seq<Token>, i: nat, title: string)
    requires ts != [] && i <= |ts[1..]|
    ensures i < |ts[1..]| ==> [ts[0]] + ts[1..][i := Title(2, title)] == ts[i + 1 := Title(2, title)]
    ensures var four := [Title(2, title), Newline, Newline, Newline];
            [ts[0]] + (ts[1..][..i] + four + ts[1..][i..]) == ts[..i + 1] + four + ts[i + 1..]
  {
  }

  /** On tokens, a second update with the same title changes nothing. */
  lemma {:induction false} UpdateTwiceIsOnce(ts: seq<Token>, title: string)
    requires FirstWord(title).Some? && Update(ts, title).Some?
    ensures Update(Update(ts, title).value, title) == Update(ts, title)
    decreases |ts|
  {
    if ts != [] {
      var once := Update(ts, title).value;
      if IsRelease(ts[0]) {
        assert once == [Title(2, title)] + once[1..];
      } else {
        UpdateTwiceIsOnce(ts[1..], title);
        assert once[1..] == Update(ts[1..], title).value;
      }
    }
  }

  // ------------------------------------------------------------------------ new titles

  /** The arguments are single words on one line, as the command line checks them. */
  lemma NewTitleIsPlain(version: string, date: string)
    requires '\n' !in version && '\n' !in date
    ensures Plain(Title(2, NewTitle(version, date))) && !Underlines(Title(2, NewTitle(version, date)))
    ensures FirstWord(NewTitle(version, date)).Some?
    ensures Strip(NewTitle(version, date)) == NewTitle(version, date)
  {
    var title := NewTitle(version, date);
    assert title[0] == 'v' && title[|title| - 1] == ')';
    assert !IsSpace('v') && !IsSpace(')');
    TrimmedStrip(title);
  }

  /** The word by which a title is recognised is the version. */
  lemma NewTitleNamesVersion(version: string, date: string)
    requires forall i :: 0 <= i < |version| ==> !IsSpace(version[i])
    ensures FirstWord(NewTitle(version, date)) == Some("v" + version)
  {
    var title := NewTitle(version, date);
    WordThenSpace("v" + version, "(" + date + ")");
    assert title == "v" + version + " " + ("(" + date + ")");
    assert StripLeft(title) == title;
    assert title[..|version| + 1] == "v" + version;
  }

  lemma {:induction false} WordThenSpace(w: string, rest: string)
    requires forall i :: 0 <= i < |w| ==> !IsSpace(w[i])
    ensures WordLength(w + " " + rest) == |w|
  {
    if w != [] {
      assert (w + " " + rest)[1..] == w[1..] + " " + rest;
      WordThenSpace(w[1..], rest);
    } else {
      assert (w + " " + rest)[0] == ' ';
    }
  }

  lemma ReplacedIsCanonical(ts: seq<Token>, i: nat, t: Token)
    requires Canonical(ts) && i < |ts| && IsRelease(ts[i]) && IsRelease(t) && Plain(t) && !Underlines(t)
    ensures Canonical(ts[i := t])
  {
    var us := ts[i := t];
    forall j | 0 <= j < |us| - 1 ensures us[j].Newline? || us[j + 1].Newline? {
      assert ts[j].Newline? || ts[j + 1].Newline?;
    }
    forall j | 0 <= j < |us| - 2 && Exposed(us[j]) ensures !Underlines(us[j + 2]) {
      assert Exposed(ts[j]) && !Underlines(ts[j + 2]);
    }
  }

  lemma InsertedIsCanonical(ts: seq<Token>, i: nat, t: Token)
    requires Canonical(ts) && i < |ts| && IsRelease(ts[i]) && IsRelease(t) && Plain(t) && !Underlines(t)
    ensures Canonical(ts[..i] + [t, Newline, Newline, Newline] + ts[i..])
  {
    var us := ts[..i] + [t, Newline, Newline, Newline] + ts[i..];
    forall j | 0 <= j < |us| ensures us[j] == Inserted(ts, i, t, j) {
    }
    InsertedSeparated(ts, i, t, us);
    InsertedExposed(ts, i, t, us);
    forall j | 0 <= j < |us| ensures Plain(us[j]) {
      assert us[j] == Inserted(ts, i, t, j);
    }
  }

  function Inserted(ts: seq<Token>, i: nat, t: Token, j: nat): Token
    requires i <= |ts| && j < |ts| + 4
  {
    if j < i then ts[j] else if j == i then t else if j < i + 4 then Newline else ts[j - 4]
  }

  lemma InsertedSeparated(ts: seq<Token>, i: nat, t: Token, us: seq<Token>)
    requires Canonical(ts) && i < |ts| && IsRelease(ts[i]) && |us| == |ts| + 4
    requires forall j :: 0 <= j < |us| ==> us[j] == Inserted(ts, i, t, j)
    ensures forall j :: 0 <= j < |us| - 1 ==> us[j].Newline? || us[j + 1].Newline?
  {
    forall j | 0 <= j < |us| - 1 ensures us[j].Newline? || us[j + 1].Newline? {
      var k := if j < i then j else if j >= i + 4 then j - 4 else i - 1;
      assert 0 <= k < |ts| - 1 ==> ts[k].Newline? || ts[k + 1].Newline?;
      assert us[j] == Inserted(ts, i, t, j) && us[j + 1] == Inserted(ts, i, t, j + 1);
    }
  }

  lemma InsertedExposed(ts: seq<Token>, i: nat, t: Token, us: seq<Token>)
    requires Canonical(ts) && i < |ts| && IsRelease(ts[i]) && IsRelease(t) && !Underlines(t) && |us| == |ts| + 4
    requires forall j :: 0 <= j < |us| ==> us[j] == Inserted(ts, i, t, j)
    ensures forall j :: 0 <= j < |us| - 2 && Exposed(us[j]) ==> !Underlines(us[j + 2])
  {
    forall j | 0 <= j < |us| - 2 && Exposed(us[j]) ensures !Underlines(us[j + 2]) {
      assert us[j] == Inserted(ts, i, t, j) && us[j + 2] == Inserted(ts, i, t, j + 2);
      if j + 2 < i {
        assert !Underlines(ts[j + 2]);
      } else if j >= i + 4 {
        assert Exposed(ts[j - 4]) && !Underlines(ts[j - 4 + 2]);
      }
    }
  }

  /** An update keeps a stream canonical. */
  lemma UpdateKeepsCanonical(ts: seq<Token>, title: string)
    requires Canonical(ts) && Update(ts, title).Some?
    requires Plain(Title(2, title)) && !Underlines(Title(2, title))
    ensures Canonical(Update(ts, title).value)
  {
    var i := FirstRelease(ts);
    UpdateTouchesFirstReleaseOnly(ts, title);
    if i < |ts| {
      ReplacedIsCanonical(ts, i, Title(2, title));
      InsertedIsCanonical(ts, i, Title(2, title));
    }
  }

  /** A canonical stream always updates: its titles have words. */
  lemma CanonicalUpdates(ts: seq<Token>, title: string)
    requires Canonical(ts)
    ensures Update(ts, title).Some?
  {
    UpdateTouchesFirstReleaseOnly(ts, title);
    var i := FirstRelease(ts);
    if i < |ts| {
      assert Plain(ts[i]);
      assert StripLeft(ts[i].text) == ts[i].text;
    }
  }

  // ------------------------------------------------------------------------- failing

  predicate AllSpace(s: string) {
    forall i :: 0 <= i < |s| ==> IsSpace(s[i])
  }

  lemma {:induction false} WordlessIsSpace(s: string)
    ensures FirstWord(s) == None <==> AllSpace(s)
  {
    if s != [] && IsSpace(s[0]) {
      WordlessIsSpace(s[1..]);
      assert AllSpace(s) <==> AllSpace(s[1..]) by {
        if AllSpace(s[1..]) {
          assert forall i :: 0 < i < |s| ==> s[i] == s[1..][i - 1];
        }
      }
    }
  }

  /** The script fails exactly on the texts whose first release title is blank. */
  lemma UpdateFailsOnBlankTitle(s: string, title: string)
    ensures var ts := Parse(s);
            var i := FirstRelease(ts);
            UpdateText(s, title) == None <==> i < |ts| && AllSpace(ts[i].text)
  {
    var ts := Parse(s);
    var i := FirstRelease(ts);
    UpdateTouchesFirstReleaseOnly(ts, title);
    if i < |ts| {
      WordlessIsSpace(ts[i].text);
    }
  }

  const BLANK_RELEASE := "   \n---"

  lemma BlankReleaseIsTitle()
    ensures MatchAt(BLANK_RELEASE, true) == Lexeme(Title(2, "   "), BLANK_RELEASE)
  {
    assert BLANK_RELEASE == "   " + "\n" + Repeat('-', 3) + "";
    OtherUnderline("   ", "");
    UnderlinedTitle("   ", '-', 2, "");
  }

  lemma BlankReleaseParses()
    ensures Parse(BLANK_RELEASE) == [Title(2, "   ")]
  {
    BlankReleaseIsTitle();
    TokensOneMore(Lexeme(Title(2, "   "), BLANK_RELEASE), []);
    assert BLANK_RELEASE[|BLANK_RELEASE|..] == "";
  }

  /** Such a text: a line of blanks, underlined. */
  lemma BlankTitleFails(title: string)
    ensures UpdateText(BLANK_RELEASE, title) == None
  {
    BlankReleaseParses();
    UpdateFailsOnBlankTitle(BLANK_RELEASE, title);
  }

  // -------------------------------------------------------------------------- trimming

  lemma {:induction false} LeftFacts(s: string)
    ensures StripLeft(s) == [] || !IsSpace(StripLeft(s)[0])
    ensures StripLeft(StripLeft(s)) == StripLeft(s)
  {
    if s != [] && IsSpace(s[0]) {
      LeftFacts(s[1..]);
    }
  }

  lemma {:induction false} RightFacts(s: string)
    ensures StripRight(s) <= s
    ensures StripRight(s) == [] || !IsSpace(StripRight(s)[|StripRight(s)| - 1])
    ensures s != [] && !IsSpace(s[0]) ==> StripRight(s) != [] && WordLength(StripRight(s)) == WordLength(s)
    decreases |s|
  {
    if s != [] && IsSpace(s[|s| - 1]) {
      var before := s[..|s| - 1];
      RightFacts(before);
      if !IsSpace(s[0]) {
        assert before[0] == s[0];
        WordBeforeSpace(before, s[|s| - 1]);
        assert s == before + [s[|s| - 1]];
      }
    }
  }

  lemma {:induction false} WordBeforeSpace(s: string, c: char)
    requires IsSpace(c)
    ensures WordLength(s + [c]) == WordLength(s)
  {
    if s != [] && !IsSpace(s[0]) {
      assert (s + [c])[1..] == s[1..] + [c];
      WordBeforeSpace(s[1..], c);
    }
  }

  lemma StripTwice(s: string)
    ensures Strip(Strip(s)) == Strip(s)
  {
    LeftFacts(s);
    RightFacts(StripLeft(s));
  }

  lemma SameFirstWord(s: string)
    ensures FirstWord(Strip(s)) == FirstWord(s)
  {
    LeftFacts(s);
    var t := StripLeft(s);
    RightFacts(t);
    if t != [] {
      var u := StripRight(t);
      assert u[0] == t[0];
      assert StripLeft(u) == u;
      assert u[..WordLength(u)] == t[..WordLength(t)];
    }
  }

  function TrimToken(t: Token): Token {
    if t.Title? then Title(t.level, Strip(t.text)) else t
  }

  function Trimmed(ts: seq<Token>): seq<Token> {
    if ts == [] then [] else [TrimToken(ts[0])] + Trimmed(ts[1..])
  }

  /** The printer trims, so trimming first makes no difference. */
  lemma {:induction false} PrintTrims(ts: seq<Token>)
    ensures Print(Trimmed(ts)) == Print(ts)
  {
    if ts != [] {
      PrintTrims(ts[1..]);
      if ts[0].Title? {
        StripTwice(ts[0].text);
      }
      assert Trimmed(ts)[1..] == Trimmed(ts[1..]);
    }
  }

  lemma TrimmedOneMore(t: Token, ts: seq<Token>)
    ensures Trimmed([t] + ts) == [TrimToken(t)] + Trimmed(ts)
  {
    assert ([t] + ts)[1..] == ts;
  }

  lemma TrimmedInsert(title: string, ts: seq<Token>)
    requires Strip(title) == title
    ensures Trimmed([Title(2, title), Newline, Newline, Newline] + ts)
              == [Title(2, title), Newline, Newline, Newline] + Trimmed(ts)
  {
    var four := [Title(2, title), Newline, Newline, Newline];
    assert four + ts == [four[0]] + ([Newline] + ([Newline] + ([Newline] + ts)));
    TrimmedOneMore(Newline, ts);
    TrimmedOneMore(Newline, [Newline] + ts);
    TrimmedOneMore(Newline, [Newline] + ([Newline] + ts));
    TrimmedOneMore(four[0], [Newline] + ([Newline] + ([Newline] + ts)));
  }

  /** Updating commutes with trimming. */
  lemma {:induction false} UpdateTrimmed(ts: seq<Token>, title: string)
    requires Strip(title) == title
    ensures Update(Trimmed(ts), title).Some? <==> Update(ts, title).Some?
    ensures Update(ts, title).Some? ==> Update(Trimmed(ts), title) == Some(Trimmed(Update(ts, title).value))
    decreases |ts|
  {
    if ts != [] {
      var t, rest := ts[0], ts[1..];
      assert Trimmed(ts)[0] == TrimToken(t) && Trimmed(ts)[1..] == Trimmed(rest);
      if IsRelease(t) {
        SameFirstWord(t.text);
        TrimmedOneMore(Title(2, title), rest);
        TrimmedInsert(title, ts);
      } else {
        UpdateTrimmed(rest, title);
        if Update(rest, title).Some? {
          TrimmedOneMore(t, Update(rest, title).value);
        }
      }
    }
  }

  /** End to end, on the text: whenever the parsed changelog, titles trimmed, is canonical, the
      script succeeds, and running it a second time writes the same file again. */
  lemma ReleasingTwiceIsReleasingOnce(s: string, version: string, date: string)
    requires '\n' !in version && '\n' !in date && Canonical(Trimmed(Parse(s)))
    ensures var title := NewTitle(version, date);
            UpdateText(s, title).Some? && UpdateText(UpdateText(s, title).value, title) == UpdateText(s, title)
  {
    var title := NewTitle(version, date);
    var ts := Trimmed(Parse(s));
    NewTitleIsPlain(version, date);
    CanonicalUpdates(ts, title);
    UpdateTrimmed(Parse(s), title);
    var us := Update(ts, title).value;
    PrintTrims(Update(Parse(s), title).value);
    assert UpdateText(s, title) == Some(Print(us));
    UpdateKeepsCanonical(ts, title);
    LexPrintRoundTrip(us, true);
    assert Parse(Print(us)) == us;
    UpdateTwiceIsOnce(ts, title);
  }
}
