/** `escape_like` and the LIKE operator it is written for. */
module LikePattern {
  import opened Options
  import opened Text

  const BACKSLASH := '\\'

  /** `str.replace` for a one-character pattern. */
  function Replace(s: string, old_: char, new_: string): string {
    if s == [] then [] else (if s[0] == old_ then new_ else [s[0]]) + Replace(s[1..], old_, new_)
  }

  /** The three passes, backslash first. */
  function EscapeLike(s: string): string {
    Replace(Replace(Replace(s, BACKSLASH, [BACKSLASH, BACKSLASH]), '%', [BACKSLASH, '%']), '_', [BACKSLASH, '_'])
  }

  predicate Special(c: char) {
    c == '\\' || c == '%' || c == '_'
  }

  /** Every special character gets one backslash in front of it, the others stay. */
  function EscapeEach(s: string): string {
    if s == [] then [] else (if Special(s[0]) then ['\\', s[0]] else [s[0]]) + EscapeEach(s[1..])
  }

  lemma {:induction false} ReplaceConcat(a: string, b: string, old_: char, new_: string)
    ensures Replace(a + b, old_, new_) == Replace(a, old_, new_) + Replace(b, old_, new_)
  {
    if a == [] {
      assert a + b == b;
    } else {
      assert (a + b)[1..] == a[1..] + b;
      ReplaceConcat(a[1..], b, old_, new_);
    }
  }

  lemma ReplaceNone(s: string, old_: char, new_: string)
    requires old_ !in s
    ensures Replace(s, old_, new_) == s
  {
  }

  lemma ReplaceOne(c: char, old_: char, new_: string)
    ensures Replace([c], old_, new_) == if c == old_ then new_ else [c]
  {
    assert Replace([c][1..], old_, new_) == [];
  }

  lemma EscapeOne(c: char)
    ensures EscapeLike([c]) == (if Special(c) then [BACKSLASH, c] else [c])
  {
    var first := Replace([c], BACKSLASH, [BACKSLASH, BACKSLASH]);
    ReplaceOne(c, BACKSLASH, [BACKSLASH, BACKSLASH]);
    if c == BACKSLASH {
      ReplaceNone(first, '%', [BACKSLASH, '%']);
      ReplaceNone(first, '_', [BACKSLASH, '_']);
    } else {
      ReplaceOne(c, '%', [BACKSLASH, '%']);
      ReplaceOne(c, '_', [BACKSLASH, '_']);
      ReplaceNone([BACKSLASH, '%'], '_', [BACKSLASH, '_']);
    }
  }

  lemma EscapeConcat(a: string, b: string)
    ensures EscapeLike(a + b) == EscapeLike(a) + EscapeLike(b)
  {
    ReplaceConcat(a, b, BACKSLASH, [BACKSLASH, BACKSLASH]);
    var a1, b1 := Replace(a, BACKSLASH, [BACKSLASH, BACKSLASH]), Replace(b, BACKSLASH, [BACKSLASH, BACKSLASH]);
    ReplaceConcat(a1, b1, '%', [BACKSLASH, '%']);
    ReplaceConcat(Replace(a1, '%', [BACKSLASH, '%']), Replace(b1, '%', [BACKSLASH, '%']), '_', [BACKSLASH, '_']);
  }

  /** The three successive passes equal one character-by-character map: no pass escapes what an
      earlier pass has put in. */
  lemma {:induction false} EscapeInOnePass(s: string)
    ensures EscapeLike(s) == EscapeEach(s)
  {
    if s != [] {
      assert s == [s[0]] + s[1..];
      EscapeConcat([s[0]], s[1..]);
      EscapeOne(s[0]);
      EscapeInOnePass(s[1..]);
    }
  }

  // ---------------------------------------------------------------------------- LIKE

  /** SQL LIKE with an optional escape character. */
  predicate Like(p: string, s: string, esc: Option<char>)
    decreases |p| + |s|
  {
    if p == [] then s == []
    else if esc == Some(p[0]) then |p| > 1 && |s| > 0 && s[0] == p[1] && Like(p[2..], s[1..], esc)
    else if p[0] == '%' then Like(p[1..], s, esc) || (|s| > 0 && Like(p, s[1..], esc))
    else |s| > 0 && (p[0] == '_' || s[0] == p[0]) && Like(p[1..], s[1..], esc)
  }

  /** ILIKE: both sides in lower case. */
  predicate ILike(p: string, s: string, esc: Option<char>) {
    Like(Lower(p), Lower(s), esc)
  }

  function NamePattern(n: string): string {
    "%" + EscapeLike(n) + "%"
  }

  function FolderPattern(n: string): string {
    EscapeLike(n) + "%"
  }

  lemma {:induction false} PercentMatchesAll(s: string, esc: Option<char>)
    requires esc != Some('%')
    ensures Like("%", s, esc)
    decreases |s|
  {
    if s == [] {
      assert Like("%"[1..], s, esc);
    } else {
      PercentMatchesAll(s[1..], esc);
    }
  }

  lemma {:induction false} EscapedPrefix(n: string, s: string)
    ensures Like(EscapeEach(n) + "%", s, Some(BACKSLASH)) <==> n <= s
    decreases |n|
  {
    var p := EscapeEach(n) + "%";
    if n == [] {
      assert p == "%";
      PercentMatchesAll(s, Some(BACKSLASH));
    } else {
      var rest := EscapeEach(n[1..]) + "%";
      if Special(n[0]) {
        assert p[0] == BACKSLASH && p[1] == n[0] && p[2..] == rest;
      } else {
        assert p[0] == n[0] && p[1..] == rest;
      }
      if s != [] {
        EscapedPrefix(n[1..], s[1..]);
        assert n <= s <==> n[0] == s[0] && n[1..] <= s[1..];
      }
    }
  }

  lemma ContainsStep(s: string, n: string)
    requires s != []
    ensures Contains(s, n) <==> n <= s || Contains(s[1..], n)
  {
    if Contains(s, n) {
      var i :| 0 <= i <= |s| && n <= s[i..];
      if i > 0 {
        assert s[1..][i - 1..] == s[i..];
      } else {
        assert s[0..] == s;
      }
    }
    if n <= s {
      assert s[0..] == s;
    }
    if Contains(s[1..], n) {
      var i :| 0 <= i <= |s[1..]| && n <= s[1..][i..];
      assert s[1..][i..] == s[i + 1..];
    }
  }

  lemma {:induction false} EscapedContains(n: string, s: string)
    ensures Like("%" + (EscapeEach(n) + "%"), s, Some(BACKSLASH)) <==> Contains(s, n)
    decreases |s|
  {
    var rest := EscapeEach(n) + "%";
    var p := "%" + rest;
    assert p[0] == '%' && p[1..] == rest;
    EscapedPrefix(n, s);
    if s == [] {
      assert s[0..] == s;
    } else {
      EscapedContains(n, s[1..]);
      ContainsStep(s, n);
    }
  }

  lemma {:induction false} LowerEscape(n: string)
    ensures Lower(EscapeEach(n)) == EscapeEach(Lower(n))
  {
    if n != [] {
      var head := if Special(n[0]) then [BACKSLASH, n[0]] else [n[0]];
      LowerConcat(head, EscapeEach(n[1..]));
      LowerEscape(n[1..]);
      assert Lower(n)[1..] == Lower(n[1..]);
      LowerSpecial(n[0]);
    }
  }

  lemma LowerSpecial(c: char)
    ensures Special(LowerChar(c)) <==> Special(c)
    ensures Lower([BACKSLASH, c]) == [BACKSLASH, LowerChar(c)] && Lower([c]) == [LowerChar(c)]
  {
  }

  lemma LowerPatterns(n: string)
    ensures Lower(NamePattern(n)) == "%" + (EscapeEach(Lower(n)) + "%")
    ensures Lower(FolderPattern(n)) == EscapeEach(Lower(n)) + "%"
  {
    EscapeInOnePass(n);
    LowerEscape(n);
    var e := EscapeEach(n);
    LowerConcat(e, "%");
    LowerConcat("%", e + "%");
    assert "%" + e + "%" == "%" + (e + "%");
    assert Lower("%") == "%";
  }

  /** The name filter finds exactly the names that contain `n`, up to case. */
  lemma NameFilterIsContains(n: string, s: string)
    ensures ILike(NamePattern(n), s, Some('\\')) <==> Contains(Lower(s), Lower(n))
  {
    LowerPatterns(n);
    EscapedContains(Lower(n), Lower(s));
  }

  /** The folder filter finds exactly the folders that start with `n`, up to case. */
  lemma FolderFilterIsPrefix(n: string, s: string)
    ensures ILike(FolderPattern(n), s, Some('\\')) <==> Lower(n) <= Lower(s)
  {
    LowerPatterns(n);
    EscapedPrefix(Lower(n), Lower(s));
  }

  // ------------------------------------------- a database whose LIKE has no default escape

  predicate Plain(n: string) {
    forall i :: 0 <= i < |n| ==> !Special(n[i])
  }

  function Backslashes(s: string): nat {
    if s == [] then 0 else (if s[0] == BACKSLASH then 1 else 0) + Backslashes(s[1..])
  }

  lemma {:induction false} BackslashesConcat(a: string, b: string)
    ensures Backslashes(a + b) == Backslashes(a) + Backslashes(b)
  {
    if a == [] {
      assert a + b == b;
    } else {
      assert (a + b)[1..] == a[1..] + b;
      BackslashesConcat(a[1..], b);
    }
  }

  /** Without an escape character, a backslash of the pattern needs one in the text. */
  lemma {:induction false} LikeNeedsBackslashes(p: string, s: string)
    requires Like(p, s, None)
    ensures Backslashes(p) <= Backslashes(s)
    decreases |p| + |s|
  {
    if p != [] {
      if p[0] == '%' {
        if Like(p[1..], s, None) {
          LikeNeedsBackslashes(p[1..], s);
        } else {
          LikeNeedsBackslashes(p, s[1..]);
        }
      } else {
        LikeNeedsBackslashes(p[1..], s[1..]);
      }
    }
  }

  lemma {:induction false} EscapingAddsBackslashes(n: string)
    ensures Backslashes(EscapeEach(n)) >= Backslashes(n)
    ensures !Plain(n) ==> Backslashes(EscapeEach(n)) > Backslashes(n)
  {
    if n != [] {
      var head := if Special(n[0]) then [BACKSLASH, n[0]] else [n[0]];
      BackslashesConcat(head, EscapeEach(n[1..]));
      EscapingAddsBackslashes(n[1..]);
      assert Backslashes(head) == (if n[0] == BACKSLASH then 2 else if Special(n[0]) then 1 else 0);
      assert Plain(n) <==> !Special(n[0]) && Plain(n[1..]);
    }
  }

  lemma {:induction false} PlainEscape(n: string)
    requires Plain(n)
    ensures EscapeEach(n) == n
  {
    if n != [] {
      PlainEscape(n[1..]);
    }
  }

  /** A pattern without backslashes means the same with and without an escape character. */
  lemma {:induction false} NoBackslashNoEscape(p: string, s: string)
    requires BACKSLASH !in p
    ensures Like(p, s, None) <==> Like(p, s, Some(BACKSLASH))
    decreases |p| + |s|
  {
    if p != [] {
      if p[0] == '%' {
        NoBackslashNoEscape(p[1..], s);
        if s != [] {
          NoBackslashNoEscape(p, s[1..]);
        }
      } else if s != [] {
        NoBackslashNoEscape(p[1..], s[1..]);
      }
    }
  }

  lemma {:induction false} LowerBackslashes(s: string)
    ensures Backslashes(Lower(s)) == Backslashes(s)
  {
    if s != [] {
      assert Lower(s)[1..] == Lower(s[1..]);
      LowerBackslashes(s[1..]);
    }
  }

  lemma PlainLower(n: string)
    ensures Plain(Lower(n)) <==> Plain(n)
  {
    forall i | 0 <= i < |n| ensures Special(Lower(n)[i]) <==> Special(n[i]) {
      LowerSpecial(n[i]);
    }
    if Plain(Lower(n)) {
      forall i | 0 <= i < |n| ensures !Special(n[i]) {
        assert !Special(Lower(n)[i]);
      }
    }
  }

  lemma PlainNameFilter(n: string, s: string)
    requires Plain(n)
    ensures ILike(NamePattern(n), s, None) <==> Contains(Lower(s), Lower(n))
  {
    LowerPatterns(n);
    PlainLower(n);
    PlainEscape(Lower(n));
    var p := Lower(NamePattern(n));
    assert p == "%" + (Lower(n) + "%");
    PlainHasNoBackslash(Lower(n));
    NoBackslashNoEscape(p, Lower(s));
    NameFilterIsContains(n, s);
  }

  lemma PlainHasNoBackslash(n: string)
    requires Plain(n)
    ensures BACKSLASH !in "%" + (n + "%")
  {
  }

  /** A name with a special character is not even found under its own spelling. */
  lemma SpecialNameMisses(n: string)
    requires !Plain(n)
    ensures !ILike(NamePattern(n), n, None) && Contains(Lower(n), Lower(n))
  {
    LowerPatterns(n);
    PlainLower(n);
    var m := Lower(n);
    EscapingAddsBackslashes(m);
    BackslashesConcat(EscapeEach(m), "%");
    BackslashesConcat("%", EscapeEach(m) + "%");
    if ILike(NamePattern(n), n, None) {
      LikeNeedsBackslashes("%" + (EscapeEach(m) + "%"), m);
    }
    assert m[0..] == m;
  }

  lemma PlainFolderFilter(n: string, s: string)
    requires Plain(n)
    ensures ILike(FolderPattern(n), s, None) <==> Lower(n) <= Lower(s)
  {
    LowerPatterns(n);
    PlainLower(n);
    PlainEscape(Lower(n));
    PlainHasNoBackslash(Lower(n));
    NoBackslashNoEscape(Lower(n) + "%", Lower(s));
    FolderFilterIsPrefix(n, s);
  }

  /** Nor is a folder with a special character found under its own path. */
  lemma SpecialFolderMisses(n: string)
    requires !Plain(n)
    ensures !ILike(FolderPattern(n), n, None)
  {
    LowerPatterns(n);
    PlainLower(n);
    var m := Lower(n);
    EscapingAddsBackslashes(m);
    BackslashesConcat(EscapeEach(m), "%");
    if ILike(FolderPattern(n), n, None) {
      LikeNeedsBackslashes(EscapeEach(m) + "%", m);
    }
  }

  /** `_search_studies` passes no escape character, so where LIKE has no default one the name
      filter is right for every stored name exactly when `n` holds no special character. */
  lemma NameFilterWithoutEscape(n: string)
    ensures (forall s :: ILike(NamePattern(n), s, None) <==> Contains(Lower(s), Lower(n))) <==> Plain(n)
  {
    if Plain(n) {
      forall s ensures ILike(NamePattern(n), s, None) <==> Contains(Lower(s), Lower(n)) {
        PlainNameFilter(n, s);
      }
    } else {
      SpecialNameMisses(n);
    }
  }

  /** The folder filter likewise; folders often hold an underscore. */
  lemma FolderFilterWithoutEscape(n: string)
    ensures (forall s :: ILike(FolderPattern(n), s, None) <==> Lower(n) <= Lower(s)) <==> Plain(n)
  {
    if Plain(n) {
      forall s ensures ILike(FolderPattern(n), s, None) <==> Lower(n) <= Lower(s) {
        PlainFolderFilter(n, s);
      }
    } else {
      SpecialFolderMisses(n);
    }
  }
}
