/** Letter case: ASCII letters, and one beyond them. */
module Text {
  function UpperChar(c: char): char {
    if 'a' <= c <= 'z' then c - 'a' + 'A' else c
  }

  function LowerChar(c: char): char {
    if 'A' <= c <= 'Z' then c - 'A' + 'a' else c
  }

  function Upper(s: string): string {
    seq(|s|, i requires 0 <= i < |s| => UpperChar(s[i]))
  }

  function Lower(s: string): string {
    seq(|s|, i requires 0 <= i < |s| => LowerChar(s[i]))
  }

  /** Python knows the upper forms of all letters, SQLite those of ASCII letters only. */
  function PythonUpper(s: string): string {
    seq(|s|, i requires 0 <= i < |s| => if s[i] == '\U{e9}' then '\U{c9}' else UpperChar(s[i]))
  }

  /** The same character, or an ASCII letter in its two cases, which are 32 apart. */
  predicate SameLetter(c: char, d: char) {
    || c == d
    || ('a' <= c <= 'z' && c as int - d as int == 32)
    || ('a' <= d <= 'z' && d as int - c as int == 32)
  }

  /** `part` occurs in `s`. */
  predicate Contains(s: string, part: string) {
    exists i :: 0 <= i <= |s| && part <= s[i..]
  }

  /** The lower forms are the same when the texts differ at most by the case of ASCII letters. */
  lemma SameLower(a: string, b: string)
    ensures Lower(a) == Lower(b) <==> |a| == |b| && forall i :: 0 <= i < |a| ==> SameLetter(a[i], b[i])
  {
    if |a| == |b| {
      if Lower(a) == Lower(b) {
        forall i | 0 <= i < |a| ensures SameLetter(a[i], b[i]) {
          assert Lower(a)[i] == Lower(b)[i];
        }
      }
      if forall i :: 0 <= i < |a| ==> SameLetter(a[i], b[i]) {
        forall i | 0 <= i < |a| ensures Lower(a)[i] == Lower(b)[i] {
          assert SameLetter(a[i], b[i]);
        }
      }
    } else {
      assert |Lower(a)| == |a| && |Lower(b)| == |b|;
    }
  }

  lemma SameUpper(a: string, b: string)
    ensures Upper(a) == Upper(b) <==> Lower(a) == Lower(b)
  {
    SameLower(a, b);
    if |a| == |b| {
      if Upper(a) == Upper(b) {
        forall i | 0 <= i < |a| ensures SameLetter(a[i], b[i]) {
          assert Upper(a)[i] == Upper(b)[i];
        }
      }
      if forall i :: 0 <= i < |a| ==> SameLetter(a[i], b[i]) {
        forall i | 0 <= i < |a| ensures Upper(a)[i] == Upper(b)[i] {
          assert SameLetter(a[i], b[i]);
        }
      }
    } else {
      assert |Upper(a)| == |a| && |Upper(b)| == |b|;
    }
  }

  lemma LowerConcat(a: string, b: string)
    ensures Lower(a + b) == Lower(a) + Lower(b)
  {
  }
}
