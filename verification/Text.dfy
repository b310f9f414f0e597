/** Go strings, one `char` per byte, with the ASCII part of the `strings` package. */
module Text {

  /** What `strings.TrimSpace` removes. */
  const SPACES: set<char> := {' ', '\t', '\n', '\r', '\U{000B}', '\U{000C}'}

  /** The number of leading characters of `s` that are in `cut`. */
  function Skip(s: string, cut: set<char>): (n: nat)
    ensures n <= |s|
    ensures forall i :: 0 <= i < n ==> s[i] in cut
    ensures n < |s| ==> s[n] !in cut
  {
    if s == [] || s[0] !in cut then 0 else 1 + Skip(s[1..], cut)
  }

  /** The length of `s` without its trailing characters from `cut`. */
  function Keep(s: string, cut: set<char>): (n: nat)
    ensures n <= |s|
    ensures forall i :: n <= i < |s| ==> s[i] in cut
    ensures 0 < n ==> s[n - 1] !in cut
  {
    if s == [] || s[|s| - 1] !in cut then |s| else Keep(s[..|s| - 1], cut)
  }

  function TrimRight(s: string, cut: set<char>): string {
    s[..Keep(s, cut)]
  }

  function TrimSpace(s: string): (t: string)
    ensures |t| <= |s|
    ensures t != [] ==> t[0] !in SPACES && t[|t| - 1] !in SPACES
  {
    var t := TrimRight(s, SPACES);
    t[Skip(t, SPACES)..]
  }

  /** Trimming keeps one contiguous part and drops only whitespace around it. */
  lemma TrimSpaceIsSlice(s: string) returns (a: nat, b: nat)
    ensures a <= b <= |s| && TrimSpace(s) == s[a..b]
    ensures forall i :: 0 <= i < a || b <= i < |s| ==> s[i] in SPACES
    ensures a < b ==> s[a] !in SPACES && s[b - 1] !in SPACES
    ensures a == Skip(TrimRight(s, SPACES), SPACES) && b == Keep(s, SPACES)
  {
    b := Keep(s, SPACES);
    a := Skip(s[..b], SPACES);
  }

  /** Text that neither starts nor ends with whitespace is left alone. */
  lemma TrimSpaceFixpoint(s: string)
    requires s != [] ==> s[0] !in SPACES && s[|s| - 1] !in SPACES
    ensures TrimSpace(s) == s
  {
    if s != [] {
      assert Keep(s, SPACES) == |s|;
      assert s[..|s|] == s;
    }
  }

  /** `strings.ToLower` of one character: the 26 capitals move up by 32. */
  function Lower(c: char): (r: char)
    ensures r as int == c as int + if 65 <= c as int <= 90 then 32 else 0
  {
    if 'A' <= c <= 'Z' then c + ('a' - 'A') else c
  }

  function ToLower(s: string): (r: string)
    ensures |r| == |s|
    ensures forall i :: 0 <= i < |s| ==> r[i] == Lower(s[i])
  {
    seq(|s|, i requires 0 <= i < |s| => Lower(s[i]))
  }

  /** A slice of a slice. */
  lemma SubSlice(s: string, from: nat, to: nat, a: nat, b: nat)
    requires from <= to <= |s| && a <= b <= to - from
    ensures s[from..to][a..b] == s[from + a..from + b]
  {
    var x, y := s[from..to][a..b], s[from + a..from + b];
    assert |x| == |y|;
    forall k | 0 <= k < |x| ensures x[k] == y[k] {
      assert x[k] == s[from..to][a + k] == s[from + a + k];
    }
  }

  // ---------------------------------------------------------------- alike but for blanks and case

  /** `a` is `b[i..j]`, and all around it is whitespace. */
  ghost predicate IsTrimmedAt(a: string, b: string, i: nat, j: nat) {
    && i <= j <= |b| && a == b[i..j]
    && (forall k :: 0 <= k < i || j <= k < |b| ==> b[k] in {' ', '\t', '\n', '\r', '\U{000B}', '\U{000C}'})
    && (a != "" ==> a[0] !in SPACES && a[|a| - 1] !in SPACES)
  }

  /** `a` is `b` without the whitespace around it. */
  ghost predicate IsTrimmed(a: string, b: string) {
    exists i: nat, j: nat :: IsTrimmedAt(a, b, i, j)
  }

  lemma TrimSpaceIsTrimmed(s: string)
    ensures IsTrimmed(TrimSpace(s), s)
  {
    var i, j := TrimSpaceIsSlice(s);
    assert IsTrimmedAt(TrimSpace(s), s, i, j);
  }

  lemma TrimmedIsUnique(a: string, b: string)
    requires IsTrimmed(a, b)
    ensures a == TrimSpace(b)
  {
    var i: nat, j: nat :| IsTrimmedAt(a, b, i, j);
    var m, n := TrimSpaceIsSlice(b);
    assert m < n ==> b[m] !in SPACES;
    if a != "" {
      assert b[i] == a[0] && b[j - 1] == a[|a| - 1];
      assert m < n;
      assert i == m && j == n;
    }
  }

  /** The same letter but for its case. */
  predicate SameLetter(x: char, y: char) {
    x == y || (65 <= x as int <= 90 && y as int == x as int + 32) || (65 <= y as int <= 90 && x as int == y as int + 32)
  }

  /** Equal but for the case of letters. */
  ghost predicate SameLetters(a: string, b: string) {
    |a| == |b| && forall i :: 0 <= i < |a| ==> SameLetter(a[i], b[i])
  }

  /** Equal but for whitespace around them and the case of letters. */
  ghost predicate Alike(a: string, b: string) {
    exists x, y :: IsTrimmed(x, a) && IsTrimmed(y, b) && SameLetters(x, y)
  }

  lemma LowerAlike(a: string, b: string)
    ensures ToLower(a) == ToLower(b) <==> SameLetters(a, b)
  {
    var x, y := ToLower(a), ToLower(b);
    if x == y {
      forall i | 0 <= i < |a| ensures SameLetter(a[i], b[i]) {
        assert x[i] == y[i];
      }
    }
  }

  /** Two strings have one trimmed lower-case form exactly when they are alike. */
  lemma NormalFormsAlike(a: string, b: string)
    ensures ToLower(TrimSpace(a)) == ToLower(TrimSpace(b)) <==> Alike(a, b)
  {
    TrimSpaceIsTrimmed(a);
    TrimSpaceIsTrimmed(b);
    LowerAlike(TrimSpace(a), TrimSpace(b));
    if x, y :| IsTrimmed(x, a) && IsTrimmed(y, b) && SameLetters(x, y) {
      TrimmedIsUnique(x, a);
      TrimmedIsUnique(y, b);
    }
  }
}
