/** Trigram sets of queries and their similarity (pkg/skills/search_cache.go:172-220). */
module Trigrams {

  /** A string of bytes. */
  type Bytes = s: string | forall i :: 0 <= i < |s| ==> s[i] as int < 256

  /** The three bytes at `i`, packed into one number. */
  function Code(s: Bytes, i: nat): nat
    requires i + 2 < |s|
  {
    s[i] as int * 65536 + s[i + 1] as int * 256 + s[i + 2] as int
  }

  /** Different trigrams have different codes. */
  lemma CodeInjective(s: Bytes, i: nat, t: Bytes, j: nat)
    requires i + 2 < |s| && j + 2 < |t| && Code(s, i) == Code(t, j)
    ensures s[i..i + 3] == t[j..j + 3]
  {
    var a, b := s[i + 1] as int * 256 + s[i + 2] as int, t[j + 1] as int * 256 + t[j + 2] as int;
    assert a < 65536 && b < 65536;
  }

  ghost function TrigramSet(s: Bytes): set<nat> {
    set i | 0 <= i < |s| - 2 :: Code(s, i)
  }

  ghost predicate Ascending(a: seq<nat>) {
    forall i, j :: 0 <= i < j < |a| ==> a[i] < a[j]
  }

  ghost predicate Sorted(a: seq<nat>) {
    forall i, j :: 0 <= i < j < |a| ==> a[i] <= a[j]
  }

  ghost function Elements(a: seq<nat>): set<nat> {
    set x | x in a
  }

  function Insert(x: nat, s: seq<nat>): (r: seq<nat>)
    requires Sorted(s)
    ensures Sorted(r) && |r| == |s| + 1 && Elements(r) == Elements(s) + {x}
  {
    if s == [] || x <= s[0] then
      assert forall y <- Elements(s) :: y in [x] + s;
      [x] + s
    else
      var r := Insert(x, s[1..]);
      InsertFront(s, x, r);
      [s[0]] + r
  }

  lemma InsertFront(s: seq<nat>, x: nat, r: seq<nat>)
    requires s != [] && Sorted(s) && s[0] < x && Sorted(r) && Elements(r) == Elements(s[1..]) + {x}
    ensures Sorted([s[0]] + r) && Elements([s[0]] + r) == Elements(s) + {x}
  {
    forall k | 0 <= k < |r| ensures s[0] <= r[k] {
      assert r[k] in Elements(r);
    }
    assert s == [s[0]] + s[1..];
    forall y ensures y in [s[0]] + r <==> y in Elements(s) + {x} {
      assert y in r <==> y in Elements(r);
    }
  }

  function SortOf(s: seq<nat>): (r: seq<nat>)
    ensures Sorted(r) && |r| == |s| && Elements(r) == Elements(s)
  {
    if s == [] then []
    else
      assert s == [s[0]] + s[1..];
      Insert(s[0], SortOf(s[1..]))
  }

  /** The library's in-place sort. */
  method Sort(a: array<nat>)
    modifies a
    ensures a[..] == SortOf(old(a[..]))
  {
    var r := SortOf(a[..]);
    forall k | 0 <= k < a.Length {
      a[k] := r[k];
    }
  }

  method BuildTrigrams(s: Bytes) returns (r: seq<nat>)
    ensures Ascending(r) && Elements(r) == TrigramSet(s)
  {
    if |s| < 3 {
      return [];
    }
    var trigrams := new nat[|s| - 2];
    var i := 0;
    while i <= |s| - 3
      invariant 0 <= i <= |s| - 2
      invariant forall k :: 0 <= k < i ==> trigrams[k] == Code(s, k)
    {
      trigrams[i] := Code(s, i);
      i := i + 1;
    }
    ghost var codes := trigrams[..];
    Sort(trigrams);
    CodesAreTrigrams(s, codes);
    r := Compact(trigrams);
  }

  lemma CodesAreTrigrams(s: Bytes, codes: seq<nat>)
    requires |codes| == |s| - 2 && forall k :: 0 <= k < |codes| ==> codes[k] == Code(s, k)
    ensures Elements(codes) == TrigramSet(s)
  {
    forall x ensures x in Elements(codes) <==> x in TrigramSet(s) {
      if x in TrigramSet(s) {
        var i :| 0 <= i < |s| - 2 && x == Code(s, i);
        assert codes[i] == x;
      }
    }
  }

  lemma ElementsAppend(s: seq<nat>, x: nat)
    ensures Elements(s + [x]) == Elements(s) + {x}
  {
  }

  /** Taking over the next element of a sorted list unless it repeats the one before. */
  lemma CompactStep(all: seq<nat>, i: nat, kept: seq<nat>)
    requires 1 <= i < |all| && Sorted(all) && kept != [] && kept[|kept| - 1] == all[i - 1]
    requires Ascending(kept) && Elements(kept) == Elements(all[..i])
    ensures all[i] == all[i - 1] ==> Elements(kept) == Elements(all[..i + 1])
    ensures all[i] != all[i - 1] ==> Ascending(kept + [all[i]]) && Elements(kept + [all[i]]) == Elements(all[..i + 1])
  {
    ElementsAppend(all[..i], all[i]);
    assert all[..i + 1] == all[..i] + [all[i]];
    ElementsAppend(kept, all[i]);
    assert kept[|kept| - 1] in Elements(kept);
  }

  /** The in-place removal of repetitions from a sorted array: what is left in front of it. */
  method Compact(a: array<nat>) returns (r: seq<nat>)
    requires 0 < a.Length && Sorted(a[..])
    modifies a
    ensures Ascending(r) && Elements(r) == Elements(old(a[..]))
  {
    ghost var all := a[..];
    ghost var kept := all[..1];
    var n := 1;
    var i := 1;
    hide *;
    OneIsAscending(kept);
    while i < a.Length
      invariant 1 <= n <= i <= a.Length
      invariant |kept| == n && kept[n - 1] == all[i - 1]
      invariant forall k :: 0 <= k < n ==> a[k] == kept[k]
      invariant forall k :: i - 1 <= k < a.Length ==> a[k] == all[k]
      invariant Ascending(kept) && Elements(kept) == Elements(all[..i])
    {
      CompactStep(all, i, kept);
      assert a[i] == all[i] && a[i - 1] == all[i - 1];
      if a[i] != a[i - 1] {
        kept := kept + [all[i]];
        a[n] := a[i];
        n := n + 1;
      }
      i := i + 1;
    }
    assert all[..i] == all;
    r := a[..n];
    assert r == kept;
  }

  lemma OneIsAscending(s: seq<nat>)
    requires |s| == 1
    ensures Ascending(s)
  {
  }

  // ---------------------------------------------------------------- similarity

  /** The share of common elements, 1 for two empty sets. The code divides in float64, which reorders no two shares
      and moves none across 0.7: see `RoundingKeepsOrder`. */
  ghost function Jaccard(a: set<nat>, b: set<nat>): real {
    if a == {} && b == {} then 1.0 else
      UnionSize(a, b);
      Share(|a * b|, |a + b|)
  }

  function Share(part: nat, whole: nat): real
    requires 0 < whole
  {
    part as real / whole as real
  }

  lemma UnionSize(a: set<nat>, b: set<nat>)
    ensures |a + b| == |a| + |b| - |a * b|
    ensures a != {} || b != {} ==> 0 < |a + b|
  {
    assert a + b == a + (b - a) && a * b == b - (b - a);
    if a != {} || b != {} {
      var x :| x in a + b;
    }
  }

  lemma {:induction false} AscendingSize(a: seq<nat>)
    requires Ascending(a)
    ensures |Elements(a)| == |a|
  {
    if a != [] {
      var front, x := a[..|a| - 1], a[|a| - 1];
      AscendingSize(front);
      ElementsAppend(front, x);
      BelowAbsent(front, x);
      assert a == front + [x];
    }
  }

  /** The two-pointer merge counts the common elements of two ascending sequences exactly. */
  method CountCommon(a: seq<nat>, b: seq<nat>) returns (intersection: nat)
    ensures intersection <= |a| && intersection <= |b|
    ensures Ascending(a) && Ascending(b) ==> intersection == |Elements(a) * Elements(b)|
  {
    hide Merged, Ascending, Elements;
    ghost var sorted := Ascending(a) && Ascending(b);
    StartMerged(a, b);
    var i, j := 0, 0;
    intersection := 0;
    while i < |a| && j < |b|
      invariant 0 <= i <= |a| && 0 <= j <= |b| && intersection <= i && intersection <= j
      invariant sorted ==> Merged(a, b, i, j, intersection)
      decreases |a| - i + |b| - j
    {
      MergeStep(a, b, i, j, intersection);
      if a[i] == b[j] {
        intersection := intersection + 1;
        i := i + 1;
        j := j + 1;
      } else if a[i] < b[j] {
        i := i + 1;
      } else {
        j := j + 1;
      }
    }
    if sorted {
      MergeEnd(a, b, i, j, intersection);
    }
  }

  /** The similarity of two ascending sequences is that of their sets. */
  method JaccardSimilarity(a: seq<nat>, b: seq<nat>) returns (sim: real)
    ensures Ascending(a) && Ascending(b) ==> sim == Jaccard(Elements(a), Elements(b))
    ensures a == [] && b == [] ==> sim == 1.0
    ensures (a != [] || b != []) && Ascending(a) && Ascending(b) ==>
              sim * |Elements(a) + Elements(b)| as real == |Elements(a) * Elements(b)| as real
  {
    if |a| == 0 && |b| == 0 {
      return 1.0;
    }
    var intersection := CountCommon(a, b);
    var union := |a| + |b| - intersection;
    sim := Share(intersection, union);
    if Ascending(a) && Ascending(b) {
      hide Ascending, Elements, Share;
      AscendingSize(a);
      AscendingSize(b);
      UnionSize(Elements(a), Elements(b));
    }
  }

  ghost predicate Below(a: seq<nat>, v: nat) {
    forall k :: 0 <= k < |a| ==> a[k] < v
  }

  /** The first `i` of `a` and the first `j` of `b` share `n` elements, and lie below what comes next. */
  ghost predicate Merged(a: seq<nat>, b: seq<nat>, i: nat, j: nat, n: nat)
    requires i <= |a| && j <= |b|
  {
    && n == |Elements(a[..i]) * Elements(b[..j])|
    && (j < |b| ==> Below(a[..i], b[j]))
    && (i < |a| ==> Below(b[..j], a[i]))
  }

  lemma StartMerged(a: seq<nat>, b: seq<nat>)
    ensures Merged(a, b, 0, 0, 0)
  {
  }

  lemma MergeStep(a: seq<nat>, b: seq<nat>, i: nat, j: nat, n: nat)
    requires i < |a| && j < |b|
    ensures Ascending(a) && Ascending(b) && Merged(a, b, i, j, n) ==>
              if a[i] == b[j] then Merged(a, b, i + 1, j + 1, n + 1)
              else if a[i] < b[j] then Merged(a, b, i + 1, j, n)
              else Merged(a, b, i, j + 1, n)
  {
    if Ascending(a) && Ascending(b) && Merged(a, b, i, j, n) {
      if a[i] == b[j] {
        MergeBoth(a, b, i, j, n);
      } else if a[i] < b[j] {
        MergeFirst(a, b, i, j, n);
      } else {
        MergeSecond(a, b, i, j, n);
      }
    }
  }

  lemma BelowAbsent(a: seq<nat>, v: nat)
    requires Below(a, v)
    ensures v !in Elements(a)
  {
  }

  lemma MergeBoth(a: seq<nat>, b: seq<nat>, i: nat, j: nat, n: nat)
    requires i < |a| && j < |b| && a[i] == b[j] && Ascending(a) && Ascending(b) && Merged(a, b, i, j, n)
    ensures Merged(a, b, i + 1, j + 1, n + 1)
  {
    hide Ascending;
    var p, q, x := Elements(a[..i]), Elements(b[..j]), a[i];
    assert a[..i + 1] == a[..i] + [x] && b[..j + 1] == b[..j] + [x];
    ElementsAppend(a[..i], x);
    ElementsAppend(b[..j], x);
    BelowAbsent(a[..i], x);
    BothGrow(p, q, x);
    AscendingAbove(a, i);
    AscendingAbove(b, j);
  }

  lemma BothGrow(p: set<nat>, q: set<nat>, x: nat)
    requires x !in p
    ensures |(p + {x}) * (q + {x})| == |p * q| + 1
  {
    assert (p + {x}) * (q + {x}) == p * q + {x};
  }

  lemma AscendingAbove(a: seq<nat>, i: nat)
    requires Ascending(a) && i < |a|
    ensures Below(a[..i + 1], if i + 1 < |a| then a[i + 1] else a[i] + 1)
  {
  }

  lemma MergeFirst(a: seq<nat>, b: seq<nat>, i: nat, j: nat, n: nat)
    requires i < |a| && j < |b| && a[i] < b[j] && Ascending(a) && Merged(a, b, i, j, n)
    ensures Merged(a, b, i + 1, j, n)
  {
    var p, q, x := Elements(a[..i]), Elements(b[..j]), a[i];
    assert a[..i + 1] == a[..i] + [x];
    ElementsAppend(a[..i], x);
    BelowAbsent(b[..j], x);
    assert (p + {x}) * q == p * q;
  }

  lemma MergeSecond(a: seq<nat>, b: seq<nat>, i: nat, j: nat, n: nat)
    requires i < |a| && j < |b| && b[j] < a[i] && Ascending(b) && Merged(a, b, i, j, n)
    ensures Merged(a, b, i, j + 1, n)
  {
    var p, q, x := Elements(a[..i]), Elements(b[..j]), b[j];
    assert b[..j + 1] == b[..j] + [x];
    ElementsAppend(b[..j], x);
    BelowAbsent(a[..i], x);
    assert p * (q + {x}) == p * q;
  }

  lemma MergeEnd(a: seq<nat>, b: seq<nat>, i: nat, j: nat, n: nat)
    requires Ascending(a) && Ascending(b) && i <= |a| && j <= |b| && Merged(a, b, i, j, n)
    requires i == |a| || j == |b|
    ensures n == |Elements(a) * Elements(b)|
    ensures |a| + |b| - n == |Elements(a) + Elements(b)|
  {
    var p, q := Elements(a[..i]), Elements(b[..j]);
    assert a[..|a|] == a && b[..|b|] == b;
    forall x ensures x in Elements(a) * Elements(b) <==> x in p * q {
      if x in Elements(a) * Elements(b) {
        var m, k :| 0 <= m < |a| && a[m] == x && 0 <= k < |b| && b[k] == x;
        assert m < i ==> a[..i][m] == x;
        assert k < j ==> b[..j][k] == x;
        assert i < |a| && k < j ==> b[..j][k] < a[i];
        assert j < |b| && m < i ==> a[..i][m] < b[j];
      }
    }
    assert Elements(a) * Elements(b) == p * q;
    AscendingSize(a);
    AscendingSize(b);
    UnionSize(Elements(a), Elements(b));
  }

  // ---------------------------------------------------------------- rounding

  const CODES := 0x100_0000
  const ULP: real := 1.0 / 9007199254740992.0

  /** A rounding of the numbers from 0 to 1 that is off by at most 2^-53, as float64 division is. */
  ghost predicate Rounds(fl: real -> real) {
    forall x: real :: 0.0 <= x <= 1.0 ==> x - ULP <= fl(x) <= x + ULP
  }

  /** Rounding keeps the order of any two shares of trigram sets, and of a share and 0.7, which is 7 of 10. */
  lemma RoundingKeepsOrder(fl: real -> real, a: nat, b: nat, c: nat, d: nat)
    requires Rounds(fl) && a <= b && c <= d && 0 < b <= CODES && 0 < d <= CODES
    ensures fl(Share(a, b)) < fl(Share(c, d)) <==> Share(a, b) < Share(c, d)
    ensures Share(7, 10) == 0.7
  {
    SharesApart(a, b, c, d);
    SharesApart(c, d, a, b);
    ShareFits(a, b);
    ShareFits(c, d);
  }

  lemma ShareFits(a: nat, b: nat)
    requires a <= b && 0 < b
    ensures 0.0 <= Share(a, b) <= 1.0
  {
    var x := Share(a, b);
    assert x * b as real == a as real;
  }

  /** Different shares of sets this small are more than two roundings apart. */
  lemma SharesApart(a: nat, b: nat, c: nat, d: nat)
    requires 0 < b <= CODES && 0 < d <= CODES
    ensures Share(a, b) < Share(c, d) ==> Share(a, b) + 2.0 * ULP < Share(c, d)
  {
    var x, y := Share(a, b), Share(c, d);
    var p, q := b as real, d as real;
    assert x * p == a as real && y * q == c as real;
    if x < y {
      var n := c * b - a * d;
      assert (y - x) * (p * q) == n as real by {
        assert (y - x) * (p * q) == (y * q) * p - (x * p) * q;
        assert (c * b) as real == c as real * p && (a * d) as real == a as real * q;
      }
      Positive(y - x, p * q, n);
      Bounded(b, d);
      Quotient(y - x, p * q, n as real);
    }
  }

  lemma Positive(x: real, y: real, n: int)
    requires 0.0 < x && 0.0 < y && x * y == n as real
    ensures 1 <= n
  {
    assert 0.0 < x * y;
  }

  lemma TimesGrows(x: real, y: real, z: real)
    ensures 0.0 <= y && x <= z ==> x * y <= z * y
  {
  }

  lemma Bounded(b: nat, d: nat)
    requires 0 < b <= CODES && 0 < d <= CODES
    ensures 0.0 < b as real * d as real <= 281474976710656.0
  {
    var p, q := b as real, d as real;
    TimesGrows(p, q, 16777216.0);
    TimesGrows(1.0, q, p);
  }

  lemma Quotient(x: real, y: real, n: real)
    requires 0.0 < y <= 281474976710656.0 && 1.0 <= n && x * y == n
    ensures 2.0 * ULP < x
  {
    TimesGrows(x, y, 2.0 * ULP);
  }

  function CodesBelow(n: nat): (r: set<nat>)
    ensures |r| == n && forall x: nat :: x in r <==> x < n
  {
    if n == 0 then {} else CodesBelow(n - 1) + {n - 1}
  }

  /** There are no more trigrams than codes, so the sizes of unions are within that range. */
  lemma FewTrigrams(s: Bytes, t: Bytes)
    ensures |TrigramSet(s) + TrigramSet(t)| <= CODES
  {
    var a, b := TrigramSet(s) + TrigramSet(t), CodesBelow(CODES);
    assert a <= b;
    assert b == a + (b - a);
  }
}
