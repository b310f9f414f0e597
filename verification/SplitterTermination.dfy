/** How long chunks get, and exactly when the splitter stops (pkg/utils/message.go:12-114). */
module SplitterTermination {
  import opened Text
  import opened Splitter
  import opened SplitterFences

  // ---------------------------------------------------------------- any text

  /** No chunk is longer than the limit. */
  lemma ChunkFits(s: string, maxLen: nat)
    requires 5 <= maxLen
    ensures |Chunk(s, Plan(s, maxLen))| <= maxLen
  {
    if |s| > maxLen {
      match Plan(s, maxLen)
      case Plain(e) => PlainFits(s, maxLen);
      case Reopen(e, h) => ReopenEnd(s, maxLen);
    }
  }

  lemma {:induction false} ChunksFit(s: string, maxLen: nat, n: nat)
    requires 5 <= maxLen
    ensures forall c <- Chunks(s, maxLen, n) :: |c| <= maxLen
  {
    hide Next, Chunk, Plan;
    if n > 0 {
      ChunksFit(s, maxLen, n - 1);
      ChunkFits(After(s, maxLen, n - 1), maxLen);
    }
  }

  lemma PlainFits(s: string, maxLen: nat)
    requires 5 <= maxLen < |s| && Plan(s, maxLen).Plain?
    ensures Plan(s, maxLen).end <= maxLen
  {
    var first := FirstCut(s, EffectiveLimit(maxLen));
    var u := LastUnclosed(s[..first]);
    if u >= 0 {
      UnclosedIsFence(s[..first], 0, -1);
      assert u + 2 < first;
    }
  }

  lemma ReopenEnd(s: string, maxLen: nat)
    requires 5 <= maxLen < |s| && Plan(s, maxLen).Reopen?
    ensures Plan(s, maxLen).end <= maxLen - 5
  {
  }

  /** Every fence is followed by a newline within `maxLen - 7` characters, or by none at all. */
  ghost predicate ShortHeaders(s: string, maxLen: nat) {
    forall i :: FenceAt(s, i) ==> NextNewline(s, i) - i <= maxLen - 7
  }

  /** Where a reopening turn finds its header: the inner split well behind it, or the last resort. */
  lemma ReopenSource(s: string, maxLen: nat) returns (u: nat)
    requires 10 <= maxLen < |s| && Plan(s, maxLen).Reopen?
    ensures var e := Plan(s, maxLen).end;
            && FenceAt(s, u) && Plan(s, maxLen).header == Header(s, u)
            && (HeaderEnd(s, u) + 20 < e || e == maxLen - 5)
  {
    var first := FirstCut(s, EffectiveLimit(maxLen));
    u := LastUnclosed(s[..first]);
    UnclosedIsFence(s[..first], 0, -1);
    InnerCutNotBefore(s, HeaderEnd(s, u), maxLen);
  }

  lemma HeaderLength(s: string, u: nat)
    requires FenceAt(s, u)
    ensures |Header(s, u)| <= HeaderEnd(s, u) - u
  {
  }

  /** Reopening grows the text by the header and a newline and shrinks it by what was cut off. */
  lemma ReopenLength(s: string, e: nat, h: string)
    requires e <= |s|
    ensures |Rest(s, Reopen(e, h))| <= |h| + 1 + |s| - e
  {
  }

  /** The split inside a block shrinks the text by at least 20 characters. */
  lemma InnerSplitShrinks(s: string, maxLen: nat, u: nat)
    requires 10 <= maxLen < |s| && FenceAt(s, u)
    requires Plan(s, maxLen).Reopen? && Plan(s, maxLen).header == Header(s, u)
    requires HeaderEnd(s, u) + 20 < Plan(s, maxLen).end
    ensures |Next(s, maxLen)| + 20 <= |s|
  {
    HeaderLength(s, u);
    ReopenLength(s, Plan(s, maxLen).end, Header(s, u));
  }

  /** With short headers every turn shrinks the text. */
  lemma TurnShrinks(s: string, maxLen: nat)
    requires 10 <= maxLen && s != "" && ShortHeaders(s, maxLen)
    ensures |Next(s, maxLen)| < |s|
  {
    if |s| > maxLen && Plan(s, maxLen).Reopen? {
      var u := ReopenSource(s, maxLen);
      HeaderLength(s, u);
      ReopenLength(s, Plan(s, maxLen).end, Header(s, u));
    }
  }

  /** From `j` on, `t` reads as `s` does from `i` on. */
  ghost predicate Continues(s: string, i: nat, t: string, j: nat) {
    j <= |t| && i + |t| - j <= |s| && forall k :: j <= k < |t| ==> t[k] == s[k - j + i]
  }

  /** Texts that agree from some position on have the next newline at the same distance. */
  lemma NewlineShift(s: string, i: nat, t: string, j: nat)
    requires Continues(s, i, t, j)
    requires 0 <= NextNewline(t, j)
    ensures NextNewline(s, i) == NextNewline(t, j) - j + i
  {
    var n := NextNewline(t, j);
    assert s[n - j + i] == '\n';
    forall x | i <= x < n - j + i ensures s[x] != '\n' {
      assert t[x - i + j] == s[x];
    }
  }

  /** A part of the text keeps short headers. */
  lemma PartShortHeaders(s: string, a: nat, b: nat, maxLen: nat)
    requires 10 <= maxLen && a <= b <= |s| && ShortHeaders(s, maxLen)
    ensures ShortHeaders(s[a..b], maxLen)
  {
    var t := s[a..b];
    forall i | FenceAt(t, i) ensures NextNewline(t, i) - i <= maxLen - 7 {
      assert FenceAt(s, a + i);
      if NextNewline(t, i) >= 0 {
        NewlineShift(s, a + i, t, i);
      }
    }
  }

  /** So does the text with a header line in front of it. */
  lemma ReopenedShortHeaders(s: string, u: nat, e: nat, maxLen: nat)
    requires 10 <= maxLen && FenceAt(s, u) && e <= |s| && ShortHeaders(s, maxLen)
    ensures ShortHeaders(Header(s, u) + "\n" + s[e..], maxLen)
  {
    var h := Header(s, u);
    HeaderLength(s, u);
    PartShortHeaders(s, e, |s|, maxLen);
    var q := s[e..];
    assert q == s[e..|s|];
    var t := h + "\n" + q;
    var d := |h| + 1;
    assert t[d - 1] == '\n';
    JoinedFenceAt(h, q, t);
    forall i | FenceAt(t, i) ensures NextNewline(t, i) - i <= maxLen - 7 {
      if d <= i && NextNewline(t, i) >= 0 {
        NewlineShift(q, i - d, t, i);
      }
    }
  }

  lemma TurnKeepsShortHeaders(s: string, maxLen: nat)
    requires 10 <= maxLen && ShortHeaders(s, maxLen)
    ensures ShortHeaders(Next(s, maxLen), maxLen)
  {
    match Plan(s, maxLen)
    case Whole =>
    case Plain(e) =>
      var a, b := TailBounds(s, e);
      PartShortHeaders(s, a, b, maxLen);
    case Reopen(e, h) =>
      var u := ReopenSource(s, maxLen);
      ReopenedShortHeaders(s, u, e, maxLen);
      var t := h + "\n" + s[e..];
      var a, b := TrimSpaceIsSlice(t);
      PartShortHeaders(t, a, b, maxLen);
  }

  /** Turning once and then `n` times is turning `n + 1` times. */
  lemma {:induction false} AfterNext(s: string, maxLen: nat, n: nat)
    requires 5 <= maxLen
    ensures After(s, maxLen, n + 1) == After(Next(s, maxLen), maxLen, n)
  {
    hide Next;
    if n > 0 {
      AfterNext(s, maxLen, n - 1);
    }
  }

  lemma HaltsIfNextHalts(s: string, maxLen: nat)
    requires 5 <= maxLen && Halts(Next(s, maxLen), maxLen)
    ensures Halts(s, maxLen)
  {
    hide Next;
    var n: nat :| After(Next(s, maxLen), maxLen, n) == "";
    AfterNext(s, maxLen, n);
  }

  /** With short headers the splitter stops, whatever else the text is. */
  lemma {:induction false} ShortHeadersHalt(s: string, maxLen: nat)
    requires 10 <= maxLen && ShortHeaders(s, maxLen)
    ensures Halts(s, maxLen)
    decreases |s|
  {
    hide Next;
    if s == "" {
      assert After(s, maxLen, 0) == "";
    } else {
      TurnShrinks(s, maxLen);
      TurnKeepsShortHeaders(s, maxLen);
      ShortHeadersHalt(Next(s, maxLen), maxLen);
      HaltsIfNextHalts(s, maxLen);
    }
  }

  // ---------------------------------------------------------------- shaped and balanced text

  /** A code block the splitter can never get past: opened at `i` by a first line of at least `maxLen - 6`
      characters, and closed further than `maxLen` behind its start (behind the start of the text, for a
      block that begins in the first two characters). */
  ghost predicate Stuck(s: string, i: nat, maxLen: nat) {
    && FenceAt(s, i) && Even(Fences(s, i))
    && maxLen - 6 <= |Header(s, i)|
    && NoFenceWithin(s, i, if i <= 1 then maxLen else i + maxLen)
  }

  /** Behind an opening fence of a good text there is another fence, hence a newline. */
  lemma LaterFence(s: string, i: nat) returns (k: nat)
    requires Good(s) && FenceAt(s, i) && Even(Fences(s, i))
    ensures i + 3 < k && FenceAt(s, k) && 0 <= NextNewline(s, i) < k
  {
    var j := NextFence(s, i + 1);
    if j < 0 {
      FencesFlat(s, i + 1, |s|);
      assert false;
    }
    k := j;
    assert s[k - 1] == '\n';
  }

  lemma StuckIsLong(s: string, i: nat, maxLen: nat)
    requires Good(s) && Stuck(s, i, maxLen)
    ensures maxLen < |s|
  {
    var k := LaterFence(s, i);
  }

  /** Texts that agree from a fence on give it the same header. */
  lemma HeaderShift(s: string, i: nat, t: string, j: nat)
    requires FenceAt(s, i) && FenceAt(t, j)
    requires Continues(s, i, t, j)
    requires 0 <= NextNewline(t, j)
    ensures Header(s, i) == Header(t, j)
  {
    NewlineShift(s, i, t, j);
    var n := NextNewline(t, j);
    assert t[j..n] == s[i..n - j + i];
  }

  /** From `d` on, `t` has the text, the fences and the fence parities that `s` has from `a` on. */
  ghost predicate Mirrors(s: string, a: nat, t: string, d: nat) {
    && Continues(s, a, t, d)
    && (forall k {:trigger FenceAt(t, k)} :: d <= k ==> FenceAt(t, k) == FenceAt(s, k - d + a))
    && (forall k: nat {:trigger Fences(t, k)} :: d <= k <= |t| ==> Even(Fences(t, k)) == Even(Fences(s, k - d + a)))
  }

  /** A fence of `t` is stuck exactly when it is in the text `t` mirrors. */
  lemma StuckShift(s: string, a: nat, t: string, d: nat, i: nat, maxLen: nat)
    requires Good(s) && Good(t) && Mirrors(s, a, t, d)
    requires a <= i && 2 <= i && i - a + d != 1
    ensures Stuck(s, i, maxLen) <==> Stuck(t, i - a + d, maxLen)
  {
    hide FenceAt, Header, NextNewline;
    var j := i - a + d;
    assert FenceAt(t, j) == FenceAt(s, i);
    if FenceAt(t, j) {
      FenceInside(t, j);
      assert Even(Fences(t, j)) == Even(Fences(s, i));
      if Even(Fences(t, j)) {
        var k := LaterFence(t, j);
        HeaderShift(s, i, t, j);
        WithinShift(s, i, t, j, maxLen);
      }
    }
  }

  lemma WithinShift(s: string, i: nat, t: string, j: nat, lim: nat)
    requires forall k {:trigger FenceAt(t, k)} :: j <= k ==> FenceAt(t, k) == FenceAt(s, k - j + i)
    ensures NoFenceWithin(s, i, i + lim) <==> NoFenceWithin(t, j, j + lim)
  {
    if NoFenceWithin(t, j, j + lim) {
      forall x | i < x && x + 3 <= i + lim ensures !FenceAt(s, x) {
        assert FenceAt(t, x - i + j) == FenceAt(s, x);
      }
    }
  }

  // A cut between blocks passes stuck blocks on, and makes none.

  lemma PlainMirror(s: string, e: nat) returns (a: nat, t: string)
    requires Good(s) && e <= |s| && Clean(s, e) && Even(Fences(s, e))
    ensures t == TrimSpace(s[e..]) && Good(t)
    ensures e <= a && Mirrors(s, a, t, 0)
    ensures a == e + Skip(TrimRight(s[e..], SPACES), SPACES)
    ensures forall i :: e <= i < a ==> s[i] in SPACES
    ensures t != "" ==> t[0] !in SPACES
  {
    hide TrimSpace, FenceAt, Shaped, Fences, Good, Clean, Mirrors;
    var b;
    a, b := TailBounds(s, e);
    t := s[a..b];
    GoodIsShaped(s);
    TailGood(s, e);
    TailMirror(s, e, a, b);
  }

  lemma TailMirror(s: string, e: nat, a: nat, b: nat)
    requires Shaped(s) && e <= a <= b <= |s| && Clean(s, e) && Even(Fences(s, e))
    requires forall i :: e <= i < a || b <= i < |s| ==> s[i] in SPACES
    ensures Mirrors(s, a, s[a..b], 0)
  {
    hide FenceAt, Shaped, Fences, Clean, Even;
    TailFences(s, e, a, b);
    var t := s[a..b];
    forall k: nat {:trigger Fences(t, k)} | k <= |t| ensures Even(Fences(t, k)) == Even(Fences(s, k + a)) {
      EvenShift(Fences(t, k), Fences(s, a + k), Fences(s, e));
    }
    forall k {:trigger FenceAt(t, k)} | 0 <= k ensures FenceAt(t, k) == FenceAt(s, k - 0 + a) {
      assert FenceAt(t, k) == FenceAt(s, a + k);
    }
  }

  lemma EvenShift(x: nat, y: nat, z: nat)
    requires x == y - z && Even(z)
    ensures Even(x) == Even(y)
  {
  }

  lemma GoodIsShaped(s: string)
    requires Good(s)
    ensures Shaped(s)
  {
  }

  lemma PlainPassesOn(s: string, e: nat, i: nat, maxLen: nat) returns (j: nat)
    requires Good(s) && 0 < e <= |s| && e <= maxLen && Clean(s, e) && Even(Fences(s, e))
    requires e < |s| ==> 3 <= e || s[e] in SPACES
    requires Stuck(s, i, maxLen)
    ensures Stuck(TrimSpace(s[e..]), j, maxLen)
  {
    hide FenceAt, TrimSpace, Shaped, Fences;
    StuckBehind(s, e, i, maxLen);
    var a, t := PlainMirror(s, e);
    j := i - a;
    assert FenceAt(t, j);
    FenceInside(t, j);
    FenceNotSecond(t, j);
    StuckShift(s, a, t, 0, i, maxLen);
  }

  /** A stuck block begins behind every cut between blocks within the limit. */
  lemma StuckBehind(s: string, e: nat, i: nat, maxLen: nat)
    requires e <= maxLen && Clean(s, e) && Even(Fences(s, e)) && Stuck(s, i, maxLen)
    ensures e <= i && s[i] !in SPACES
  {
    if i < e {
      FencesFlat(s, i + 1, e);
    }
  }

  lemma FenceInside(t: string, j: int)
    requires FenceAt(t, j)
    ensures 0 <= j && j + 3 <= |t|
  {
  }

  /** In shaped text that does not begin with whitespace no fence is at position 1. */
  lemma FenceNotSecond(t: string, j: nat)
    requires Shaped(t) && FenceAt(t, j) && t[0] !in SPACES
    ensures j != 1
  {
  }

  lemma PlainMakesNone(s: string, e: nat, j: nat, maxLen: nat) returns (i: nat)
    requires Good(s) && 0 < e <= |s| && Clean(s, e) && Even(Fences(s, e))
    requires e < |s| ==> 3 <= e || s[e] in SPACES
    requires Stuck(TrimSpace(s[e..]), j, maxLen)
    ensures Stuck(s, i, maxLen)
  {
    hide FenceAt, TrimSpace, Shaped, Fences;
    var a, t := PlainMirror(s, e);
    i := a + j;
    assert FenceAt(t, j) == FenceAt(s, i);
    FenceNotSecond(t, j);
    StuckShift(s, a, t, 0, i, maxLen);
  }

  // A cut inside a block does the same; its own block stays stuck, or was not.

  /** The reopened text: the header on a line of its own, then the old text from the cut on. */
  lemma ReopenedMirror(s: string, u: nat, e: nat) returns (t: string)
    requires Good(s) && FenceAt(s, u) && e <= |s| && Clean(s, e) && !Even(Fences(s, e))
    ensures var h := Header(s, u); var d := |h| + 1;
            && t == TrimSpace(h + "\n" + s[e..]) && Good(t)
            && h <= t && (|h| < |t| ==> t[|h|] == '\n')
            && (forall k {:trigger FenceAt(t, k)} :: FenceAt(t, k) ==> k == 0 || d <= k)
            && (d <= |t| ==> Mirrors(s, e, t, d))
  {
    var h := Header(s, u);
    var t0 := h + "\n" + s[e..];
    var b := ReopenedBounds(s, u, e);
    t := t0[0..b];
    ReopenedRest(s, u, e);
    ReopenedStart(h, s[e..], b);
    ReopenedPartMirror(s, u, e, t0, b);
  }

  lemma ReopenedStart(h: string, q: string, b: nat)
    requires |h| <= b <= |h| + 1 + |q|
    ensures var t := (h + "\n" + q)[0..b]; h <= t && (|h| < |t| ==> t[|h|] == '\n')
  {
  }

  lemma ReopenedPartMirror(s: string, u: nat, e: nat, t0: string, b: nat)
    requires Shaped(s) && FenceAt(s, u) && e <= |s| && Clean(s, e) && !Even(Fences(s, e))
    requires t0 == Header(s, u) + "\n" + s[e..] && b <= |t0| && forall i :: b <= i < |t0| ==> t0[i] in SPACES
    ensures var t := t0[0..b]; var d := |Header(s, u)| + 1;
            && (forall k {:trigger FenceAt(t, k)} :: FenceAt(t, k) ==> k == 0 || d <= k)
            && (d <= |t| ==> Mirrors(s, e, t, d))
  {
    hide FenceAt, Header, Shaped, Fences, Even;
    var t := t0[0..b];
    var d := |Header(s, u)| + 1;
    ReopenedFences(s, u, e);
    CleanStart(t0);
    TrimmedFences(t0, 0, b);
    forall k | FenceAt(t, k) ensures k == 0 || d <= k {
      FenceInside(t, k);
      assert FenceAt(t0, 0 + k);
    }
    assert Fences(t0, 0) == 0 by {
      NoFences(t0);
    }
    if d <= |t| {
      assert Continues(s, e, t, d);
      forall k: nat {:trigger Fences(t, k)} | d <= k <= |t| ensures Even(Fences(t, k)) == Even(Fences(s, k - d + e)) {
        assert Fences(t, k) == Fences(t0, 0 + k);
        assert Fences(t0, k) == 1 + Fences(s, k - d + e) - Fences(s, e);
        OddShift(Fences(t, k), Fences(s, k - d + e), Fences(s, e));
      }
    }
  }

  lemma OddShift(x: nat, y: nat, z: nat)
    requires x == 1 + y - z && !Even(z)
    ensures Even(x) == Even(y)
  {
  }

  lemma CleanStart(s: string)
    ensures Clean(s, 0)
  {
  }

  lemma NoFences(s: string)
    ensures Fences(s, 0) == 0
  {
  }

  /** The block reopened at the start of `t` has the header it is reopened with. */
  lemma ReopenedHeader(h: string, t: string)
    requires Good(t) && h <= t && (|h| < |t| ==> t[|h|] == '\n') && FenceAt(t, 0)
    requires h != "" && (forall k :: 0 <= k < |h| ==> h[k] != '\n') && h[0] !in SPACES && h[|h| - 1] !in SPACES
    ensures Header(t, 0) == h && |h| < |t|
  {
    NoFences(t);
    var k := LaterFence(t, 0);
    assert NextNewline(t, 0) >= |h|;
    assert NextNewline(t, 0) == |h|;
    assert t[0..|h|] == h;
    TrimSpaceFixpoint(h);
  }

  /** What the reopening of the block at `u` leaves: its fence first, and the old text behind the header line. */
  lemma ReopenedText(s: string, maxLen: nat, u: nat, e: nat) returns (t: string)
    requires Good(s) && FenceAt(s, u) && ReopenedAt(s, maxLen, u, e, Header(s, u))
    ensures var h := Header(s, u); var d := |h| + 1;
            && t == TrimSpace(h + "\n" + s[e..]) && Good(t)
            && FenceAt(t, 0) && Header(t, 0) == h && 3 <= |h|
            && (forall k {:trigger FenceAt(t, k)} :: FenceAt(t, k) ==> k == 0 || d <= k)
            && Mirrors(s, e, t, d)
  {
    FencesFlat(s, u + 1, e);
    HeaderShape(s, u);
    t := ReopenedMirror(s, u, e);
    var h := Header(s, u);
    StartsWithFence(h, t);
    ReopenedHeader(h, t);
  }

  lemma StartsWithFence(h: string, t: string)
    requires h <= t && FenceAt(h, 0)
    ensures FenceAt(t, 0)
  {
    assert t[0] == h[0] && t[1] == h[1] && t[2] == h[2];
  }

  /** The block being reopened is stuck afterwards exactly when it was stuck before. */
  lemma ReopenedStuck(s: string, maxLen: nat, u: nat, e: nat, t: string)
    requires FenceAt(s, u) && ReopenedAt(s, maxLen, u, e, Header(s, u))
    requires FenceAt(t, 0) && Header(t, 0) == Header(s, u)
    requires var d := |Header(s, u)| + 1;
             Mirrors(s, e, t, d) && forall k {:trigger FenceAt(t, k)} :: FenceAt(t, k) ==> k == 0 || d <= k
    ensures Stuck(s, u, maxLen) <==> Stuck(t, 0, maxLen)
  {
    hide Header, Fences;
    HeaderLength(s, u);
    NoFences(t);
    var d := |Header(s, u)| + 1;
    if maxLen - 6 <= |Header(s, u)| {
      assert u <= 1 && e == maxLen - 5;
      forall x | 0 < x && x + 3 <= maxLen ensures !FenceAt(t, x) {
        assert FenceAt(t, x) ==> FenceAt(s, x - d + e);
      }
    }
  }

  lemma ReopenPassesOn(s: string, maxLen: nat, u: nat, e: nat, i: nat) returns (j: nat)
    requires Good(s) && FenceAt(s, u) && ReopenedAt(s, maxLen, u, e, Header(s, u)) && Stuck(s, i, maxLen)
    ensures Stuck(TrimSpace(Header(s, u) + "\n" + s[e..]), j, maxLen)
  {
    hide FenceAt, Header, Fences, Shaped, TrimSpace;
    var t := ReopenedText(s, maxLen, u, e);
    assert u <= i;
    if i == u {
      j := 0;
      ReopenedStuck(s, maxLen, u, e, t);
    } else {
      var d := |Header(s, u)| + 1;
      j := i - e + d;
      StuckShift(s, e, t, d, i, maxLen);
    }
  }

  lemma ReopenMakesNone(s: string, maxLen: nat, u: nat, e: nat, j: nat) returns (i: nat)
    requires Good(s) && FenceAt(s, u) && ReopenedAt(s, maxLen, u, e, Header(s, u))
    requires Stuck(TrimSpace(Header(s, u) + "\n" + s[e..]), j, maxLen)
    ensures Stuck(s, i, maxLen)
  {
    hide FenceAt, Header, Fences, Shaped, TrimSpace;
    var t := ReopenedText(s, maxLen, u, e);
    if j == 0 {
      i := u;
      ReopenedStuck(s, maxLen, u, e, t);
    } else {
      var d := |Header(s, u)| + 1;
      i := j - d + e;
      StuckShift(s, e, t, d, i, maxLen);
    }
  }

  // ---------------------------------------------------------------- the exact condition

  lemma StuckPassesOn(s: string, maxLen: nat, i: nat) returns (j: nat)
    requires Good(s) && 10 <= maxLen && Stuck(s, i, maxLen)
    ensures Stuck(Next(s, maxLen), j, maxLen)
  {
    hide Plan, Header, FenceAt, Fences, Shaped, TrimSpace;
    StuckIsLong(s, i, maxLen);
    var u := TurnShape(s, maxLen);
    match Plan(s, maxLen)
    case Plain(e) => j := PlainPassesOn(s, e, i, maxLen);
    case Reopen(e, h) => j := ReopenPassesOn(s, maxLen, u, e, i);
  }

  lemma StuckComesFrom(s: string, maxLen: nat, j: nat) returns (i: nat)
    requires Good(s) && 10 <= maxLen && Stuck(Next(s, maxLen), j, maxLen)
    ensures Stuck(s, i, maxLen)
  {
    hide Plan, Header, FenceAt, Fences, Shaped, TrimSpace;
    if |s| <= maxLen {
      WholeLeavesNothing(s, maxLen);
      FenceInside("", j);
    } else {
      var u := TurnShape(s, maxLen);
      match Plan(s, maxLen)
      case Plain(e) => i := PlainMakesNone(s, e, j, maxLen);
      case Reopen(e, h) => i := ReopenMakesNone(s, maxLen, u, e, j);
    }
  }

  lemma WholeLeavesNothing(s: string, maxLen: nat)
    requires 5 <= maxLen && |s| <= maxLen
    ensures Next(s, maxLen) == ""
  {
  }

  /** A turn that does not shrink a good text reopens a stuck block. */
  lemma FreeTurnShrinks(s: string, maxLen: nat)
    requires Good(s) && 10 <= maxLen && s != ""
    requires forall i: nat :: !Stuck(s, i, maxLen)
    ensures |Next(s, maxLen)| < |s|
  {
    hide Header, FenceAt, Fences, Shaped, TrimRight, EffectiveLimit;
    if |s| > maxLen {
      var u := TurnShape(s, maxLen);
      match Plan(s, maxLen)
      case Plain(e) =>
      case Reopen(e, h) =>
        assert !Stuck(s, u, maxLen);
        HeaderLength(s, u);
        ReopenLength(s, e, h);
    }
  }

  lemma {:induction false} StuckForever(s: string, maxLen: nat, i: nat, n: nat)
    requires Good(s) && 10 <= maxLen && Stuck(s, i, maxLen)
    ensures After(s, maxLen, n) != ""
    decreases n
  {
    hide Next, Fences, Header, Shaped, FenceAt;
    if n == 0 {
      StuckIsLong(s, i, maxLen);
    } else {
      TurnKeepsGood(s, maxLen);
      var j := StuckPassesOn(s, maxLen, i);
      StuckForever(Next(s, maxLen), maxLen, j, n - 1);
      AfterNext(s, maxLen, n - 1);
    }
  }

  lemma {:induction false} FreeHalts(s: string, maxLen: nat)
    requires Good(s) && 10 <= maxLen
    requires forall i: nat :: !Stuck(s, i, maxLen)
    ensures Halts(s, maxLen)
    decreases |s|
  {
    hide Next, Fences, Header, Shaped, FenceAt;
    if s == "" {
      assert After(s, maxLen, 0) == "";
    } else {
      FreeTurnShrinks(s, maxLen);
      TurnKeepsGood(s, maxLen);
      forall j: nat ensures !Stuck(Next(s, maxLen), j, maxLen) {
        if Stuck(Next(s, maxLen), j, maxLen) {
          var i := StuckComesFrom(s, maxLen, j);
        }
      }
      FreeHalts(Next(s, maxLen), maxLen);
      HaltsIfNextHalts(s, maxLen);
    }
  }

  /** On shaped and balanced text the splitter stops exactly when no block is stuck: every block fits
      into `maxLen` characters or has a first line of at most `maxLen - 7`. */
  lemma HaltsExactly(s: string, maxLen: nat)
    requires 10 <= maxLen && Shaped(s) && Balanced(s)
    ensures Halts(s, maxLen) <==> forall i: nat :: !Stuck(s, i, maxLen)
  {
    hide Fences, Header, Shaped, FenceAt;
    BalancedIsEven(s);
    if forall i: nat :: !Stuck(s, i, maxLen) {
      FreeHalts(s, maxLen);
    } else {
      var i: nat :| Stuck(s, i, maxLen);
      forall n: nat ensures After(s, maxLen, n) != "" {
        StuckForever(s, maxLen, i, n);
      }
    }
  }

  /** A block that is just too long, and whose first line is. */
  function EndlessText(maxLen: nat): string
    requires 10 <= maxLen
  {
    FENCE + seq(maxLen - 9, _ => 'a') + "\nbcd\n" + FENCE
  }

  /** For every limit there is such a text, of no more than `maxLen + 2` characters. */
  lemma EndlessSplit(maxLen: nat)
    requires 10 <= maxLen
    ensures var s := EndlessText(maxLen); Shaped(s) && Balanced(s) && |s| == maxLen + 2 && !Halts(s, maxLen)
  {
    var s := EndlessText(maxLen);
    EndlessShape(s, maxLen);
    EndlessHeader(s, maxLen);
    assert Stuck(s, 0, maxLen);
    hide Shaped, Halts, Stuck, Balanced, FenceAt, EndlessText;
    HaltsExactly(s, maxLen);
  }

  lemma EndlessChars(s: string, maxLen: nat)
    requires 10 <= maxLen && s == EndlessText(maxLen)
    ensures |s| == maxLen + 2
    ensures s[0] == s[1] == s[2] == '`' && forall i :: 3 <= i < maxLen - 6 ==> s[i] == 'a'
    ensures s[maxLen - 6] == s[maxLen - 2] == '\n'
    ensures s[maxLen - 5] == 'b' && s[maxLen - 4] == 'c' && s[maxLen - 3] == 'd'
    ensures s[maxLen - 1] == s[maxLen] == s[maxLen + 1] == '`'
  {
  }

  lemma EndlessShape(s: string, maxLen: nat)
    requires 10 <= maxLen && s == EndlessText(maxLen)
    ensures Shaped(s) && Balanced(s) && FenceAt(s, 0) && |s| == maxLen + 2
    ensures forall i :: FenceAt(s, i) ==> i == 0 || i == maxLen - 1
  {
    EndlessChars(s, maxLen);
    hide EndlessText;
    FencesFlat(s, 1, maxLen - 1);
    FencesFlat(s, maxLen, maxLen + 2);
    assert Even(Fences(s, maxLen + 2));
    assert Shaped(s);
    hide FenceAt, Fences, Shaped;
    BalancedIsEven(s);
  }

  lemma EndlessHeader(s: string, maxLen: nat)
    requires 10 <= maxLen && s == EndlessText(maxLen) && FenceAt(s, 0)
    ensures |Header(s, 0)| == maxLen - 6
  {
    EndlessChars(s, maxLen);
    hide EndlessText;
    assert NextNewline(s, 0) == maxLen - 6;
    var line := s[0..maxLen - 6];
    assert line[0] == '`' && line[|line| - 1] == 'a';
    TrimSpaceFixpoint(line);
  }
}
