/** Chunks keep their code fences balanced (pkg/utils/message.go:45-138). */
module SplitterFences {
  import opened Text
  import opened Splitter

  /** Every run of three or more backticks is exactly three long and begins a line. */
  ghost predicate Shaped(s: string) {
    forall i :: FenceAt(s, i) ==> (i == 0 || s[i - 1] == '\n') && (i + 3 < |s| ==> s[i + 3] != '`')
  }

  /** How many fences begin before `i`. */
  function Fences(s: string, i: nat): nat {
    if i == 0 then 0 else Fences(s, i - 1) + (if FenceAt(s, i - 1) then 1 else 0)
  }

  /** `e` does not fall inside a fence. */
  predicate Clean(s: string, e: int) {
    !FenceAt(s, e - 1) && !FenceAt(s, e - 2)
  }

  predicate Even(n: nat) {
    n % 2 == 0
  }

  /** Texts with the same fences at shifted positions count the same fences. */
  lemma {:induction false} FencesShift(s: string, a: nat, t: string, b: nat, n: nat)
    requires forall i :: b <= i < b + n ==> FenceAt(t, i) == FenceAt(s, i - b + a)
    ensures Fences(t, b + n) - Fences(t, b) == Fences(s, a + n) - Fences(s, a)
  {
    if n > 0 {
      FencesShift(s, a, t, b, n - 1);
      assert FenceAt(t, b + n - 1) == FenceAt(s, a + n - 1);
    }
  }

  /** A range without fences leaves the count alone. */
  lemma {:induction false} FencesFlat(s: string, a: nat, b: nat)
    requires a <= b
    requires forall j :: a <= j < b ==> !FenceAt(s, j)
    ensures Fences(s, a) == Fences(s, b)
  {
    if a < b {
      FencesFlat(s, a, b - 1);
    }
  }

  /** On shaped text the scanner computes the parity of the fence count and the last unmatched fence. */
  lemma {:induction false} ScanCounts(s: string, i: nat, open: int)
    requires Shaped(s) && i <= |s|
    requires open == -1 ==> Even(Fences(s, i))
    requires open != -1 ==> !Even(Fences(s, i)) && LastFenceBefore(s, i, open)
    ensures var r := Scan(s, i, open);
            if Even(Fences(s, |s|)) then r == -1 else LastFenceBefore(s, |s|, r)
    decreases |s| - i
  {
    if i < |s| {
      if FenceAt(s, i) {
        FencesFlat(s, i + 1, i + 3);
        ScanCounts(s, i + 3, if open < 0 then i else -1);
      } else {
        ScanCounts(s, i + 1, open);
      }
    }
  }

  ghost predicate LastFenceBefore(s: string, i: nat, u: int) {
    0 <= u < i && FenceAt(s, u) && Even(Fences(s, u)) && forall j :: u < j < i ==> !FenceAt(s, j)
  }

  lemma BalancedIsEven(s: string)
    requires Shaped(s)
    ensures Balanced(s) <==> Even(Fences(s, |s|))
  {
    ScanCounts(s, 0, -1);
  }

  /** A shaped and balanced text: the inputs for which chunks are promised to be well-formed. */
  ghost predicate Good(s: string) {
    Shaped(s) && Even(Fences(s, |s|))
  }

  // ---------------------------------------------------------------- parts of a shaped text

  lemma PrefixFences(s: string, e: nat)
    requires Shaped(s) && e <= |s| && Clean(s, e)
    ensures Shaped(s[..e]) && Fences(s[..e], e) == Fences(s, e)
    ensures forall j :: j < e ==> FenceAt(s[..e], j) == FenceAt(s, j)
  {
    var p := s[..e];
    forall j | j < e ensures FenceAt(p, j) == FenceAt(s, j) {}
    FencesShift(s, 0, p, 0, e);
  }

  /** A part that drops only whitespace around it keeps all fences. */
  lemma TrimmedFences(s: string, a: nat, b: nat)
    requires Shaped(s) && a <= b <= |s| && Clean(s, a)
    requires forall i :: b <= i < |s| ==> s[i] in SPACES
    ensures var t := s[a..b];
            && Shaped(t)
            && (forall i {:trigger FenceAt(t, i)} :: 0 <= i ==> FenceAt(t, i) == FenceAt(s, a + i))
            && (forall i: nat :: i <= |t| ==> Fences(t, i) == Fences(s, a + i) - Fences(s, a))
            && Fences(t, |t|) == Fences(s, |s|) - Fences(s, a)
  {
    var t := s[a..b];
    forall i {:trigger FenceAt(t, i)} | 0 <= i ensures FenceAt(t, i) == FenceAt(s, a + i) {}
    forall i: nat | i <= |t| ensures Fences(t, i) == Fences(s, a + i) - Fences(s, a) {
      FencesShift(s, a, t, 0, i);
    }
    FencesFlat(s, b, |s|);
  }

  // ---------------------------------------------------------------- where the code cuts

  /** The natural split point never falls inside a fence: a fence there would have a newline in the window. */
  lemma FirstCutClean(s: string, limit: nat)
    requires Shaped(s) && 5 <= limit <= |s|
    ensures Clean(s, FirstCut(s, limit))
  {
    var p := s[..limit];
    var n := LastOf(p, 200, NEWLINE);
    if FirstCut(s, limit) == limit {
      assert p[limit - 2] == s[limit - 2] && p[limit - 3] == s[limit - 3];
    }
  }

  /** The open block the code finds before a clean cut. */
  lemma UnclosedBefore(s: string, e: nat)
    requires Shaped(s) && e <= |s| && Clean(s, e)
    ensures var u := LastUnclosed(s[..e]);
            if Even(Fences(s, e)) then u == -1 else LastFenceBefore(s, e, u)
  {
    PrefixFences(s, e);
    ScanCounts(s[..e], 0, -1);
    if !Even(Fences(s, e)) {
      LastFenceInPrefix(s, s[..e], e, LastUnclosed(s[..e]));
    }
  }

  lemma LastFenceInPrefix(s: string, p: string, e: nat, u: int)
    requires forall j :: j < e ==> FenceAt(p, j) == FenceAt(s, j)
    requires LastFenceBefore(p, e, u)
    ensures LastFenceBefore(s, e, u)
  {
    FencesShift(s, 0, p, 0, u);
  }

  /** A header is the part of its line from the fence on; it holds that one fence and no newline. */
  lemma HeaderShape(s: string, u: nat)
    requires Shaped(s) && FenceAt(s, u)
    ensures var h := Header(s, u);
            && 3 <= |h| && u + |h| <= HeaderEnd(s, u) && h == s[u..u + |h|]
            && (forall j :: FenceAt(h, j) <==> j == 0)
            && (forall j :: 0 <= j < |h| ==> h[j] != '\n')
            && h[0] !in SPACES && h[|h| - 1] !in SPACES
  {
    var e := HeaderEnd(s, u);
    var line := s[u..e];
    assert line[0] == s[u] && line[1] == s[u + 1] && line[2] == s[u + 2];
    var a, b := TrimSpaceIsSlice(line);
    assert a == 0 && b >= 3;
    var h := Header(s, u);
    assert |h| == b;
    forall k | 0 <= k < b ensures h[k] == s[u + k] {
      assert h[k] == line[k];
    }
    assert h == s[u..u + b];
    forall j | FenceAt(h, j) ensures j == 0 {
      assert FenceAt(s, u + j);
    }
  }

  // ---------------------------------------------------------------- what a cut keeps

  /** The part of `s` that trimming keeps of its tail from `e` on. */
  lemma TailBounds(s: string, e: nat) returns (a: nat, b: nat)
    requires e <= |s|
    ensures e <= a <= b <= |s| && TrimSpace(s[e..]) == s[a..b]
    ensures forall i :: e <= i < a || b <= i < |s| ==> s[i] in SPACES
    ensures a < b ==> s[a] !in SPACES && s[b - 1] !in SPACES
    ensures a == e + Skip(TrimRight(s[e..], SPACES), SPACES)
  {
    var tail := s[e..];
    a, b := TrimSpaceIsSlice(tail);
    a, b := e + a, e + b;
    SubSlice(s, e, |s|, a - e, b - e);
    assert s[e..|s|] == tail;
    forall i | e <= i < a || b <= i < |s| ensures s[i] in SPACES {
      assert tail[i - e] in SPACES;
    }
  }

  /** The fences from `e` on are the fences of the trimmed tail. */
  lemma TailFences(s: string, e: nat, a: nat, b: nat)
    requires Shaped(s) && e <= a <= b <= |s| && Clean(s, e)
    requires forall i :: e <= i < a || b <= i < |s| ==> s[i] in SPACES
    ensures Clean(s, a) && Fences(s, a) == Fences(s, e)
    ensures Shaped(s[a..b]) && Fences(s[a..b], b - a) == Fences(s, |s|) - Fences(s, e)
    ensures forall i {:trigger FenceAt(s[a..b], i)} :: 0 <= i ==> FenceAt(s[a..b], i) == FenceAt(s, a + i)
    ensures forall i: nat :: i <= b - a ==> Fences(s[a..b], i) == Fences(s, a + i) - Fences(s, e)
  {
    forall i | e <= i < a ensures !FenceAt(s, i) {
      assert s[i] in SPACES;
    }
    FencesFlat(s, e, a);
    TrimmedFences(s, a, b);
  }

  /** Cutting between blocks leaves two good parts. */
  lemma PlainKeeps(s: string, e: nat)
    requires Good(s) && e <= |s| && Clean(s, e) && Even(Fences(s, e))
    ensures Good(s[..e]) && Good(TrimSpace(s[e..]))
  {
    PrefixFences(s, e);
    TailGood(s, e);
  }

  lemma TailGood(s: string, e: nat)
    requires Good(s) && e <= |s| && Clean(s, e) && Even(Fences(s, e))
    ensures Good(TrimSpace(s[e..]))
  {
    hide Fences, FenceAt, Clean, Shaped, TrimSpace;
    var a, b := TailBounds(s, e);
    TailFences(s, e, a, b);
    assert |s[a..b]| == b - a;
  }

  /** Cutting inside the block opened at `u`, closing it in the chunk and opening it again in the rest,
      leaves two good parts. */
  lemma ReopenKeeps(s: string, u: nat, e: nat)
    requires Good(s) && u + 3 <= e <= |s| && Clean(s, e) && LastFenceBefore(s, e, u)
    ensures Good(Chunk(s, Reopen(e, Header(s, u)))) && Good(Rest(s, Reopen(e, Header(s, u))))
  {
    FencesFlat(s, u + 1, e);
    assert Fences(s, e) == Fences(s, u) + 1;
    ClosedChunk(s, u, e);
    ReopenedRest(s, u, e);
  }

  lemma ClosedChunk(s: string, u: nat, e: nat)
    requires Shaped(s) && u + 3 <= e <= |s| && Clean(s, e) && LastFenceBefore(s, e, u)
    ensures Good(TrimRight(s[..e], CHUNK_TAIL) + CLOSER)
  {
    var p := s[..e];
    var k := Keep(p, CHUNK_TAIL);
    assert p[u + 2] == '`';
    assert p[..k] == s[..k];
    assert Clean(s, k);
    FencesFlat(s, u + 1, k);
    PrefixFences(s, k);
    ClosedFences(s[..k]);
  }

  /** Two texts on lines of their own: the fences of the first, then those of the second. */
  lemma JoinedFences(p: string, q: string)
    requires Shaped(p) && Shaped(q)
    ensures var t := p + "\n" + q; var d := |p| + 1;
            && Shaped(t)
            && (forall j :: FenceAt(t, j) <==> FenceAt(p, j) || FenceAt(q, j - d))
            && (forall i: nat :: d <= i ==> Fences(t, i) == Fences(p, |p|) + Fences(q, i - d))
  {
    hide FenceAt, Shaped, Fences;
    var t := p + "\n" + q;
    JoinedFenceAt(p, q, t);
    JoinedShape(p, q, t);
    forall i: nat | |p| < i ensures Fences(t, i) == Fences(p, |p|) + Fences(q, i - |p| - 1) {
      JoinedCount(p, q, t, i);
    }
  }

  lemma JoinedCount(p: string, q: string, t: string, i: nat)
    requires t == p + "\n" + q && |p| < i
    ensures Fences(t, i) == Fences(p, |p|) + Fences(q, i - |p| - 1)
  {
    JoinedFenceAt(p, q, t);
    hide FenceAt;
    FencesShift(p, 0, t, 0, |p|);
    FencesShift(q, 0, t, |p| + 1, i - |p| - 1);
  }

  lemma JoinedFenceAt(p: string, q: string, t: string)
    requires t == p + "\n" + q
    ensures forall j :: FenceAt(t, j) == if j < |p| then FenceAt(p, j) else |p| < j && FenceAt(q, j - |p| - 1)
    ensures forall j :: FenceAt(t, j) <==> FenceAt(p, j) || FenceAt(q, j - |p| - 1)
  {
    var d := |p| + 1;
    assert t[d - 1] == '\n';
    forall j | d <= j < |t| ensures t[j] == q[j - d] {}
  }

  lemma JoinedShape(p: string, q: string, t: string)
    requires Shaped(p) && Shaped(q) && t == p + "\n" + q
    requires forall j :: FenceAt(t, j) ==> if j < |p| then FenceAt(p, j) else |p| < j && FenceAt(q, j - |p| - 1)
    ensures Shaped(t)
  {
    var d := |p| + 1;
    forall i | FenceAt(t, i) ensures (i == 0 || t[i - 1] == '\n') && (i + 3 < |t| ==> t[i + 3] != '`') {
      if i < |p| {
        assert FenceAt(p, i);
      } else {
        assert FenceAt(q, i - d);
        assert i + 3 < |t| ==> t[i + 3] == q[i + 3 - d];
        assert i > d ==> t[i - 1] == q[i - 1 - d];
      }
    }
  }

  /** A closer after a text with an odd number of fences makes it good. */
  lemma ClosedFences(p: string)
    requires Shaped(p) && !Even(Fences(p, |p|))
    ensures Good(p + CLOSER)
  {
    assert FenceAt(FENCE, 0);
    FencesFlat(FENCE, 1, 3);
    JoinedFences(p, FENCE);
    assert p + CLOSER == p + "\n" + FENCE;
  }

  /** The fences of a reopened text: its header's, then those behind the cut. */
  lemma ReopenedFences(s: string, u: nat, e: nat)
    requires Shaped(s) && FenceAt(s, u) && e <= |s| && Clean(s, e)
    ensures var h := Header(s, u); var t := h + "\n" + s[e..]; var d := |h| + 1;
            && |t| == |s| - e + d
            && Shaped(t)
            && (forall j :: FenceAt(t, j) <==> j == 0 || (d <= j && FenceAt(s, j - d + e)))
            && (forall i: nat :: d <= i ==> Fences(t, i) == 1 + Fences(s, i - d + e) - Fences(s, e))
  {
    HeaderShape(s, u);
    var h := Header(s, u);
    var d := |h| + 1;
    FencesFlat(h, 1, |h|);
    var q := s[e..];
    SuffixFences(s, e, q);
    JoinedFences(h, q);
  }

  lemma SuffixFences(s: string, e: nat, q: string)
    requires Shaped(s) && e <= |s| && q == s[e..]
    ensures Shaped(q)
    ensures forall j {:trigger FenceAt(q, j)} :: FenceAt(q, j) <==> 0 <= j && FenceAt(s, j + e)
    ensures forall i: nat :: Fences(q, i) == Fences(s, i + e) - Fences(s, e)
  {
    forall j {:trigger FenceAt(q, j)} ensures FenceAt(q, j) <==> 0 <= j && FenceAt(s, j + e) {}
    forall i: nat ensures Fences(q, i) == Fences(s, i + e) - Fences(s, e) {
      FencesShift(s, e, q, 0, i);
    }
  }

  /** A reopened text is trimmed at its end only. */
  lemma ReopenedBounds(s: string, u: nat, e: nat) returns (b: nat)
    requires Shaped(s) && FenceAt(s, u) && e <= |s|
    ensures var t := Header(s, u) + "\n" + s[e..];
            && |Header(s, u)| <= b <= |t| && TrimSpace(t) == t[0..b]
            && (forall i :: b <= i < |t| ==> t[i] in SPACES)
  {
    HeaderShape(s, u);
    var h := Header(s, u);
    var t := h + "\n" + s[e..];
    var a;
    a, b := TrimSpaceIsSlice(t);
    assert t[0] == h[0] && t[|h| - 1] == h[|h| - 1];
  }

  lemma ReopenedRest(s: string, u: nat, e: nat)
    requires Good(s) && FenceAt(s, u) && e <= |s| && Clean(s, e) && !Even(Fences(s, e))
    ensures Good(TrimSpace(Header(s, u) + "\n" + s[e..]))
  {
    var h := Header(s, u);
    var t := h + "\n" + s[e..];
    var b := ReopenedBounds(s, u, e);
    ReopenedCount(s, u, e);
    ReopenedGood(s, e, t, b);
  }

  lemma ReopenedCount(s: string, u: nat, e: nat)
    requires Shaped(s) && FenceAt(s, u) && e <= |s| && Clean(s, e)
    ensures var t := Header(s, u) + "\n" + s[e..];
            Shaped(t) && Fences(t, |t|) == 1 + Fences(s, |s|) - Fences(s, e)
  {
    ReopenedFences(s, u, e);
  }

  lemma ReopenedGood(s: string, e: nat, t: string, b: nat)
    requires Good(s) && e <= |s| && !Even(Fences(s, e))
    requires Shaped(t) && b <= |t|
    requires Fences(t, |t|) == 1 + Fences(s, |s|) - Fences(s, e)
    requires forall i :: b <= i < |t| ==> t[i] in SPACES
    ensures Good(t[0..b])
  {
    TrimmedFences(t, 0, b);
    assert |t[0..b]| == b;
  }

  // ---------------------------------------------------------------- one turn

  /** The cut chosen inside a block never lies before the natural split point. */
  lemma InnerCutNotBefore(s: string, h: nat, maxLen: nat)
    requires 10 <= maxLen < |s|
    ensures FirstCut(s, EffectiveLimit(maxLen)) <= InnerCut(s, h, maxLen) <= maxLen - 5
  {
    var limit := EffectiveLimit(maxLen);
    var n := LastOf(s[..maxLen - 5], 200, NEWLINE);
    var m := LastOf(s[..limit], 200, NEWLINE);
    assert forall k :: 0 <= k < limit ==> s[..limit][k] == s[..maxLen - 5][k];
  }

  /** No fence ends within the first `lim` characters and begins behind `u`. */
  ghost predicate NoFenceWithin(s: string, u: nat, lim: int) {
    forall j :: u < j && j + 3 <= lim ==> !FenceAt(s, j)
  }

  /** The code reopens the block that begins at `u`, cutting at `e`. */
  ghost predicate ReopenedAt(s: string, maxLen: nat, u: int, e: nat, h: string) {
    && 0 <= u && u + 3 <= e <= maxLen - 5 && e <= |s|
    && Clean(s, e) && LastFenceBefore(s, e, u) && NoFenceWithin(s, u, maxLen)
    && h == Header(s, u)
    && ((u <= 1 && e == maxLen - 5) || HeaderEnd(s, u) + 20 < e)
  }

  /** The cut lies right before the block at `u`, or inside it. */
  ghost predicate CutsBlock(s: string, maxLen: nat, u: int, c: Cut) {
    match c
    case Whole => false
    case Plain(e) => 2 <= u && e == u - 1
    case Reopen(e, h) => ReopenedAt(s, maxLen, u, e, h)
  }

  /** The cut lies between blocks, or inside the block at `u`. */
  ghost predicate CutsCleanly(s: string, maxLen: nat, u: int, c: Cut)
    requires !c.Whole? ==> c.end <= |s|
  {
    match c
    case Whole => false
    case Plain(e) =>
      0 < e <= maxLen && Clean(s, e) && Even(Fences(s, e)) && (3 <= e || (e < |s| && s[e] in SPACES))
    case Reopen(e, h) => ReopenedAt(s, maxLen, u, e, h)
  }

  /** What the code does with a shaped text that has a block open at its natural split point and no
      closing fence within `maxLen`: it cuts right before the block, or inside it. */
  lemma InBlockCut(s: string, maxLen: nat, u: nat)
    requires Shaped(s) && 9 <= maxLen < |s|
    requires var first := FirstCut(s, EffectiveLimit(maxLen));
             Clean(s, first) && LastFenceBefore(s, first, u) && !(0 < NextClosing(s, first) <= maxLen)
    ensures CutsBlock(s, maxLen, u, PlanInBlock(s, maxLen, FirstCut(s, EffectiveLimit(maxLen)), u))
  {
    var first := FirstCut(s, EffectiveLimit(maxLen));
    if 10 <= maxLen {
      InnerCutNotBefore(s, HeaderEnd(s, u), maxLen);
    }
    var p := s[..u];
    if u > 0 {
      assert p[u - 1] == '\n';
    }
    assert NoFenceWithin(s, u, maxLen);
  }

  /** Cutting right behind the fence that closes the open block. */
  lemma ClosingCut(s: string, first: nat)
    requires Shaped(s) && !Even(Fences(s, first)) && 0 < NextClosing(s, first)
    ensures var c := NextClosing(s, first); 3 <= c && Clean(s, c) && Even(Fences(s, c))
  {
    var j := NextFence(s, first);
    FencesFlat(s, first, j);
    FencesFlat(s, j + 1, j + 3);
  }

  /** The decision of one turn on a shaped text, in terms of its fences. */
  lemma TurnShape(s: string, maxLen: nat) returns (u: int)
    requires Shaped(s) && 9 <= maxLen < |s|
    ensures CutsCleanly(s, maxLen, u, Plan(s, maxLen))
  {
    var first := FirstCut(s, EffectiveLimit(maxLen));
    FirstCutClean(s, EffectiveLimit(maxLen));
    UnclosedBefore(s, first);
    u := LastUnclosed(s[..first]);
    if u >= 0 {
      if 0 < NextClosing(s, first) <= maxLen {
        ClosingCut(s, first);
      } else {
        InBlockCut(s, maxLen, u);
        if 2 <= u {
          CutBeforeBlock(s, u);
        }
      }
    }
  }

  lemma CutBeforeBlock(s: string, u: nat)
    requires Shaped(s) && FenceAt(s, u) && 2 <= u && Even(Fences(s, u))
    ensures Clean(s, u - 1) && Even(Fences(s, u - 1)) && s[u - 1] in SPACES
  {
    FencesFlat(s, u - 1, u);
  }

  /** One turn on a good text emits a good chunk and leaves a good text. */
  lemma TurnKeepsGood(s: string, maxLen: nat)
    requires Good(s) && 9 <= maxLen
    ensures Good(Chunk(s, Plan(s, maxLen))) && Good(Next(s, maxLen))
  {
    if |s| > maxLen {
      var u := TurnShape(s, maxLen);
      match Plan(s, maxLen)
      case Plain(e) => PlainKeeps(s, e);
      case Reopen(e, h) =>
        ReopenKeeps(s, u, e);
    }
  }

  /** Over any number of turns, every chunk of a shaped and balanced text is shaped and balanced,
      and so is the text still to be split. */
  lemma {:induction false} ChunksBalanced(s: string, maxLen: nat, n: nat)
    requires 9 <= maxLen && Shaped(s) && Balanced(s)
    ensures Shaped(After(s, maxLen, n)) && Balanced(After(s, maxLen, n))
    ensures forall c <- Chunks(s, maxLen, n) :: Shaped(c) && Balanced(c)
  {
    hide Next, Chunk, Plan, LastUnclosed, Fences;
    if n > 0 {
      ChunksBalanced(s, maxLen, n - 1);
      var t := After(s, maxLen, n - 1);
      BalancedIsEven(t);
      TurnKeepsGood(t, maxLen);
      BalancedIsEven(Chunk(t, Plan(t, maxLen)));
      BalancedIsEven(Next(t, maxLen));
    }
  }
}
