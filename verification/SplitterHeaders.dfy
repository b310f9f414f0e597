/** What the splitter injects in front of a chunk: nothing, or the first line of the block the chunk continues
    (pkg/utils/message.go:58-80, 94-98). */
module SplitterHeaders {
  import opened Text
  import opened Splitter
  import opened SplitterFences
  import opened SplitterTermination
  import opened SplitterContent

  /** The injected characters are none, or the first line of the block of `s` that is open at `from`, with or
      without its newline. */
  ghost predicate IsHeaded(s: string, pre: string, from: nat) {
    pre == "" || exists i: nat :: LastFenceBefore(s, from, i) && (pre == Header(s, i) || pre == Header(s, i) + "\n")
  }

  // ---------------------------------------------------------------- the text still to be split

  /** The part `r` begins with the reopened first line of the block of `s` at `i`, which is open at the start of its
      original text. */
  ghost predicate Reopens(s: string, r: Part, t: string, i: nat) {
    && LastFenceBefore(s, r.from, i) && r.pre == Header(s, i) + "\n"
    && FenceAt(t, 0) && Header(t, 0) == Header(s, i)
    && forall k {:trigger FenceAt(t, k)} :: FenceAt(t, k) ==> k == 0 || |r.pre| <= k
  }

  /** `t` is the text of the part `r`: good, free of stuck blocks, and behind what was injected it has the fences
      of `s`. */
  ghost predicate Tracks(s: string, maxLen: nat, r: Part, t: string) {
    && Good(t) && (forall i: nat :: !Stuck(t, i, maxLen))
    && Mirrors(s, r.from, t, |r.pre|)
    && (r.pre == "" || exists i: nat :: Reopens(s, r, t, i))
  }

  lemma MirrorsCompose(s: string, a: nat, t: string, d: nat, b: nat, t': string, d': nat)
    requires Mirrors(s, a, t, d) && Mirrors(t, b, t', d') && d <= b
    ensures Mirrors(s, b - d + a, t', d')
  {
    hide FenceAt, Fences, Even;
    forall k: nat {:trigger Fences(t', k)} | d' <= k <= |t'|
      ensures Even(Fences(t', k)) == Even(Fences(s, k - d' + (b - d + a)))
    {
      assert Even(Fences(t, k - d' + b)) == Even(Fences(s, k - d' + b - d + a));
    }
    forall k {:trigger FenceAt(t', k)} | d' <= k ensures FenceAt(t', k) == FenceAt(s, k - d' + (b - d + a)) {
      assert FenceAt(t, k - d' + b) == FenceAt(s, k - d' + b - d + a);
    }
  }

  // ---------------------------------------------------------------- cutting between blocks

  /** A cut between blocks lies behind a reopened first line. */
  lemma PastHeader(t: string, d: nat, e: nat)
    requires FenceAt(t, 0) && forall k {:trigger FenceAt(t, k)} :: FenceAt(t, k) ==> k == 0 || d <= k
    requires 0 < e && Even(Fences(t, e))
    ensures d < e
  {
    assert Fences(t, 1) == Fences(t, 0) + 1;
    if e <= d {
      FencesFlat(t, 1, e);
    }
  }

  /** What a cut behind the injected characters leaves carries none of them. */
  lemma DropTrimmed(s: string, r: Part, e: nat)
    requires r.In(s) && |r.pre| <= e <= r.Len()
    ensures var q := r.Drop(e).Trimmed(s);
            q.pre == "" && q.from == r.from + e - |r.pre| + Skip(TrimRight(r.Of(s)[e..], SPACES), SPACES)
  {
    var x := r.Drop(e);
    DropOf(s, r, e);
    var k := Keep(x.Of(s), SPACES);
    TakeOf(s, x, k);
    assert x.pre == "";
  }

  lemma PlainTracks(s: string, maxLen: nat, r: Part, e: nat)
    requires r.In(s) && Tracks(s, maxLen, r, r.Of(s)) && 10 <= maxLen
    requires 0 < e <= r.Len() && Clean(r.Of(s), e) && Even(Fences(r.Of(s), e))
    ensures r.Take(e).pre == r.pre && r.Take(e).from == r.from
    ensures var q := r.Drop(e).Trimmed(s);
            q.pre == "" && Mirrors(s, q.from, TrimSpace(r.Of(s)[e..]), 0)
  {
    hide Part.Of, Part.Trimmed, TrimSpace, Header, Fences, Even, FenceAt, Clean, Good, Mirrors, Stuck;
    var t := r.Of(s);
    if r.pre != "" {
      var i: nat :| Reopens(s, r, t, i);
      PastHeader(t, |r.pre|, e);
    }
    var a, t' := PlainMirror(t, e);
    DropTrimmed(s, r, e);
    MirrorsCompose(s, r.from, t, |r.pre|, a, t', 0);
  }

  // ---------------------------------------------------------------- cutting inside a block

  /** The block a cut reopens, in the original text. */
  lemma ReopenedBlock(s: string, maxLen: nat, r: Part, t: string, u: nat, e: nat) returns (i: nat)
    requires 10 <= maxLen && Tracks(s, maxLen, r, t)
    requires FenceAt(t, u) && ReopenedAt(t, maxLen, u, e, Header(t, u))
    ensures |r.pre| < e && LastFenceBefore(s, r.from + e - |r.pre|, i) && Header(s, i) == Header(t, u)
  {
    hide Header, Fences, Even, FenceAt, Clean, Good;
    if r.pre == "" || |r.pre| <= u {
      i := u - |r.pre| + r.from;
      assert FenceAt(s, i) && Even(Fences(s, i));
      forall j | i < j < r.from + e - |r.pre| ensures !FenceAt(s, j) {
        assert !FenceAt(t, j - r.from + |r.pre|);
      }
      var k := LaterFence(t, u);
      HeaderShift(s, i, t, u);
    } else {
      i :| Reopens(s, r, t, i);
      HeaderNotLong(t, maxLen, e);
      forall j | i < j < r.from + e - |r.pre| ensures !FenceAt(s, j) {
        if r.from <= j {
          assert !FenceAt(t, j - r.from + |r.pre|);
        }
      }
    }
  }

  /** The block at the start is not stuck, so the cut lies behind its first line. */
  lemma HeaderNotLong(t: string, maxLen: nat, e: nat)
    requires FenceAt(t, 0) && ReopenedAt(t, maxLen, 0, e, Header(t, 0)) && !Stuck(t, 0, maxLen)
    ensures |Header(t, 0)| + 1 < e
  {
    hide Header;
    HeaderLength(t, 0);
  }

  /** Trimming does not touch a first line that is followed by anything. */
  lemma TrimKeepsPre(s: string, x: Part)
    requires x.In(s) && x.pre != "" && x.pre[0] !in SPACES && |x.pre| <= |TrimSpace(x.Of(s))|
    ensures x.Trimmed(s).pre == x.pre && x.Trimmed(s).from == x.from
  {
    var t := x.Of(s);
    assert t[0] == x.pre[0];
    var k := Keep(t, SPACES);
    TakeOf(s, x, k);
    assert k > 0 && t[..k][0] == t[0];
    assert Skip(t[..k], SPACES) == 0;
    assert TrimSpace(t) == t[..k][0..];
    assert x.Take(k).pre == x.pre && x.pre[0..] == x.pre;
  }

  /** Removing whitespace from the end of a chunk leaves of the injected characters at least the first line. */
  lemma ChunkKeepsHeader(s: string, r: Part, e: nat, h: string)
    requires r.In(s) && r.pre == h + "\n" && h != "" && h[|h| - 1] !in SPACES && |r.pre| <= e <= r.Len()
    ensures var k := Keep(r.Of(s)[..e], CHUNK_TAIL); r.Take(k).pre == h || r.Take(k).pre == r.pre
    ensures r.Take(Keep(r.Of(s)[..e], CHUNK_TAIL)).from == r.from
  {
    var p := r.Of(s)[..e];
    var k := Keep(p, CHUNK_TAIL);
    assert p[|h| - 1] == h[|h| - 1];
    assert k >= |h|;
    if k <= |r.pre| {
      assert r.pre[..k] == if k == |h| then h else r.pre;
    }
  }

  lemma ReopenTracks(s: string, maxLen: nat, r: Part, u: nat, e: nat)
    requires r.In(s) && Shaped(s) && Tracks(s, maxLen, r, r.Of(s)) && 10 <= maxLen && e <= r.Len()
    requires FenceAt(r.Of(s), u) && ReopenedAt(r.Of(s), maxLen, u, e, Header(r.Of(s), u))
    ensures var p := r.Take(Keep(r.Of(s)[..e], CHUNK_TAIL)); p.from == r.from && IsHeaded(s, p.pre, p.from)
    ensures var d, h, t := r.Drop(e), Header(r.Of(s), u), r.Of(s);
            var q := Part(h + "\n" + d.pre, d.from, d.to).Trimmed(s); var t' := TrimSpace(h + "\n" + t[e..]);
            Mirrors(s, q.from, t', |q.pre|) && exists i: nat :: Reopens(s, q, t', i)
  {
    hide Part.Of, Part.Trimmed, TrimSpace, Header, Fences, Even, FenceAt, Clean, Good, Mirrors, Stuck, Shaped, Keep;
    var t := r.Of(s);
    var i := ReopenedBlock(s, maxLen, r, t, u, e);
    var h := Header(t, u);
    var t' := ReopenedText(t, maxLen, u, e);
    HeaderShape(s, i);
    var d := r.Drop(e);
    DropOf(s, r, e);
    var x := Part(h + "\n" + d.pre, d.from, d.to);
    PartOf(s, d, h);
    MirrorsReach(t, e, t', |h| + 1);
    TrimKeepsPre(s, x);
    MirrorsCompose(s, r.from, t, |r.pre|, e, t', |h| + 1);
    var q := x.Trimmed(s);
    assert q.pre == h + "\n" && q.from == r.from + e - |r.pre|;
    assert Reopens(s, q, t', i);
    ChunkIsHeaded(s, r, t, e);
  }

  lemma PartOf(s: string, d: Part, h: string)
    requires d.In(s) && d.pre == ""
    ensures var x := Part(h + "\n" + d.pre, d.from, d.to); x.pre == h + "\n" && x.In(s) && x.Of(s) == h + "\n" + d.Of(s)
  {
    assert d.Of(s) == s[d.from..d.to];
  }

  lemma MirrorsReach(s: string, a: nat, t: string, d: nat)
    requires Mirrors(s, a, t, d)
    ensures d <= |t|
  {
  }

  lemma ChunkIsHeaded(s: string, r: Part, t: string, e: nat)
    requires r.In(s) && Shaped(s) && t == r.Of(s) && |r.pre| <= e <= r.Len()
    requires r.pre == "" || exists i: nat :: Reopens(s, r, t, i)
    ensures var p := r.Take(Keep(t[..e], CHUNK_TAIL)); p.from == r.from && IsHeaded(s, p.pre, p.from)
  {
    hide Part.Of, Header, Fences, Even, FenceAt, Shaped, Keep;
    if r.pre != "" {
      var i: nat :| Reopens(s, r, t, i);
      HeaderShape(s, i);
      ChunkKeepsHeader(s, r, e, Header(s, i));
    }
  }

  // ---------------------------------------------------------------- every turn, every chunk

  /** One turn: the chunk begins as it should, and so does what is left. */
  lemma TurnTracks(s: string, maxLen: nat, r: Part)
    requires r.In(s) && Shaped(s) && 10 <= maxLen && Tracks(s, maxLen, r, r.Of(s))
    ensures var c := Plan(r.Of(s), maxLen); var p, q := PieceOf(s, r, c).part, LeftOf(s, r, c);
            && IsHeaded(s, p.pre, p.from)
            && (Next(r.Of(s), maxLen) != "" ==> Tracks(s, maxLen, q, Next(r.Of(s), maxLen)))
  {
    hide Part.Of, Part.Trimmed, Part.Take, Part.Drop, TrimSpace, Header, Fences, Even, FenceAt, Clean, Good,
         Mirrors, Stuck,
         Shaped, Keep, Plan;
    var t := r.Of(s);
    TurnKeepsGood(t, maxLen);
    NextIsRest(t, maxLen);
    NoneStuck(t, maxLen);
    StartsHeaded(s, maxLen, r, t);
    GoodIsShaped(t);
    if |t| <= maxLen {
      WholeIsPlanned(t, maxLen);
    } else {
      var u := TurnShape(t, maxLen);
      match Plan(t, maxLen)
      case Plain(e) => PlainTracks(s, maxLen, r, e);
      case Reopen(e, h) => ReopenTracks(s, maxLen, r, u, e);
    }
  }

  lemma WholeIsPlanned(t: string, maxLen: nat)
    requires 5 <= maxLen && |t| <= maxLen
    ensures Plan(t, maxLen) == Whole && Next(t, maxLen) == ""
  {
  }

  lemma StartsHeaded(s: string, maxLen: nat, r: Part, t: string)
    requires Tracks(s, maxLen, r, t)
    ensures IsHeaded(s, r.pre, r.from)
  {
  }

  lemma NoneStuck(t: string, maxLen: nat)
    requires Good(t) && 10 <= maxLen && forall i: nat :: !Stuck(t, i, maxLen)
    ensures forall j: nat :: !Stuck(Next(t, maxLen), j, maxLen)
  {
    hide Good, Stuck, Next;
    forall j: nat ensures !Stuck(Next(t, maxLen), j, maxLen) {
      if Stuck(Next(t, maxLen), j, maxLen) {
        var i := StuckComesFrom(t, maxLen, j);
      }
    }
  }

  lemma StartTracks(s: string, maxLen: nat)
    requires Good(s) && forall i: nat :: !Stuck(s, i, maxLen)
    ensures Tracks(s, maxLen, Part("", 0, |s|), s)
  {
    hide FenceAt, Fences, Stuck, Good;
  }

  lemma {:induction false} LeftTracks(s: string, maxLen: nat, n: nat)
    requires 10 <= maxLen && Shaped(s) && Good(s) && forall i: nat :: !Stuck(s, i, maxLen)
    ensures var r := LeftAfter(s, maxLen, n); r.Of(s) == "" || Tracks(s, maxLen, r, r.Of(s))
  {
    hide Tracks, Next, Plan, Good, Shaped, Stuck, LeftOf, Part.Of;
    if n == 0 {
      StartTracks(s, maxLen);
      NothingYet(s);
    } else {
      LeftTracks(s, maxLen, n - 1);
      var r := LeftAfter(s, maxLen, n - 1);
      if r.Of(s) == "" {
        NextOfNothing(maxLen);
      } else {
        TurnTracks(s, maxLen, r);
      }
    }
  }

  ghost predicate AllHeaded(s: string, ps: seq<Piece>) {
    forall p <- ps :: IsHeaded(s, p.part.pre, p.part.from)
  }

  /** On shaped and balanced text without a stuck block, every chunk begins with original text, or with the first line
      of the very block its original text continues. */
  lemma ChunksHeaded(s: string, maxLen: nat, n: nat)
    requires 10 <= maxLen && Shaped(s) && Balanced(s) && forall i: nat :: !Stuck(s, i, maxLen)
    ensures AllHeaded(s, Pieces(s, maxLen, n))
  {
    BalancedIsEven(s);
    assert Good(s);
    hide *;
    PiecesHeaded(s, maxLen, n);
  }

  lemma {:induction false} PiecesHeaded(s: string, maxLen: nat, n: nat)
    requires 10 <= maxLen && Shaped(s) && Good(s) && forall i: nat :: !Stuck(s, i, maxLen)
    ensures AllHeaded(s, Pieces(s, maxLen, n))
  {
    hide Tracks, Next, Plan, Good, Shaped, Stuck, LeftAfter, LeftOf, PieceOf, IsHeaded, Part.Of, Part.In;
    if n > 0 {
      PiecesHeaded(s, maxLen, n - 1);
      LeftTracks(s, maxLen, n - 1);
      var r := LeftAfter(s, maxLen, n - 1);
      if r.Of(s) != "" {
        TurnTracks(s, maxLen, r);
      }
    }
  }
}
