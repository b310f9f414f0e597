/** What the chunks contain of the original text (pkg/utils/message.go:76-80, 94-98, 109-110). */
module SplitterContent {
  import opened Text
  import opened Splitter

  /** The text without its whitespace. */
  function NonSpace(s: string): string {
    if s == "" then "" else (if s[0] in SPACES then "" else [s[0]]) + NonSpace(s[1..])
  }

  lemma {:induction false} NonSpaceJoin(a: string, b: string)
    ensures NonSpace(a + b) == NonSpace(a) + NonSpace(b)
  {
    if a == "" {
      assert a + b == b;
    } else {
      NonSpaceJoin(a[1..], b);
      var c := a + b;
      assert c[0] == a[0] && c[1..] == a[1..] + b;
      Regroup(if a[0] in SPACES then "" else [a[0]], NonSpace(a[1..]), NonSpace(b));
    }
  }

  lemma {:induction false} NonSpaceOfSpaces(s: string)
    requires forall c <- s :: c in SPACES
    ensures NonSpace(s) == ""
  {
    if s != "" {
      NonSpaceOfSpaces(s[1..]);
    }
  }

  /** A text in the making: injected characters `pre`, then the original text from `from` up to `to`. */
  datatype Part = Part(pre: string, from: nat, to: nat) {
    ghost predicate In(s: string) {
      from <= to <= |s|
    }

    function Len(): nat
      requires from <= to
    {
      |pre| + to - from
    }

    /** The characters themselves. */
    function Of(s: string): (t: string)
      requires In(s)
      ensures |t| == Len()
    {
      pre + s[from..to]
    }

    /** The first `n` characters. */
    function Take(n: nat): Part
      requires from <= to && n <= Len()
    {
      if n <= |pre| then Part(pre[..n], from, from) else Part(pre, from, from + n - |pre|)
    }

    /** All but the first `n` characters. */
    function Drop(n: nat): Part
      requires from <= to && n <= Len()
    {
      if n <= |pre| then Part(pre[n..], from, to) else Part("", from + n - |pre|, to)
    }

    function Trimmed(s: string): Part
      requires In(s)
    {
      var r := Take(Keep(Of(s), SPACES));
      r.Drop(Skip(r.Of(s), SPACES))
    }
  }

  lemma TakeOf(s: string, r: Part, n: nat)
    requires r.In(s) && n <= r.Len()
    ensures r.Take(n).In(s) && r.Take(n).Of(s) == r.Of(s)[..n]
  {
    var body := s[r.from..r.to];
    if n <= |r.pre| {
      assert (r.pre + body)[..n] == r.pre[..n];
      assert s[r.from..r.from] == "";
    } else {
      var m := n - |r.pre|;
      assert (r.pre + body)[..n] == r.pre + body[..m];
      SubSlice(s, r.from, r.to, 0, m);
    }
  }

  lemma DropOf(s: string, r: Part, n: nat)
    requires r.In(s) && n <= r.Len()
    ensures r.Drop(n).In(s) && r.Drop(n).Of(s) == r.Of(s)[n..]
  {
    var body := s[r.from..r.to];
    if n <= |r.pre| {
      assert (r.pre + body)[n..] == r.pre[n..] + body;
    } else {
      var m := n - |r.pre|;
      assert (r.pre + body)[n..] == body[m..];
      SubSlice(s, r.from, r.to, m, |body|);
    }
  }

  lemma Adjacent(s: string, a: nat, b: nat, c: nat)
    requires a <= b <= c <= |s|
    ensures s[a..b] + s[b..c] == s[a..c]
  {
  }

  /** A chunk: a part, closed by an injected fence or not. */
  datatype Piece = Piece(part: Part, closed: bool) {
    function Of(s: string): string
      requires part.In(s)
    {
      part.Of(s) + if closed then CLOSER else ""
    }
  }

  /** The chunk cut `c` makes of the part `r`. */
  function PieceOf(s: string, r: Part, c: Cut): Piece
    requires r.In(s) && (!c.Whole? ==> c.end <= r.Len())
  {
    match c
    case Whole => Piece(r, false)
    case Plain(e) => Piece(r.Take(e), false)
    case Reopen(e, _) => Piece(r.Take(Keep(r.Of(s)[..e], CHUNK_TAIL)), true)
  }

  /** What cut `c` leaves of `r`; a reopened header and its newline are the only characters ever injected. */
  function LeftOf(s: string, r: Part, c: Cut): Part
    requires r.In(s) && (!c.Whole? ==> c.end <= r.Len())
  {
    match c
    case Whole => Part("", r.to, r.to)
    case Plain(e) => r.Drop(e).Trimmed(s)
    case Reopen(e, header) =>
      var d := r.Drop(e);
      Part(header + "\n" + d.pre, d.from, d.to).Trimmed(s)
  }

  /** Trimming a part trims its text; the original text it drops is whitespace. */
  lemma TrimmedOf(s: string, r: Part)
    requires r.In(s)
    ensures var t := r.Trimmed(s);
            && t.In(s) && t.Of(s) == TrimSpace(r.Of(s))
            && r.from <= t.from && t.to <= r.to
            && NonSpace(s[t.from..t.to]) == NonSpace(s[r.from..r.to])
  {
    var k := Keep(r.Of(s), SPACES);
    TakeOf(s, r, k);
    TakeKeepsContent(s, r, k);
    var q := r.Take(k);
    var n := Skip(q.Of(s), SPACES);
    DropOf(s, q, n);
    DropKeepsContent(s, q, n);
  }

  /** Dropping whitespace at the end loses no other original character. */
  lemma TakeKeepsContent(s: string, r: Part, n: nat)
    requires r.In(s) && n <= r.Len()
    requires forall i :: n <= i < r.Len() ==> r.Of(s)[i] in SPACES
    ensures var q := r.Take(n); NonSpace(s[q.from..q.to]) == NonSpace(s[r.from..r.to])
  {
    var q := r.Take(n);
    var lost := s[q.to..r.to];
    forall i | 0 <= i < |lost| ensures lost[i] in SPACES {
      assert lost[i] == r.Of(s)[|r.pre| + q.to - r.from + i];
    }
    NonSpaceOfSpaces(lost);
    NonSpaceJoin(s[q.from..q.to], lost);
    Adjacent(s, q.from, q.to, r.to);
  }

  lemma DropKeepsContent(s: string, r: Part, n: nat)
    requires r.In(s) && n <= r.Len()
    requires forall i :: 0 <= i < n ==> r.Of(s)[i] in SPACES
    ensures var q := r.Drop(n); NonSpace(s[q.from..q.to]) == NonSpace(s[r.from..r.to])
  {
    var q := r.Drop(n);
    var lost := s[r.from..q.from];
    forall i | 0 <= i < |lost| ensures lost[i] in SPACES {
      assert lost[i] == r.Of(s)[|r.pre| + i];
    }
    NonSpaceOfSpaces(lost);
    NonSpaceJoin(lost, s[q.from..q.to]);
    Adjacent(s, r.from, q.from, q.to);
  }

  /** Splitting a part splits its original text. */
  lemma SplitContent(s: string, r: Part, n: nat)
    requires r.In(s) && n <= r.Len()
    ensures var p, q := r.Take(n), r.Drop(n);
            && p.from == r.from && p.to == q.from && q.to == r.to
            && NonSpace(s[p.from..p.to]) + NonSpace(s[q.from..q.to]) == NonSpace(s[r.from..r.to])
  {
    var p, q := r.Take(n), r.Drop(n);
    NonSpaceJoin(s[p.from..p.to], s[q.from..q.to]);
    Adjacent(s, p.from, p.to, q.to);
  }

  /** `x` is a contiguous part of `y`. */
  ghost predicate IsStretch(x: string, y: string) {
    exists a: nat, b: nat :: a <= b <= |y| && x == y[a..b]
  }

  /** The injected characters a cut leaves in front of the rest: part of those that were there, behind the header and
      a newline when a block is reopened. */
  ghost predicate InjectedBy(before: string, c: Cut, after: string) {
    match c
    case Whole => after == ""
    case Plain(_) => IsStretch(after, before)
    case Reopen(_, h) => exists k: nat :: k <= |before| && IsStretch(after, h + "\n" + before[k..])
  }

  lemma TrimmedPre(s: string, r: Part)
    requires r.In(s)
    ensures IsStretch(r.Trimmed(s).pre, r.pre)
  {
    var t := r.Take(Keep(r.Of(s), SPACES));
    var n := Skip(t.Of(s), SPACES);
    var k := |t.pre|;
    assert t.pre == r.pre[..k];
    if n <= k {
      SubSlice(r.pre, 0, k, n, k);
      assert r.pre[0..k] == t.pre && t.pre[n..k] == t.pre[n..];
      assert t.Drop(n).pre == r.pre[n..k];
    } else {
      assert t.Drop(n).pre == r.pre[0..0];
    }
  }

  lemma StretchOfRest(x: string, y: string, n: nat)
    requires n <= |y| && IsStretch(x, y[n..])
    ensures IsStretch(x, y)
  {
    var a: nat, b: nat :| a <= b <= |y[n..]| && x == y[n..][a..b];
    SubSlice(y, n, |y|, a, b);
    assert y[n..|y|] == y[n..];
    assert x == y[n + a..n + b];
  }

  /** What one cut must do: the chunk and the rest are what the code computes, nothing is injected but headers and
      newlines, the chunk's original text comes first, and together they hold every character of `r` that is not
      whitespace. */
  ghost predicate CutKeeps(s: string, r: Part, c: Cut)
    requires r.In(s) && (!c.Whole? ==> c.end <= r.Len())
  {
    var p, q := PieceOf(s, r, c).part, LeftOf(s, r, c);
    && p.In(s) && q.In(s)
    && PieceOf(s, r, c).Of(s) == Chunk(r.Of(s), c)
    && q.Of(s) == Rest(r.Of(s), c)
    && p.pre <= r.pre && InjectedBy(r.pre, c, q.pre)
    && r.from <= p.from && p.to <= q.from && q.to <= r.to
    && NonSpace(s[p.from..p.to]) + NonSpace(s[q.from..q.to]) == NonSpace(s[r.from..r.to])
  }

  lemma PlainKeepsContent(s: string, r: Part, e: nat)
    requires r.In(s) && e <= r.Len()
    ensures CutKeeps(s, r, Plain(e))
  {
    hide NonSpace, Part.Of, Part.Trimmed, TrimSpace;
    TakeOf(s, r, e);
    DropOf(s, r, e);
    SplitContent(s, r, e);
    TrimmedOf(s, r.Drop(e));
    PlainInjects(s, r, e);
  }

  lemma PlainInjects(s: string, r: Part, e: nat)
    requires r.In(s) && e <= r.Len()
    ensures r.Take(e).pre <= r.pre && InjectedBy(r.pre, Plain(e), r.Drop(e).Trimmed(s).pre)
  {
    hide Part.Trimmed;
    var d := r.Drop(e);
    TrimmedPre(s, d);
    if e <= |r.pre| {
      StretchOfRest(d.Trimmed(s).pre, r.pre, e);
    } else {
      assert d.Trimmed(s).pre == r.pre[0..0];
    }
  }

  lemma ReopenKeepsContent(s: string, r: Part, e: nat, h: string)
    requires r.In(s) && e <= r.Len()
    ensures CutKeeps(s, r, Reopen(e, h))
  {
    hide NonSpace, Part.Trimmed, TrimSpace, Keep;
    var t := r.Of(s);
    TakeOf(s, r, e);
    var k := Keep(t[..e], CHUNK_TAIL);
    var p := r.Take(e);
    TakeOf(s, p, k);
    TakeKeepsContent(s, p, k);
    assert p.Take(k) == r.Take(k);
    DropOf(s, r, e);
    SplitContent(s, r, e);
    var d := r.Drop(e);
    var q := Part(h + "\n" + d.pre, d.from, d.to);
    assert q.Of(s) == h + "\n" + t[e..];
    TrimmedOf(s, q);
    ReopenInjects(s, r, e, h, k);
  }

  lemma ReopenInjects(s: string, r: Part, e: nat, h: string, k: nat)
    requires r.In(s) && e <= r.Len() && k <= e
    ensures var d := r.Drop(e); var q := Part(h + "\n" + d.pre, d.from, d.to);
            r.Take(k).pre <= r.pre && InjectedBy(r.pre, Reopen(e, h), q.Trimmed(s).pre)
  {
    hide Part.Trimmed, IsStretch;
    var d := r.Drop(e);
    TrimmedPre(s, Part(h + "\n" + d.pre, d.from, d.to));
    assert d.pre == r.pre[if e <= |r.pre| then e else |r.pre|..];
  }

  lemma TurnKeepsContent(s: string, r: Part, maxLen: nat)
    requires r.In(s) && 5 <= maxLen
    ensures CutKeeps(s, r, Plan(r.Of(s), maxLen))
  {
    hide Plan;
    match Plan(r.Of(s), maxLen)
    case Whole => assert s[r.to..r.to] == "";
    case Plain(e) => PlainKeepsContent(s, r, e);
    case Reopen(e, h) => ReopenKeepsContent(s, r, e, h);
  }

  /** The part of `s` still to be split after `n` turns. */
  function LeftAfter(s: string, maxLen: nat, n: nat): (r: Part)
    requires 5 <= maxLen
    ensures r.In(s) && r.Of(s) == After(s, maxLen, n)
  {
    hide Next, Plan;
    if n == 0 then Part("", 0, |s|)
    else
      var r := LeftAfter(s, maxLen, n - 1);
      TurnKeepsContent(s, r, maxLen);
      NextIsRest(r.Of(s), maxLen);
      LeftOf(s, r, Plan(r.Of(s), maxLen))
  }

  lemma NextIsRest(t: string, maxLen: nat)
    requires 5 <= maxLen
    ensures Next(t, maxLen) == Rest(t, Plan(t, maxLen))
  {
  }

  /** The chunks of the first `n` turns, with what each of them holds of `s`. */
  function Pieces(s: string, maxLen: nat, n: nat): seq<Piece>
    requires 5 <= maxLen
  {
    if n == 0 then []
    else
      var r := LeftAfter(s, maxLen, n - 1);
      Pieces(s, maxLen, n - 1) + (if r.Of(s) == "" then [] else [PieceOf(s, r, Plan(r.Of(s), maxLen))])
  }

  /** The original text in a list of pieces, one after the other. */
  function Body(s: string, ps: seq<Piece>): string
    requires forall k :: 0 <= k < |ps| ==> ps[k].part.In(s)
  {
    if ps == [] then ""
    else
      var p := ps[|ps| - 1].part;
      assert p.In(s);
      Body(s, ps[..|ps| - 1]) + s[p.from..p.to]
  }

  /** The pieces take disjoint stretches of `s`, from left to right, and the last ends at `end` or before. */
  ghost predicate InOrder(s: string, ps: seq<Piece>, end: nat) {
    && (forall k :: 0 <= k < |ps| ==> ps[k].part.In(s) && ps[k].part.to <= end)
    && (forall j, k :: 0 <= j < k < |ps| ==> ps[j].part.to <= ps[k].part.from)
  }

  /** After any number of turns the chunks are the pieces, taken from `s` in order, and pieces and rest
      together hold every character of `s` that is not whitespace exactly once. */
  lemma {:induction false} ContentKept(s: string, maxLen: nat, n: nat)
    requires 5 <= maxLen
    ensures var ps, cs, r := Pieces(s, maxLen, n), Chunks(s, maxLen, n), LeftAfter(s, maxLen, n);
            && InOrder(s, ps, r.from)
            && |ps| == |cs| && (forall k :: 0 <= k < |ps| ==> ps[k].Of(s) == cs[k])
            && NonSpace(Body(s, ps)) + NonSpace(s[r.from..r.to]) == NonSpace(s)
  {
    hide Next, Plan, Chunk, NonSpace, PieceOf, LeftOf, Body, InOrder, Part.Of;
    if n == 0 {
      NothingYet(s);
    } else {
      ContentKept(s, maxLen, n - 1);
      var q, r := LeftAfter(s, maxLen, n - 1), LeftAfter(s, maxLen, n);
      var ps := Pieces(s, maxLen, n - 1);
      var c := Plan(q.Of(s), maxLen);
      TurnKeepsContent(s, q, maxLen);
      if q.Of(s) == "" {
        EmptyPart(s, ps, q, r);
        assert Pieces(s, maxLen, n) == ps;
      } else {
        ExtendPieces(s, ps, PieceOf(s, q, c), q, r);
      }
    }
  }

  /** One more piece, cut off from the front of `q` so that `r` is left. */
  lemma ExtendPieces(s: string, ps: seq<Piece>, p: Piece, q: Part, r: Part)
    requires q.In(s) && r.In(s) && p.part.In(s) && InOrder(s, ps, q.from)
    requires q.from <= p.part.from && p.part.to <= r.from
    requires NonSpace(Body(s, ps)) + NonSpace(s[q.from..q.to]) == NonSpace(s)
    requires NonSpace(s[p.part.from..p.part.to]) + NonSpace(s[r.from..r.to]) == NonSpace(s[q.from..q.to])
    ensures InOrder(s, ps + [p], r.from)
    ensures NonSpace(Body(s, ps + [p])) + NonSpace(s[r.from..r.to]) == NonSpace(s)
  {
    hide NonSpace;
    var x, y, z := Body(s, ps), s[p.part.from..p.part.to], s[r.from..r.to];
    assert (ps + [p])[..|ps|] == ps;
    NonSpaceJoin(x, y);
    Regroup(NonSpace(x), NonSpace(y), NonSpace(z));
  }

  lemma Regroup(a: string, b: string, c: string)
    ensures (a + b) + c == a + (b + c)
  {
  }

  lemma NothingYet(s: string)
    ensures Part("", 0, |s|).Of(s) == s && InOrder(s, [], 0)
    ensures NonSpace(Body(s, [])) + NonSpace(s[0..|s|]) == NonSpace(s) && NonSpace("") == ""
  {
    assert s[0..|s|] == s;
  }

  lemma EmptyPart(s: string, ps: seq<Piece>, q: Part, r: Part)
    requires q.In(s) && r.In(s) && q.Of(s) == "" && q.from <= r.from && r.to <= q.to && InOrder(s, ps, q.from)
    ensures s[r.from..r.to] == s[q.from..q.to] == "" && InOrder(s, ps, r.from)
  {
  }

  /** When the splitter is done, the chunks hold every character of `s` that is not whitespace, in order. */
  lemma AllContentKept(s: string, maxLen: nat, n: nat)
    requires 5 <= maxLen && After(s, maxLen, n) == ""
    ensures var ps, cs := Pieces(s, maxLen, n), Chunks(s, maxLen, n);
            && |ps| == |cs| && (forall k :: 0 <= k < |ps| ==> ps[k].part.In(s) && ps[k].Of(s) == cs[k])
            && InOrder(s, ps, |s|) && NonSpace(Body(s, ps)) == NonSpace(s)
  {
    hide Next, Plan, Chunk;
    ContentKept(s, maxLen, n);
    var r := LeftAfter(s, maxLen, n);
    assert s[r.from..r.to] == "";
  }

  // ---------------------------------------------------------------- text without fences

  ghost predicate FenceFree(s: string) {
    forall i :: !FenceAt(s, i)
  }

  function Concat(cs: seq<string>): string {
    if cs == [] then "" else Concat(cs[..|cs| - 1]) + cs[|cs| - 1]
  }

  lemma TrimKeepsContent(s: string)
    ensures NonSpace(TrimSpace(s)) == NonSpace(s)
  {
    var a, b := TrimSpaceIsSlice(s);
    NonSpaceOfSpaces(s[..a]);
    NonSpaceOfSpaces(s[b..]);
    NonSpaceJoin(s[..a], s[a..b]);
    NonSpaceJoin(s[..b], s[b..]);
    assert s[..a] + s[a..b] == s[..b] && s[..b] + s[b..] == s;
  }

  lemma TrimStaysFenceFree(s: string, e: nat)
    requires FenceFree(s) && e <= |s|
    ensures FenceFree(TrimSpace(s[e..]))
  {
    var a, b := TrimSpaceIsSlice(s[e..]);
    var t := TrimSpace(s[e..]);
    forall i ensures !FenceAt(t, i) {
      assert !FenceAt(s, i + a + e);
    }
  }

  /** A text without fences is only ever cut and trimmed. */
  lemma FenceFreeTurn(s: string, maxLen: nat)
    requires 5 <= maxLen && FenceFree(s)
    ensures var c := Plan(s, maxLen);
            && !c.Reopen? && FenceFree(Next(s, maxLen))
            && NonSpace(Chunk(s, c)) + NonSpace(Next(s, maxLen)) == NonSpace(s)
  {
    if |s| > maxLen {
      var e := FirstCut(s, EffectiveLimit(maxLen));
      FenceFreePlan(s, maxLen);
      TrimKeepsContent(s[e..]);
      TrimStaysFenceFree(s, e);
      NonSpaceJoin(s[..e], s[e..]);
      assert s[..e] + s[e..] == s;
    }
  }

  lemma FenceFreePlan(s: string, maxLen: nat)
    requires 5 <= maxLen < |s| && FenceFree(s)
    ensures Plan(s, maxLen) == Plain(FirstCut(s, EffectiveLimit(maxLen)))
  {
    var p := s[..FirstCut(s, EffectiveLimit(maxLen))];
    UnclosedIsFence(p, 0, -1);
    var u := LastUnclosed(p);
    assert u == -1 || FenceAt(s, u);
  }

  /** Without fences in the text, the concatenated chunks are the text up to whitespace. */
  lemma {:induction false} FenceFreeContent(s: string, maxLen: nat, n: nat)
    requires 5 <= maxLen && FenceFree(s)
    ensures FenceFree(After(s, maxLen, n))
    ensures NonSpace(Concat(Chunks(s, maxLen, n))) + NonSpace(After(s, maxLen, n)) == NonSpace(s)
  {
    hide Next, Plan, Chunk, NonSpace, FenceFree;
    if n == 0 {
      NothingYet(s);
    } else {
      FenceFreeContent(s, maxLen, n - 1);
      var t := After(s, maxLen, n - 1);
      FenceFreeTurn(t, maxLen);
      var cs := Chunks(s, maxLen, n - 1);
      if t == "" {
        NextOfNothing(maxLen);
        assert Chunks(s, maxLen, n) == cs;
      } else {
        var c := Chunk(t, Plan(t, maxLen));
        assert Chunks(s, maxLen, n) == cs + [c];
        assert (cs + [c])[..|cs|] == cs;
        NonSpaceJoin(Concat(cs), c);
      }
    }
  }

  lemma NextOfNothing(maxLen: nat)
    requires 5 <= maxLen
    ensures Next("", maxLen) == ""
  {
  }
}
