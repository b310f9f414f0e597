/** What one turn of the splitter decides, said of the text alone (pkg/utils/message.go:24-104). */
module SplitterDecision {
  import opened Text
  import opened Splitter
  import opened SplitterContent

  // ---------------------------------------------------------------- separators

  /** `p` is the last place in the final `window` characters before `hi` that holds one of `cs`; -1 if none does. */
  ghost predicate IsLast(s: string, hi: nat, window: nat, cs: set<char>, p: int)
    requires hi <= |s|
  {
    && (p == -1 || (0 <= p < hi && hi - window <= p && s[p] in cs))
    && forall k :: 0 <= k < hi && hi - window <= k && p < k ==> s[k] !in cs
  }

  /** `e` is where text is cut below `hi`: at the last newline of the final 200 characters; without one behind the
      start, at the last blank or tab of the final 100; only without that too, at `hi` itself. */
  ghost predicate IsNaturalCut(s: string, hi: nat, e: nat)
    requires hi <= |s|
  {
    exists n: int, b: int :: IsLast(s, hi, 200, {'\n'}, n) && IsLast(s, hi, 100, {' ', '\t'}, b) &&
                             e == if n > 0 then n else if b > 0 then b else hi
  }

  lemma LastOfIs(s: string, hi: nat, window: nat, cs: set<char>)
    requires hi <= |s|
    ensures IsLast(s, hi, window, cs, LastOf(s[..hi], window, cs))
  {
    var t := s[..hi];
    var r := LastOf(t, window, cs);
    forall k | 0 <= k < hi && hi - window <= k && r < k ensures s[k] !in cs {
      assert t[k] !in cs;
    }
  }

  lemma FirstCutIsNatural(s: string, hi: nat)
    requires 0 < hi <= |s|
    ensures IsNaturalCut(s, hi, FirstCut(s, hi))
  {
    LastOfIs(s, hi, 200, {'\n'});
    LastOfIs(s, hi, 100, {' ', '\t'});
  }

  /** A natural cut that is not at a separator has none to cut at. */
  lemma NaturalCutSeparates(s: string, hi: nat, e: nat)
    requires 0 < hi <= |s| && IsNaturalCut(s, hi, e)
    ensures 0 < e <= hi
    ensures e < hi ==> s[e] in {'\n', ' ', '\t'}
    ensures e == hi ==> forall k :: 0 < k < hi && hi - 100 <= k ==> s[k] !in {'\n', ' ', '\t'}
  {
    var n: int, b: int :| IsLast(s, hi, 200, {'\n'}, n) && IsLast(s, hi, 100, {' ', '\t'}, b) &&
                          e == if n > 0 then n else if b > 0 then b else hi;
    if e == hi {
      forall k | 0 < k < hi && hi - 100 <= k ensures s[k] !in {'\n', ' ', '\t'} {
        assert s[k] !in {'\n'} && s[k] !in {' ', '\t'};
      }
    }
  }

  // ---------------------------------------------------------------- the room for code blocks

  /** A tenth of the limit is kept free for code blocks, 50 characters at the least, but never more than half. */
  lemma RoomForBlocks(maxLen: nat)
    requires 5 <= maxLen
    ensures 500 <= maxLen ==> EffectiveLimit(maxLen) == maxLen - maxLen / 10
    ensures 100 <= maxLen < 500 ==> EffectiveLimit(maxLen) == maxLen - 50
    ensures maxLen < 100 ==> EffectiveLimit(maxLen) == maxLen - maxLen / 2
  {
  }

  // ---------------------------------------------------------------- fences

  /** `ps` are the fences met from left to right, each search starting behind the fence before. */
  ghost predicate AreFences(s: string, from: nat, ps: seq<nat>)
    decreases |ps|
  {
    if ps == [] then forall j :: from <= j ==> !FenceAt(s, j)
    else
      && from <= ps[0] && FenceAt(s, ps[0]) && (forall j :: from <= j < ps[0] ==> !FenceAt(s, j))
      && AreFences(s, ps[0] + 3, ps[1..])
  }

  /** The last of the fences, `open` before them, when it has no match; -1 when it has. */
  function Unmatched(ps: seq<nat>, open: int): int {
    if (|ps| % 2 == 0) == (open < 0) then -1 else if ps == [] then open else ps[|ps| - 1]
  }

  /** What the scanner says, for any text: the last of the fences when their number is odd, else -1. */
  lemma {:induction false} ScanReadsFences(s: string, from: nat, open: int) returns (ps: seq<nat>)
    requires -1 <= open
    ensures AreFences(s, from, ps)
    ensures Scan(s, from, open) == Unmatched(ps, open)
    decreases |s| - from
  {
    if from >= |s| {
      ps := [];
    } else if FenceAt(s, from) {
      var rest := ScanReadsFences(s, from + 3, if open < 0 then from else -1);
      ps := [from] + rest;
      assert ps[1..] == rest;
    } else {
      ps := ScanReadsFences(s, from + 1, open);
      if ps != [] {
        assert forall j :: from <= j < ps[0] ==> !FenceAt(s, j);
      }
    }
  }

  lemma {:induction false} FencesUnique(s: string, from: nat, ps: seq<nat>, qs: seq<nat>)
    requires AreFences(s, from, ps) && AreFences(s, from, qs)
    ensures ps == qs
    decreases |ps|
  {
    if ps != [] && qs != [] {
      assert ps[0] == qs[0];
      FencesUnique(s, ps[0] + 3, ps[1..], qs[1..]);
      assert ps == [ps[0]] + ps[1..] && qs == [qs[0]] + qs[1..];
    }
  }

  /** The block in which `s[..e]` ends begins at `u`; -1 when it ends in none. */
  ghost predicate IsOpenBlock(s: string, e: nat, u: int)
    requires e <= |s|
  {
    exists ps: seq<nat> :: AreFences(s[..e], 0, ps) && u == if |ps| % 2 == 0 then -1 else ps[|ps| - 1]
  }

  lemma LastUnclosedIsOpenBlock(s: string, e: nat)
    requires e <= |s|
    ensures IsOpenBlock(s, e, LastUnclosed(s[..e]))
    ensures forall u :: IsOpenBlock(s, e, u) ==> u == LastUnclosed(s[..e])
  {
    var ps := ScanReadsFences(s[..e], 0, -1);
    forall u | IsOpenBlock(s, e, u) ensures u == LastUnclosed(s[..e]) {
      var qs: seq<nat> :| AreFences(s[..e], 0, qs) && u == if |qs| % 2 == 0 then -1 else qs[|qs| - 1];
      FencesUnique(s[..e], 0, ps, qs);
    }
  }

  /** `j` is the first fence at or behind `e`; -1 when there is none. */
  ghost predicate IsNextFence(s: string, e: nat, j: int) {
    && (j == -1 || (e <= j && FenceAt(s, j)))
    && forall k :: e <= k && (j < 0 || k < j) ==> !FenceAt(s, k)
  }

  /** The line of the fence at `u` ends at `e`: at its newline, or behind the fence when none follows; `h` is that line
      without the whitespace at its end. */
  ghost predicate IsFirstLine(s: string, u: nat, e: nat, h: string) {
    && u + 3 <= e <= |s|
    && (forall j :: u <= j < e ==> s[j] != '\n')
    && ((e < |s| && s[e] == '\n') || (e == u + 3 && forall j :: u <= j < |s| ==> s[j] != '\n'))
    && 0 < |h| <= e - u && h == s[u..u + |h|] && h[|h| - 1] !in SPACES
    && forall j :: u + |h| <= j < e ==> s[j] in SPACES
  }

  lemma HeaderIsFirstLine(s: string, u: nat)
    requires FenceAt(s, u)
    ensures IsFirstLine(s, u, HeaderEnd(s, u), Header(s, u))
  {
    var e := HeaderEnd(s, u);
    var line := s[u..e];
    assert line[0] == '`';
    var a, b := TrimSpaceIsSlice(line);
    assert a == 0;
    SubSlice(s, u, e, 0, b);
    assert Header(s, u) == s[u..u + b];
    forall j | u + b <= j < e ensures s[j] in SPACES {
      assert line[j - u] in SPACES;
    }
  }

  // ---------------------------------------------------------------- the decision

  /** A block is open at `u` whose first line is `h` and ends at `e`, and no fence within the limit closes it. A cut
      more than 20 characters behind that line moves to the last newline of the final 200 characters that leave room
      for a closer, or to their end when that newline is not behind the line; the block is reopened. Else the text is
      cut in front of the block: at the last newline of the final 200 characters, else at the last blank or tab of the
      final 100, else, more than 20 characters in, at the fence. Else the block is cut where room for a closer begins,
      and reopened. */
  ghost predicate DecidesInBlock(s: string, maxLen: nat, first: nat, u: nat, e: nat, h: string, c: Cut)
    requires 5 <= maxLen < |s| && u <= |s|
  {
    exists x: int, n: int, b: int :: IsInBlockCut(s, maxLen, first, u, e, h, c, x, n, b)
  }

  ghost predicate IsInBlockCut(s: string, maxLen: nat, first: nat, u: nat, e: nat, h: string, c: Cut,
                               x: int, n: int, b: int)
    requires 5 <= maxLen < |s| && u <= |s|
  {
    && IsLast(s, maxLen - 5, 200, {'\n'}, x) && IsLast(s, u, 200, {'\n'}, n) && IsLast(s, u, 100, {' ', '\t'}, b)
    && if first > e + 20 then c == Reopen(if x > e then x else maxLen - 5, h)
       else if n > 0 then c == Plain(n)
       else if b > 0 then c == Plain(b)
       else if u > 20 then c == Plain(u)
       else c == Reopen(maxLen - 5, h)
  }

  lemma PlanDecidesInBlock(s: string, maxLen: nat, first: nat, u: nat)
    requires 5 <= maxLen < |s| && FenceAt(s, u)
    ensures DecidesInBlock(s, maxLen, first, u, HeaderEnd(s, u), Header(s, u), PlanInBlock(s, maxLen, first, u))
  {
    assert u <= |s|;
    hide Header, HeaderEnd, FenceAt, IsLast;
    LastOfIs(s, maxLen - 5, 200, {'\n'});
    LastOfIs(s, u, 200, {'\n'});
    LastOfIs(s, u, 100, {' ', '\t'});
    assert IsInBlockCut(s, maxLen, first, u, HeaderEnd(s, u), Header(s, u), PlanInBlock(s, maxLen, first, u),
                        LastOf(s[..maxLen - 5], 200, {'\n'}), LastOf(s[..u], 200, {'\n'}),
                        LastOf(s[..u], 100, {' ', '\t'}));
  }

  /** The natural cut lies below the limit less the room for blocks. */
  ghost predicate IsFirst(s: string, maxLen: nat, first: nat)
    requires 5 <= maxLen < |s|
  {
    var room := maxLen / 10;
    var room := if room < 50 then 50 else room;
    IsNaturalCut(s, maxLen - (if room > maxLen / 2 then maxLen / 2 else room), first)
  }

  lemma FirstCutIsFirst(s: string, maxLen: nat)
    requires 5 <= maxLen < |s|
    ensures IsFirst(s, maxLen, FirstCut(s, EffectiveLimit(maxLen)))
  {
    hide FirstCut, IsNaturalCut;
    FirstCutIsNatural(s, EffectiveLimit(maxLen));
  }

  /** The whole decision of a turn, for any text and any limit from 5 on: what fits is emitted whole; else one of the
      two predicates above says where the text is cut. */
  lemma PlanDecides(s: string, maxLen: nat) returns (first: nat, u: int, j: int, e: nat, h: string)
    requires 5 <= maxLen
    ensures |s| <= maxLen ==> Plan(s, maxLen) == Whole
    ensures maxLen < |s| ==>
              && first <= |s| && IsFirst(s, maxLen, first)
              && IsOpenBlock(s, first, u) && IsNextFence(s, first, j)
              && (u < 0 ==> Plan(s, maxLen) == Plain(first))
              && (0 <= u && 0 <= j && j + 3 <= maxLen ==> Plan(s, maxLen) == Plain(j + 3))
              && (0 <= u && !(0 <= j && j + 3 <= maxLen) ==>
                    IsFirstLine(s, u, e, h) && DecidesInBlock(s, maxLen, first, u, e, h, Plan(s, maxLen)))
  {
    hide IsFirst, IsOpenBlock, FirstCut, LastUnclosed, PlanInBlock, Header, HeaderEnd, DecidesInBlock, EffectiveLimit,
         Plan, FenceAt, NextFence, IsFirstLine;
    first, u, j, e, h := 0, -1, -1, 0, "";
    PlanCases(s, maxLen);
    if maxLen < |s| {
      first := FirstCut(s, EffectiveLimit(maxLen));
      FirstCutIsFirst(s, maxLen);
      LastUnclosedIsOpenBlock(s, first);
      u, j := LastUnclosed(s[..first]), NextFence(s, first);
      if 0 <= u {
        e, h := HeaderEnd(s, u), Header(s, u);
        HeaderIsFirstLine(s, u);
        PlanDecidesInBlock(s, maxLen, first, u);
      }
    }
  }

  lemma PlanCases(s: string, maxLen: nat)
    requires 5 <= maxLen
    ensures |s| <= maxLen ==> Plan(s, maxLen) == Whole
    ensures maxLen < |s| ==>
              var first := FirstCut(s, EffectiveLimit(maxLen));
              var u, j := LastUnclosed(s[..first]), NextFence(s, first);
              && (u < 0 ==> Plan(s, maxLen) == Plain(first))
              && (0 <= u ==>
                    && FenceAt(s, u)
                    && Plan(s, maxLen) == if 0 <= j && j + 3 <= maxLen then Plain(j + 3)
                                          else PlanInBlock(s, maxLen, first, u))
  {
    hide PlanInBlock, FirstCut, EffectiveLimit, LastUnclosed;
    if maxLen < |s| {
      UnclosedFence(s, FirstCut(s, EffectiveLimit(maxLen)));
    }
  }

  lemma UnclosedFence(s: string, e: nat)
    requires e <= |s|
    ensures var u := LastUnclosed(s[..e]); u == -1 || FenceAt(s, u)
  {
    UnclosedIsFence(s[..e], 0, -1);
  }

  // ---------------------------------------------------------------- what a turn emits and leaves

  /** `a` is `b` without the characters of `cs` at its end. */
  ghost predicate IsTrimmedEnd(a: string, b: string, cs: set<char>) {
    a <= b && (forall i :: |a| <= i < |b| ==> b[i] in cs) && (a != "" ==> a[|a| - 1] !in cs)
  }

  /** The chunk is the text up to the cut; inside a block it loses the whitespace at its end and gets a closing line.
      The rest is what follows the cut, behind the reopened first line if there is one, without whitespace around it. */
  lemma TurnEmits(s: string, maxLen: nat)
    requires 5 <= maxLen
    ensures var c, chunk, rest := Plan(s, maxLen), Chunk(s, Plan(s, maxLen)), Next(s, maxLen);
            && (c.Whole? ==> chunk == s && rest == "")
            && (c.Plain? ==> chunk == s[..c.end] && IsTrimmed(rest, s[c.end..]))
            && (c.Reopen? ==>
                  && (exists a :: IsTrimmedEnd(a, s[..c.end], {' ', '\t', '\n', '\r'}) && chunk == a + "\n```")
                  && IsTrimmed(rest, c.header + "\n" + s[c.end..]))
  {
    hide Plan, TrimSpace;
    var c := Plan(s, maxLen);
    if c.Plain? {
      TrimSpaceIsTrimmed(s[c.end..]);
    } else if c.Reopen? {
      TrimSpaceIsTrimmed(c.header + "\n" + s[c.end..]);
      var a := TrimRight(s[..c.end], CHUNK_TAIL);
      assert IsTrimmedEnd(a, s[..c.end], {' ', '\t', '\n', '\r'});
    }
  }

  /** Every chunk of text without fences but the last ends at a separator, or there is none to end at: it ends inside a
      word only when none of its final 100 characters, the first of the text apart, is a newline, a blank or a tab. */
  lemma ChunksEndAtSeparators(s: string, maxLen: nat, n: nat)
    requires 5 <= maxLen && FenceFree(s)
    ensures var t, cs := After(s, maxLen, n), Chunks(s, maxLen, n + 1);
            maxLen < |t| ==>
              && cs != [] && cs[|cs| - 1] <= t
              && var e := |cs[|cs| - 1]|;
                 && IsFirst(t, maxLen, e) && 0 < e
                 && (t[e] in {'\n', ' ', '\t'} || forall k :: 0 < k < e && e - 100 <= k ==> t[k] !in {'\n', ' ', '\t'})
  {
    hide IsNaturalCut, IsFirst, Plan, FirstCut, After, FenceFree, NonSpace, Concat, EffectiveLimit;
    FenceFreeContent(s, maxLen, n);
    var t := After(s, maxLen, n);
    if maxLen < |t| {
      FenceFreePlan(t, maxLen);
      FirstCutIsFirst(t, maxLen);
      var e := FirstCut(t, EffectiveLimit(maxLen));
      FirstCutIsNatural(t, EffectiveLimit(maxLen));
      NaturalCutSeparates(t, EffectiveLimit(maxLen), e);
      ChunkAppended(s, maxLen, n, e);
    }
  }

  lemma ChunkAppended(s: string, maxLen: nat, n: nat, e: nat)
    requires 5 <= maxLen && maxLen < |After(s, maxLen, n)| && Plan(After(s, maxLen, n), maxLen) == Plain(e)
    ensures Chunks(s, maxLen, n + 1) == Chunks(s, maxLen, n) + [After(s, maxLen, n)[..e]]
  {
    hide Plan, After;
  }
}
