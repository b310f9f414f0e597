/** Which limits keep code fences balanced (pkg/utils/message.go:12-114). */
module SplitterLimits {
  import opened Text
  import opened Splitter
  import opened SplitterFences

  /** A block behind an empty line. */
  const SMALL := "\n```\nb\n```"

  lemma SmallIsGood()
    ensures |SMALL| == 10 && Shaped(SMALL) && Balanced(SMALL) && FenceAt(SMALL, 1) && FenceAt(SMALL, 7)
    ensures forall i :: FenceAt(SMALL, i) ==> i == 1 || i == 7
  {
    var s := SMALL;
    assert |s| == 10 && s[0] == s[4] == s[6] == '\n' && s[5] == 'b';
    assert s[1] == s[2] == s[3] == s[7] == s[8] == s[9] == '`';
    FencesFlat(s, 2, 7);
    FencesFlat(s, 8, 10);
    assert Fences(s, 1) == 0 && Fences(s, 2) == 1;
    hide Fences;
    BalancedIsEven(s);
  }

  /** Text with one fence only is not balanced. */
  lemma OneFence(s: string, u: nat)
    requires FenceAt(s, u) && forall i :: FenceAt(s, i) ==> i == u
    ensures !Balanced(s)
  {
    ScanOne(s, 0, u);
  }

  lemma {:induction false} ScanOne(s: string, i: nat, u: nat)
    requires i <= u && FenceAt(s, u) && forall j :: FenceAt(s, j) ==> j == u
    ensures Scan(s, i, -1) == u
    decreases u - i
  {
    if i == u {
      ScanNone(s, u + 3, u);
    } else {
      ScanOne(s, i + 1, u);
    }
  }

  lemma {:induction false} ScanNone(s: string, i: nat, open: int)
    requires forall j :: i <= j ==> !FenceAt(s, j)
    ensures Scan(s, i, open) == open
    decreases |s| - i
  {
    if i < |s| {
      ScanNone(s, i + 1, open);
    }
  }

  ghost predicate AllBalanced(cs: seq<string>) {
    forall k :: 0 <= k < |cs| ==> Balanced(cs[k])
  }

  lemma SmallEffectiveLimit(maxLen: nat)
    requires 5 <= maxLen <= 8
    ensures EffectiveLimit(maxLen) == if maxLen <= 6 then 3 else 4
  {
  }

  lemma FirstCutWithout(s: string, limit: nat)
    requires 0 < limit <= |s| && forall i :: 1 <= i < limit ==> s[i] !in NEWLINE && s[i] !in BLANK
    requires s[0] !in BLANK
    ensures FirstCut(s, limit) == limit
  {
    assert LastOf(s[..limit], 200, NEWLINE) <= 0;
    assert LastOf(s[..limit], 100, BLANK) <= 0;
  }

  /** At 7 and 8 the block is cut inside its opening fence, and closed. */
  lemma SmallReopens(maxLen: nat)
    requires 7 <= maxLen <= 8
    ensures Plan(SMALL, maxLen).Reopen? && Plan(SMALL, maxLen).end == maxLen - 5
  {
    var s := SMALL;
    SmallIsGood();
    SmallEffectiveLimit(maxLen);
    assert s[0] == s[4] == '\n' && s[1] == s[2] == s[3] == '`';
    FirstCutWithout(s, 4);
    UnclosedBefore(s, 4);
    FencesFlat(s, 2, 4);
    hide FenceAt, Fences, Header, Shaped, Balanced, FirstCut;
    SmallHeaderEnd();
    assert Fences(s, 2) == Fences(s, 1) + 1 && Fences(s, 1) == Fences(s, 0) by {
      SmallCount();
    }
    assert LastUnclosed(s[..4]) == 1;
    assert NextClosing(s, 4) == 10;
    assert CutBefore(s, 1) <= 0 by {
      assert s[..1][0] == '\n';
    }
  }

  lemma SmallCount()
    ensures Fences(SMALL, 0) == 0 && Fences(SMALL, 1) == 0 && Fences(SMALL, 2) == 1
  {
    var s := SMALL;
    assert s[0] == '\n' && s[1] == s[2] == s[3] == '`';
  }

  lemma SmallHeaderEnd()
    ensures FenceAt(SMALL, 1) && HeaderEnd(SMALL, 1) == 4
  {
    SmallIsGood();
    var s := SMALL;
    assert s[1] == s[2] == s[3] == '`' && s[4] == '\n';
    assert NextNewline(s, 1) == 4;
  }

  lemma SmallChunk(maxLen: nat)
    requires 7 <= maxLen <= 8
    ensures !Balanced(TrimRight(SMALL[..maxLen - 5], CHUNK_TAIL) + CLOSER)
  {
    var p := SMALL[..maxLen - 5];
    assert |p| == maxLen - 5 && p[0] == '\n' && p[1] == '`' && p[|p| - 1] == '`';
    assert Keep(p, CHUNK_TAIL) == |p|;
    var c := TrimRight(p, CHUNK_TAIL) + CLOSER;
    assert c == p + CLOSER;
    var d := |p| + 1;
    assert |c| == d + 3 && c[d - 1] == '\n' && c[d] == c[d + 1] == c[d + 2] == '`';
    OneFence(c, d);
  }

  /** At 5 and 6 the opening fence is cut apart, and the closing one is left alone. */
  lemma SmallFirst(maxLen: nat)
    requires 5 <= maxLen <= 6
    ensures Next(SMALL, maxLen) == "`\nb\n```"
  {
    var s := SMALL;
    SmallIsGood();
    SmallEffectiveLimit(maxLen);
    assert s[0] == '\n' && s[1] == s[2] == '`';
    FirstCutWithout(s, 3);
    var p := s[..3];
    assert forall i :: !FenceAt(p, i);
    ScanNone(p, 0, -1);
    assert s[3..] == "`\nb\n```";
    TrimSpaceFixpoint("`\nb\n```");
  }

  lemma SmallSecond(maxLen: nat)
    requires 5 <= maxLen <= 6
    ensures Next("`\nb\n```", maxLen) == "b\n```"
  {
    var s := "`\nb\n```";
    SmallEffectiveLimit(maxLen);
    assert |s| == 7 && s[1] == '\n' && s[2] == 'b';
    var w := s[..3];
    assert w[1] == '\n' && w[2] == 'b';
    assert LastOf(w, 200, NEWLINE) == 1;
    var p := s[..1];
    ScanNone(p, 0, -1);
    var rest := s[1..];
    assert rest == "\nb\n```";
    TrimmedSmall();
  }

  lemma TrimmedSmall()
    ensures TrimSpace("\nb\n```") == "b\n```"
  {
    var s := "\nb\n```";
    assert |s| == 6 && s[0] == '\n' && s[1] == 'b' && s[5] == '`';
    assert Keep(s, SPACES) == 6 && s[..6] == s;
    assert Skip(s, SPACES) == 1;
    assert s[1..] == "b\n```";
  }

  lemma SmallThird()
    ensures !Balanced("b\n```")
  {
    var s := "b\n```";
    assert |s| == 5 && s[0] == 'b' && s[1] == '\n' && s[2] == s[3] == s[4] == '`';
    OneFence(s, 2);
  }

  /** For every limit from 5 to 8 that text, shaped and balanced, is split into chunks that are not all balanced. */
  lemma SmallLimitUnbalanced(maxLen: nat) returns (n: nat)
    requires 5 <= maxLen <= 8
    ensures Shaped(SMALL) && Balanced(SMALL) && !AllBalanced(Chunks(SMALL, maxLen, n))
  {
    SmallIsGood();
    hide Plan, Balanced, Shaped, Next;
    if maxLen <= 6 {
      n := 3;
      SmallFirst(maxLen);
      SmallSecond(maxLen);
      SmallThird();
      var t := "b\n```";
      ThirdChunk(SMALL, maxLen, t);
      assert Plan(t, maxLen) == Whole by {
        ShortIsWhole(t, maxLen);
      }
      var cs := Chunks(SMALL, maxLen, 3);
      assert cs[|cs| - 1] == t;
    } else {
      n := 1;
      SmallReopens(maxLen);
      SmallChunk(maxLen);
      FirstChunk(SMALL, maxLen);
      var cs := Chunks(SMALL, maxLen, 1);
      assert !Balanced(cs[0]);
    }
  }

  lemma ShortIsWhole(t: string, maxLen: nat)
    requires 5 <= maxLen && |t| <= maxLen
    ensures Plan(t, maxLen) == Whole
  {
  }

  lemma FirstChunk(s: string, maxLen: nat)
    requires 5 <= maxLen && s != ""
    ensures Chunks(s, maxLen, 1) == [Chunk(s, Plan(s, maxLen))]
  {
    assert After(s, maxLen, 0) == s && Chunks(s, maxLen, 0) == [];
  }

  lemma ThirdChunk(s: string, maxLen: nat, t: string)
    requires 5 <= maxLen && Next(Next(s, maxLen), maxLen) == t != ""
    ensures var cs := Chunks(s, maxLen, 3); cs != [] && cs[|cs| - 1] == Chunk(t, Plan(t, maxLen))
  {
    assert After(s, maxLen, 0) == s;
    assert After(s, maxLen, 1) == Next(s, maxLen);
    assert After(s, maxLen, 2) == t;
  }

  ghost predicate KeepsBalance(s: string, maxLen: nat, n: nat)
    requires 5 <= maxLen
  {
    Shaped(s) && Balanced(s) ==> AllBalanced(Chunks(s, maxLen, n))
  }

  /** The limits that keep all shaped and balanced texts balanced are exactly those from 9 on. */
  lemma BalanceExactly(maxLen: nat)
    requires 5 <= maxLen
    ensures (forall s: string, n: nat :: KeepsBalance(s, maxLen, n)) <==> 9 <= maxLen
  {
    hide Shaped, Balanced, Chunks;
    if 9 <= maxLen {
      forall s: string, n: nat ensures KeepsBalance(s, maxLen, n) {
        if Shaped(s) && Balanced(s) {
          ChunksBalanced(s, maxLen, n);
          assert forall k :: 0 <= k < |Chunks(s, maxLen, n)| ==> Chunks(s, maxLen, n)[k] in Chunks(s, maxLen, n);
        }
      }
    } else {
      var n := SmallLimitUnbalanced(maxLen);
      assert !KeepsBalance(SMALL, maxLen, n);
    }
  }
}
