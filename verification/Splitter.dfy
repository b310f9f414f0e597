/** `SplitMessage` and its four scanners (pkg/utils/message.go). */
module Splitter {
  import opened Text

  const FENCE := "```"
  const CLOSER := "\n```"
  const NEWLINE: set<char> := {'\n'}
  const BLANK: set<char> := {' ', '\t'}
  const CHUNK_TAIL: set<char> := {' ', '\t', '\n', '\r'}

  predicate FenceAt(s: string, i: int) {
    0 <= i && i + 2 < |s| && s[i] == '`' && s[i + 1] == '`' && s[i + 2] == '`'
  }

  // ---------------------------------------------------------------- scanners

  /** The last position in the final `window` characters of `s` that holds a character of `cs`, or -1. */
  function LastOf(s: string, window: nat, cs: set<char>): (r: int)
    ensures r == -1 || (0 <= r < |s| && |s| - window <= r && s[r] in cs)
    ensures forall k :: 0 <= k < |s| && r < k && |s| - window <= k ==> s[k] !in cs
  {
    if s == [] || window == 0 then -1
    else if s[|s| - 1] in cs then |s| - 1
    else LastOf(s[..|s| - 1], window - 1, cs)
  }

  /** The scanner's verdict on the rest of `s` when it stands at `i` with `open` the fence it is inside of, or -1. */
  function Scan(s: string, i: nat, open: int): int
    decreases |s| - i
  {
    if i >= |s| then open
    else if FenceAt(s, i) then Scan(s, i + 3, if open < 0 then i else -1)
    else Scan(s, i + 1, open)
  }

  function LastUnclosed(s: string): int {
    Scan(s, 0, -1)
  }

  /** No unfinished code block, as the code itself sees it. */
  predicate Balanced(s: string) {
    LastUnclosed(s) == -1
  }

  /** The first fence at or after `i`, or -1. */
  function NextFence(s: string, i: nat): (r: int)
    ensures r == -1 || (i <= r && FenceAt(s, r))
    ensures forall j :: i <= j && (r < 0 || j < r) ==> !FenceAt(s, j)
    decreases |s| - i
  {
    if i >= |s| then -1 else if FenceAt(s, i) then i else NextFence(s, i + 1)
  }

  function NextClosing(s: string, i: nat): int {
    var j := NextFence(s, i);
    if j < 0 then -1 else j + 3
  }

  /** The first newline at or after `i`, or -1. */
  function NextNewline(s: string, i: nat): (r: int)
    ensures r == -1 || (i <= r < |s| && s[r] == '\n')
    ensures forall j :: i <= j < |s| && (r < 0 || j < r) ==> s[j] != '\n'
    decreases |s| - i
  {
    if i >= |s| then -1 else if s[i] == '\n' then i else NextNewline(s, i + 1)
  }

  method FindLastUnclosedCodeBlock(text: string) returns (r: int)
    ensures r == LastUnclosed(text)
  {
    var inCodeBlock, lastOpenIdx := false, -1;
    var i := 0;
    while i < |text|
      invariant 0 <= i && (inCodeBlock ==> 0 <= lastOpenIdx)
      invariant LastUnclosed(text) == Scan(text, i, if inCodeBlock then lastOpenIdx else -1)
    {
      if i + 2 < |text| && text[i] == '`' && text[i + 1] == '`' && text[i + 2] == '`' {
        if !inCodeBlock {
          lastOpenIdx := i;
        }
        inCodeBlock := !inCodeBlock;
        i := i + 2;
      }
      i := i + 1;
    }
    return if inCodeBlock then lastOpenIdx else -1;
  }

  method FindNextClosingCodeBlock(text: string, startIdx: nat) returns (r: int)
    ensures r == NextClosing(text, startIdx)
  {
    var i := startIdx;
    while i < |text|
      invariant startIdx <= i
      invariant NextFence(text, startIdx) == NextFence(text, i)
    {
      if i + 2 < |text| && text[i] == '`' && text[i + 1] == '`' && text[i + 2] == '`' {
        return i + 3;
      }
      i := i + 1;
    }
    return -1;
  }

  method FindLastNewline(s: string, searchWindow: nat) returns (r: int)
    ensures r == LastOf(s, searchWindow, NEWLINE)
  {
    var searchStart := |s| - searchWindow;
    if searchStart < 0 {
      searchStart := 0;
    }
    var i := |s| - 1;
    while i >= searchStart
      invariant searchStart - 1 <= i < |s|
      invariant forall k :: i < k < |s| ==> s[k] !in NEWLINE
    {
      if s[i] == '\n' {
        return i;
      }
      i := i - 1;
    }
    return -1;
  }

  method FindLastSpace(s: string, searchWindow: nat) returns (r: int)
    ensures r == LastOf(s, searchWindow, BLANK)
  {
    var searchStart := |s| - searchWindow;
    if searchStart < 0 {
      searchStart := 0;
    }
    var i := |s| - 1;
    while i >= searchStart
      invariant searchStart - 1 <= i < |s|
      invariant forall k :: i < k < |s| ==> s[k] !in BLANK
    {
      if s[i] == ' ' || s[i] == '\t' {
        return i;
      }
      i := i - 1;
    }
    return -1;
  }

  // ---------------------------------------------------------------- one turn of the loop

  /** What one turn of the loop does: emit everything, cut at `end`, or cut at `end` inside a code block
      and open it again with `header`. */
  datatype Cut = Whole | Plain(end: nat) | Reopen(end: nat, header: string)

  /** Where the unbuffered part of a chunk ends; it never lies below maxLen/2, since the buffer is at most that. */
  function EffectiveLimit(maxLen: nat): (r: nat)
    ensures 10 <= maxLen ==> r <= maxLen - 5
    ensures 9 <= maxLen ==> 5 <= r
    ensures maxLen == 9 ==> r == 5
    ensures 5 <= maxLen ==> 2 < r <= maxLen
  {
    var b := maxLen / 10;
    var b := if b < 50 then 50 else b;
    maxLen - (if b > maxLen / 2 then maxLen / 2 else b)
  }

  /** The natural split point below `limit`. */
  function FirstCut(s: string, limit: nat): (r: nat)
    requires 0 < limit <= |s|
    ensures 0 < r <= limit
  {
    var n := LastOf(s[..limit], 200, NEWLINE);
    if n > 0 then n
    else
      var b := LastOf(s[..limit], 100, BLANK);
      if b > 0 then b else limit
  }

  /** Where the line of the fence at `u` ends; just behind the fence when no newline follows. */
  function HeaderEnd(s: string, u: nat): (h: nat)
    requires FenceAt(s, u)
    ensures u + 3 <= h <= |s|
    ensures forall j :: u <= j < h ==> s[j] != '\n'
  {
    var n := NextNewline(s, u);
    if n < 0 then u + 3 else n
  }

  function Header(s: string, u: nat): string
    requires FenceAt(s, u)
  {
    TrimSpace(s[u..HeaderEnd(s, u)])
  }

  /** The split point inside a block whose header line ends at `h`. */
  function InnerCut(s: string, h: nat, maxLen: nat): nat
    requires 5 <= maxLen < |s|
  {
    var n := LastOf(s[..maxLen - 5], 200, NEWLINE);
    if n > h then n else maxLen - 5
  }

  /** A split point before the fence at `u`. */
  function CutBefore(s: string, u: nat): int
    requires u <= |s|
  {
    var n := LastOf(s[..u], 200, NEWLINE);
    if n > 0 then n else LastOf(s[..u], 100, BLANK)
  }

  lemma UnclosedIsFence(s: string, i: nat, open: int)
    requires open == -1 || FenceAt(s, open)
    ensures var r := Scan(s, i, open); r == -1 || FenceAt(s, r)
    decreases |s| - i
  {
  }

  function Plan(s: string, maxLen: nat): (c: Cut)
    requires 5 <= maxLen
    ensures c.Plain? ==> 0 < c.end <= |s|
    ensures c.Reopen? ==> c.end <= |s|
  {
    if |s| <= maxLen then Whole
    else
      var first := FirstCut(s, EffectiveLimit(maxLen));
      var u := LastUnclosed(s[..first]);
      if u < 0 then Plain(first)
      else
        UnclosedIsFence(s[..first], 0, -1);
        var c := NextClosing(s, first);
        if 0 < c <= maxLen then Plain(c) else PlanInBlock(s, maxLen, first, u)
  }

  /** The cut when the block opened at `u` stays open and its closing fence is out of reach. */
  function PlanInBlock(s: string, maxLen: nat, first: nat, u: nat): (c: Cut)
    requires 5 <= maxLen < |s|
    requires FenceAt(s, u)
    ensures c.Plain? ==> 0 < c.end <= |s|
    ensures c.Reopen? ==> c.end <= |s|
  {
    var h := HeaderEnd(s, u);
    if first > h + 20 then Reopen(InnerCut(s, h, maxLen), Header(s, u))
    else
      var e := CutBefore(s, u);
      if e > 0 then Plain(e)
      else if u > 20 then Plain(u)
      else Reopen(maxLen - 5, Header(s, u))
  }

  /** The chunk a cut emits. */
  function Chunk(s: string, c: Cut): string
    requires !c.Whole? ==> c.end <= |s|
  {
    match c
    case Whole => s
    case Plain(e) => s[..e]
    case Reopen(e, _) => TrimRight(s[..e], CHUNK_TAIL) + CLOSER
  }

  /** The text a cut leaves for the next turn. */
  function Rest(s: string, c: Cut): string
    requires !c.Whole? ==> c.end <= |s|
  {
    match c
    case Whole => ""
    case Plain(e) => TrimSpace(s[e..])
    case Reopen(e, header) => TrimSpace(header + "\n" + s[e..])
  }

  function Next(s: string, maxLen: nat): string
    requires 5 <= maxLen
  {
    Rest(s, Plan(s, maxLen))
  }

  /** The text left after `n` turns. */
  function After(s: string, maxLen: nat, n: nat): string
    requires 5 <= maxLen
  {
    if n == 0 then s else Next(After(s, maxLen, n - 1), maxLen)
  }

  /** The chunks of the first `n` turns. */
  function Chunks(s: string, maxLen: nat, n: nat): seq<string>
    requires 5 <= maxLen
  {
    if n == 0 then []
    else
      var t := After(s, maxLen, n - 1);
      Chunks(s, maxLen, n - 1) + (if t == "" then [] else [Chunk(t, Plan(t, maxLen))])
  }

  /** The loop ends: after some number of turns nothing is left. */
  ghost predicate Halts(s: string, maxLen: nat)
    requires 5 <= maxLen
  {
    exists n: nat :: After(s, maxLen, n) == ""
  }

  method ChooseFirstCut(content: string, maxLen: nat) returns (msgEnd: int)
    requires 5 <= maxLen < |content|
    ensures msgEnd == FirstCut(content, EffectiveLimit(maxLen))
  {
    var half := maxLen / 2;
    var codeBlockBuffer := maxLen / 10;
    if codeBlockBuffer < 50 {
      codeBlockBuffer := 50;
    }
    if codeBlockBuffer > half {
      codeBlockBuffer := half;
    }
    var effectiveLimit := maxLen - codeBlockBuffer;
    if effectiveLimit < half {
      effectiveLimit := half;
    }
    msgEnd := FindLastNewline(content[..effectiveLimit], 200);
    if msgEnd <= 0 {
      msgEnd := FindLastSpace(content[..effectiveLimit], 100);
    }
    if msgEnd <= 0 {
      msgEnd := effectiveLimit;
    }
  }

  /** Cutting a text whose first cut leaves the block at `unclosedIdx` open and whose closing fence is out of reach. */
  method CutInBlock(content: string, maxLen: nat, first: nat, unclosedIdx: nat) returns (cut: Cut)
    requires 5 <= maxLen < |content|
    requires FenceAt(content, unclosedIdx)
    ensures cut == PlanInBlock(content, maxLen, first, unclosedIdx)
  {
    var headerEnd := NextNewline(content, unclosedIdx);
    if headerEnd == -1 {
      headerEnd := unclosedIdx + 3;
    }
    var header := TrimSpace(content[unclosedIdx..headerEnd]);
    if first > headerEnd + 20 {
      var innerLimit := maxLen - 5;
      var betterEnd := FindLastNewline(content[..innerLimit], 200);
      return Reopen(if betterEnd > headerEnd then betterEnd else innerLimit, header);
    }
    var newEnd := FindLastNewline(content[..unclosedIdx], 200);
    if newEnd <= 0 {
      newEnd := FindLastSpace(content[..unclosedIdx], 100);
    }
    if newEnd > 0 {
      cut := Plain(newEnd);
    } else if unclosedIdx > 20 {
      cut := Plain(unclosedIdx);
    } else {
      cut := Reopen(maxLen - 5, header);
    }
  }

  /** The body of the loop up to the decision where to cut. */
  method ChooseCut(content: string, maxLen: nat) returns (cut: Cut)
    requires 5 <= maxLen
    ensures cut == Plan(content, maxLen)
  {
    if |content| <= maxLen {
      return Whole;
    }
    var msgEnd := ChooseFirstCut(content, maxLen);
    var unclosedIdx := FindLastUnclosedCodeBlock(content[..msgEnd]);
    if unclosedIdx >= 0 {
      UnclosedIsFence(content[..msgEnd], 0, -1);
      var closingIdx := FindNextClosingCodeBlock(content, msgEnd);
      if closingIdx > 0 && closingIdx <= maxLen {
        return Plain(closingIdx);
      }
      cut := CutInBlock(content, maxLen, msgEnd, unclosedIdx);
    } else {
      cut := Plain(msgEnd);
    }
  }

  /** One turn: the chunk it appends and the text it leaves. */
  method Turn(content: string, maxLen: nat) returns (chunk: string, rest: string)
    requires 5 <= maxLen
    ensures chunk == Chunk(content, Plan(content, maxLen))
    ensures rest == Next(content, maxLen)
  {
    var cut := ChooseCut(content, maxLen);
    match cut {
      case Whole =>
        chunk, rest := content, "";
      case Plain(msgEnd) =>
        chunk, rest := content[..msgEnd], TrimSpace(content[msgEnd..]);
      case Reopen(msgEnd, header) =>
        chunk := TrimRight(content[..msgEnd], CHUNK_TAIL) + CLOSER;
        rest := TrimSpace(header + "\n" + content[msgEnd..]);
    }
  }
}
