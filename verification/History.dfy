/** Conversation histories and their repair before a provider sees them (pkg/agent/context.go:490-578). */
module History {

  datatype Role = System | User | Assistant | Tool | Other(name: string)

  datatype ToolCall = ToolCall(id: string, name: string, arguments: string)

  datatype Message = Message(role: Role, content: string, toolCalls: seq<ToolCall>, toolCallID: string)

  function Plain(role: Role, content: string): Message {
    Message(role, content, [], "")
  }

  predicate Calls(m: Message) {
    m.role == Assistant && m.toolCalls != []
  }

  // ---------------------------------------------------------------- what providers accept

  /** The message at `i` is reached through tool messages alone from an assistant message with tool calls. */
  ghost predicate Reached(h: seq<Message>, i: nat)
    requires i <= |h|
  {
    exists j :: 0 <= j < i && Calls(h[j]) && forall k :: j < k < i ==> h[k].role == Tool
  }

  ghost predicate WellFormed(h: seq<Message>) {
    && (forall i :: 0 <= i < |h| ==> h[i].role != System)
    && (forall i :: 0 <= i < |h| && h[i].role == Tool ==> Reached(h, i))
    && (forall i :: 0 <= i < |h| && Calls(h[i]) ==> CallsFit(h, i))
  }

  ghost predicate CallsFit(h: seq<Message>, i: nat)
    requires i <= |h|
  {
    0 < i && (h[i - 1].role == User || h[i - 1].role == Tool)
  }

  // ---------------------------------------------------------------- the one-pass automaton

  /** What the latest kept message allows: nothing yet, a user message, a tool-calling assistant message,
      one of its results, or anything else. */
  datatype State = Start | AfterUser | AfterCalls | AfterTool | AfterOther

  predicate Keeps(st: State, m: Message) {
    match m.role
    case System => false
    case Tool => st == AfterCalls || st == AfterTool
    case Assistant => m.toolCalls != [] ==> st == AfterUser || st == AfterTool
    case _ => true
  }

  function After(m: Message): State {
    match m.role
    case User => AfterUser
    case Tool => AfterTool
    case Assistant => if m.toolCalls != [] then AfterCalls else AfterOther
    case _ => AfterOther
  }

  function StateOf(kept: seq<Message>): State {
    if kept == [] then Start else After(kept[|kept| - 1])
  }

  /** One pass over the history: a message is kept or dropped by the state after the messages kept before it. */
  function Sanitize(h: seq<Message>): (r: seq<Message>)
    ensures |r| <= |h|
  {
    if h == [] then []
    else
      var kept, m := Sanitize(h[..|h| - 1]), h[|h| - 1];
      if Keeps(StateOf(kept), m) then kept + [m] else kept
  }

  /** For a well-formed list the state of the automaton is what the backward walk finds. */
  lemma WalkIsState(h: seq<Message>)
    requires WellFormed(h)
    ensures Reached(h, |h|) <==> StateOf(h) == AfterCalls || StateOf(h) == AfterTool
  {
    var n := |h|;
    if StateOf(h) == AfterTool {
      assert Reached(h, n - 1);
      var j :| 0 <= j < n - 1 && Calls(h[j]) && forall k :: j < k < n - 1 ==> h[k].role == Tool;
      assert Calls(h[j]) && forall k :: j < k < n ==> h[k].role == Tool;
    } else if StateOf(h) == AfterCalls {
      assert Calls(h[n - 1]);
    }
  }

  method SanitizeHistoryForProvider(history: seq<Message>) returns (sanitized: seq<Message>)
    ensures sanitized == Sanitize(history)
    ensures WellFormed(sanitized)
  {
    if |history| == 0 {
      return history;
    }
    sanitized := [];
    var n := 0;
    while n < |history|
      invariant 0 <= n <= |history|
      invariant sanitized == Sanitize(history[..n]) && WellFormed(sanitized)
    {
      var msg := history[n];
      assert history[..n + 1][..n] == history[..n];
      AppendFits(sanitized, msg);
      n := n + 1;
      match msg.role {
        case System =>
          continue;
        case Tool =>
          if |sanitized| == 0 {
            continue;
          }
          var foundAssistant := NearestAssistantCalls(sanitized);
          WalkIsState(sanitized);
          if !foundAssistant {
            continue;
          }
          sanitized := sanitized + [msg];
        case Assistant =>
          if |msg.toolCalls| > 0 {
            if |sanitized| == 0 {
              continue;
            }
            var prev := sanitized[|sanitized| - 1];
            if prev.role != User && prev.role != Tool {
              continue;
            }
          }
          sanitized := sanitized + [msg];
        case _ =>
          sanitized := sanitized + [msg];
      }
    }
    assert history[..n] == history;
  }

  /** The backward walk over tool messages to the nearest other message. */
  method NearestAssistantCalls(sanitized: seq<Message>) returns (found: bool)
    ensures found <==> Reached(sanitized, |sanitized|)
  {
    found := false;
    var i := |sanitized| - 1;
    while i >= 0
      invariant -1 <= i < |sanitized|
      invariant !found
      invariant forall k :: i < k < |sanitized| ==> sanitized[k].role == Tool
    {
      if sanitized[i].role == Tool {
        i := i - 1;
        continue;
      }
      if sanitized[i].role == Assistant && |sanitized[i].toolCalls| > 0 {
        found := true;
      }
      break;
    }
  }

  // ---------------------------------------------------------------- what the repair is

  lemma PrefixWellFormed(h: seq<Message>, m: Message)
    requires WellFormed(h + [m])
    ensures WellFormed(h)
  {
    var g := h + [m];
    ReachedInPrefix(h, m);
    forall i | 0 <= i < |h|
      ensures h[i].role != System && (h[i].role == Tool ==> Reached(h, i)) && (Calls(h[i]) ==> CallsFit(h, i))
    {
      assert g[i] == h[i];
    }
  }

  /** The automaton keeps a message exactly when the list stays well-formed with it. */
  lemma AppendFits(h: seq<Message>, m: Message)
    requires WellFormed(h)
    ensures Keeps(StateOf(h), m) <==> WellFormed(h + [m])
  {
    var g, n := h + [m], |h|;
    WalkIsState(h);
    assert g[n] == m;
    ReachedInPrefix(h, m);
    assert Keeps(StateOf(h), m) <==>
             m.role != System && (m.role == Tool ==> Reached(g, n)) && (Calls(m) ==> CallsFit(g, n));
    forall i | 0 <= i < n && Calls(h[i]) ensures CallsFit(g, i) {
      assert CallsFit(h, i);
    }
  }

  lemma ReachedInPrefix(h: seq<Message>, m: Message)
    ensures forall i: nat :: i <= |h| ==> Reached(h + [m], i) == Reached(h, i)
  {
    var g := h + [m];
    forall i: nat | i <= |h| ensures Reached(g, i) == Reached(h, i) {
      if Reached(g, i) {
        var j :| 0 <= j < i && Calls(g[j]) && forall k :: j < k < i ==> g[k].role == Tool;
        assert Calls(h[j]) && forall k :: j < k < i ==> h[k] == g[k];
      }
      if Reached(h, i) {
        var j :| 0 <= j < i && Calls(h[j]) && forall k :: j < k < i ==> h[k].role == Tool;
        assert Calls(g[j]) && forall k :: j < k < i ==> g[k] == h[k];
      }
    }
  }

  lemma {:induction false} SanitizedWellFormed(h: seq<Message>)
    ensures WellFormed(Sanitize(h))
  {
    if h != [] {
      var kept := Sanitize(h[..|h| - 1]);
      SanitizedWellFormed(h[..|h| - 1]);
      AppendFits(kept, h[|h| - 1]);
    }
  }

  /** The repair is the greedy one: a message is kept exactly when the kept list stays well-formed with it. */
  lemma SanitizeIsGreedy(h: seq<Message>, m: Message)
    ensures Sanitize(h + [m]) == if WellFormed(Sanitize(h) + [m]) then Sanitize(h) + [m] else Sanitize(h)
  {
    SanitizedWellFormed(h);
    AppendFits(Sanitize(h), m);
    assert (h + [m])[..|h|] == h;
  }

  /** Exactly the well-formed histories pass unchanged; so repairing twice is repairing once. */
  lemma {:induction false} FixpointsAreWellFormed(h: seq<Message>)
    ensures Sanitize(h) == h <==> WellFormed(h)
  {
    SanitizedWellFormed(h);
    if h != [] && WellFormed(h) {
      var front, m := h[..|h| - 1], h[|h| - 1];
      assert h == front + [m];
      PrefixWellFormed(front, m);
      FixpointsAreWellFormed(front);
      AppendFits(front, m);
    }
  }

  lemma SanitizeIdempotent(h: seq<Message>)
    ensures Sanitize(Sanitize(h)) == Sanitize(h)
  {
    SanitizedWellFormed(h);
    FixpointsAreWellFormed(Sanitize(h));
  }

  /** `a` is what is left of `b` after dropping some of its elements. */
  ghost predicate Subsequence<T>(a: seq<T>, b: seq<T>) {
    if b == [] then a == []
    else
      Subsequence(a, b[..|b| - 1]) ||
      (a != [] && a[|a| - 1] == b[|b| - 1] && Subsequence(a[..|a| - 1], b[..|b| - 1]))
  }

  lemma {:induction false} SanitizedIsSubsequence(h: seq<Message>)
    ensures Subsequence(Sanitize(h), h)
  {
    if h != [] {
      var kept, m := Sanitize(h[..|h| - 1]), h[|h| - 1];
      SanitizedIsSubsequence(h[..|h| - 1]);
      if Keeps(StateOf(kept), m) {
        assert (kept + [m])[..|kept|] == kept;
      }
    }
  }
}
