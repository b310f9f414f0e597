/** One turn of the agent: messages for the provider, tool rounds, and compression on context errors
    (pkg/agent/loop.go:416-757, 805-854; pkg/agent/context.go:414-513). */
module AgentLoop {
  import opened History
  import opened Sessions
  import Text

  // ---------------------------------------------------------------- compression

  /** How the note on `n` dropped messages reads. */
  type Note = nat -> string

  /** The first message with a note, the newer half of the messages between, and the last message. */
  function Compressed(h: seq<Message>, note: Note): seq<Message> {
    if |h| <= 4 then h
    else
      var conversation := h[1..|h| - 1];
      var mid := |conversation| / 2;
      [h[0].(content := h[0].content + note(mid))] + conversation[mid..] + [h[|h| - 1]]
  }

  /** Compression removes exactly floor((n-2)/2) of n > 4 messages, the oldest behind the first. */
  lemma CompressionDrops(h: seq<Message>, note: Note)
    requires 4 < |h|
    ensures var c := Compressed(h, note); var dropped := (|h| - 2) / 2;
            && |c| == |h| - dropped
            && c[0].role == h[0].role && c[0].toolCalls == h[0].toolCalls
            && c[1..] == h[1 + dropped..]
  {
    var n, mid := |h|, (|h| - 2) / 2;
    var first, rest := h[0].(content := h[0].content + note(mid)), h[1..n - 1][mid..];
    assert Compressed(h, note) == [first] + rest + [h[n - 1]];
    assert rest + [h[n - 1]] == h[1 + mid..];
    assert ([first] + rest + [h[n - 1]])[1..] == rest + [h[n - 1]];
  }

  method ForceCompression(sm: SessionManager, key: string, note: Note)
    requires sm.Valid()
    modifies sm.sessions.Values
    ensures sm.Valid() && sm.sessions == old(sm.sessions)
    ensures sm.Contents() == Replaced(old(sm.Contents()), key, Compressed(Get(old(sm.Contents()), key).messages, note))
  {
    var history := sm.GetHistory(key);
    if |history| <= 4 {
      return;
    }
    var conversation := history[1..|history| - 1];
    if |conversation| == 0 {
      return;
    }
    var mid := |conversation| / 2;
    var keptConversation := conversation[mid..];
    var enhanced := history[0];
    enhanced := enhanced.(content := enhanced.content + note(mid));
    var newHistory := [enhanced];
    newHistory := newHistory + keptConversation;
    newHistory := newHistory + [history[|history| - 1]];
    sm.SetHistory(key, newHistory);
  }

  // ---------------------------------------------------------------- the request

  function UserPart(current: string): seq<Message> {
    if Text.TrimSpace(current) != "" then [Plain(User, current)] else []
  }

  /** The provider request for a history: one system message, the repaired history, the user's message. */
  function BuildMessages(systemPrompt: string, history: seq<Message>, current: string): seq<Message> {
    [Plain(System, systemPrompt)] + Sanitize(history) + UserPart(current)
  }

  /** A request providers accept: one system message, which comes first, and a well-formed conversation. */
  ghost predicate Acceptable(request: seq<Message>) {
    request != [] && request[0].role == System && WellFormed(request[1..])
  }

  /** The conversation of a request may be followed by an assistant message with tool calls. */
  predicate Open(request: seq<Message>) {
    1 < |request| && (request[|request| - 1].role == User || request[|request| - 1].role == Tool)
  }

  /** Whatever truncation and compression have made of a history, the request built from it is acceptable. */
  lemma BuildIsAcceptable(systemPrompt: string, history: seq<Message>, current: string)
    ensures Acceptable(BuildMessages(systemPrompt, history, current))
  {
    SanitizedWellFormed(history);
    var s := Sanitize(history);
    AppendFits(s, Plain(User, current));
    assert s + [] == s;
    assert BuildMessages(systemPrompt, history, current)[1..] == s + UserPart(current);
  }

  // ---------------------------------------------------------------- the surroundings

  datatype Reply = Answer(content: string, calls: seq<ToolCall>) | Failure(contextError: bool)

  /** The provider's reply in iteration `i` at try `r`, the system prompt of a request rebuilt then, the
      result of the `k`-th tool call of iteration `i`, and the wording of compression notes. */
  datatype World = World(llm: (nat, nat) -> Reply, prompt: (nat, nat) -> string, tool: (nat, nat) -> string, note: Note)

  /** The stored conversation, the request being grown, and all requests made so far. */
  datatype Progress = Progress(session: seq<Message>, messages: seq<Message>, requests: seq<seq<Message>>)

  datatype End = Finished(content: string) | Failed

  const MAX_RETRIES := 2

  /** Asking the provider, with compression and another try on context errors. */
  function Ask(w: World, i: nat, retry: nat, p: Progress): (r: (Progress, Reply))
    requires retry <= MAX_RETRIES
    decreases MAX_RETRIES - retry
  {
    var reply := w.llm(i, retry);
    if Again(reply, retry) then Ask(w, i, retry + 1, Rebuilt(w, i, retry, Sent(p))) else (Sent(p), reply)
  }

  function Sent(p: Progress): Progress {
    p.(requests := p.requests + [p.messages])
  }

  predicate Again(reply: Reply, retry: nat) {
    reply.Failure? && reply.contextError && retry < MAX_RETRIES
  }

  /** After a context error: the session compressed, and the request built anew from it. */
  function Rebuilt(w: World, i: nat, retry: nat, p: Progress): Progress {
    var session := Compressed(p.session, w.note);
    p.(session := session, messages := BuildMessages(w.prompt(i, retry), session, ""))
  }

  function AssistantCalls(content: string, calls: seq<ToolCall>): Message {
    Message(Assistant, content, calls, "")
  }

  /** The results of the first `n` calls of iteration `i`. */
  function Results(w: World, i: nat, calls: seq<ToolCall>, n: nat): seq<Message>
    requires n <= |calls|
  {
    if n == 0 then [] else Results(w, i, calls, n - 1) + [Message(Tool, w.tool(i, n - 1), [], calls[n - 1].id)]
  }

  function Round(w: World, i: nat, content: string, calls: seq<ToolCall>): seq<Message> {
    [AssistantCalls(content, calls)] + Results(w, i, calls, |calls|)
  }

  lemma NoResults(w: World, i: nat, calls: seq<ToolCall>, before: seq<Message>)
    ensures before + Results(w, i, calls, 0) == before
  {
  }

  lemma NextResult(w: World, i: nat, calls: seq<ToolCall>, k: nat, before: seq<Message>)
    requires k < |calls|
    ensures before + Results(w, i, calls, k + 1)
         == before + Results(w, i, calls, k) + [Message(Tool, w.tool(i, k), [], calls[k].id)]
  {
  }

  lemma RoundSplits(w: World, i: nat, content: string, calls: seq<ToolCall>, before: seq<Message>)
    ensures before + Round(w, i, content, calls)
         == before + [AssistantCalls(content, calls)] + Results(w, i, calls, |calls|)
  {
  }

  function Added(p: Progress, ms: seq<Message>): Progress {
    p.(session := p.session + ms, messages := p.messages + ms)
  }

  /** The iterations from `i` on. */
  function Iterate(w: World, i: nat, max: nat, p: Progress): (Progress, End)
    decreases max - i
  {
    if i >= max then (p, Finished(""))
    else
      var (q, reply) := Ask(w, i, 0, p);
      match reply
      case Failure(_) => (q, Failed)
      case Answer(content, calls) =>
        if calls == [] then (q, Finished(content))
        else Iterate(w, i + 1, max, Added(q, Round(w, i, content, calls)))
  }

  // ---------------------------------------------------------------- in place

  /** The state the loop works on: the stored session and the growing request. */
  ghost function Now(sm: SessionManager, key: string, messages: seq<Message>, requests: seq<seq<Message>>): Progress
    reads sm, sm.sessions.Values
  {
    Progress(Get(sm.Contents(), key).messages, messages, requests)
  }

  /** The retry loop of one iteration. */
  method AskProvider(sm: SessionManager, key: string, w: World, i: nat, initial: seq<Message>,
                     before: seq<seq<Message>>)
    returns (reply: Reply, messages: seq<Message>, requests: seq<seq<Message>>)
    requires sm.Valid() && key in sm.Contents()
    modifies sm.sessions.Values
    ensures sm.Valid() && sm.sessions == old(sm.sessions) && key in sm.Contents()
    ensures (Now(sm, key, messages, requests), reply) == Ask(w, i, 0, old(Now(sm, key, initial, before)))
    ensures sm.Contents() == Replaced(old(sm.Contents()), key, Get(sm.Contents(), key).messages)
  {
    hide Compressed, BuildMessages, SessionManager.Contents;
    messages, requests := initial, before;
    ghost var all := Ask(w, i, 0, Now(sm, key, initial, before));
    var retry := 0;
    while true
      invariant 0 <= retry <= MAX_RETRIES
      invariant sm.Valid() && sm.sessions == old(sm.sessions) && key in sm.Contents()
      invariant Ask(w, i, retry, Now(sm, key, messages, requests)) == all
      invariant sm.Contents() == Replaced(old(sm.Contents()), key, Get(sm.Contents(), key).messages)
      decreases MAX_RETRIES - retry
    {
      requests := requests + [messages];
      reply := w.llm(i, retry);
      if reply.Answer? {
        return;
      }
      if reply.contextError && retry < MAX_RETRIES {
        ForceCompression(sm, key, w.note);
        var newHistory := sm.GetHistory(key);
        messages := BuildMessages(w.prompt(i, retry), newHistory, "");
        retry := retry + 1;
      } else {
        return;
      }
    }
  }

  /** Recording a tool-calling answer and the results of its calls, in the request and in the session. */
  method RunTools(sm: SessionManager, key: string, w: World, i: nat, content: string, calls: seq<ToolCall>,
                  initial: seq<Message>)
    returns (messages: seq<Message>)
    requires sm.Valid() && key in sm.Contents()
    modifies sm, sm.sessions.Values
    ensures sm.Valid() && fresh(sm.sessions.Values - old(sm.sessions.Values)) && key in sm.Contents()
    ensures messages == initial + Round(w, i, content, calls)
    ensures sm.Contents() ==
                Replaced(old(sm.Contents()), key, Get(old(sm.Contents()), key).messages + Round(w, i, content, calls))
  {
    hide SessionManager.Contents, Results;
    ghost var before := sm.Contents();
    ghost var stored := Get(before, key).messages;
    NoResults(w, i, calls, initial + [AssistantCalls(content, calls)]);
    NoResults(w, i, calls, stored + [AssistantCalls(content, calls)]);
    var assistantMsg := AssistantCalls(content, calls);
    messages := initial + [assistantMsg];
    sm.AddFullMessage(key, assistantMsg);
    var k := 0;
    while k < |calls|
      invariant 0 <= k <= |calls|
      invariant sm.Valid() && fresh(sm.sessions.Values - old(sm.sessions.Values)) && key in sm.Contents()
      invariant messages == (initial + [assistantMsg]) + Results(w, i, calls, k)
      invariant sm.Contents() == Replaced(before, key, (stored + [assistantMsg]) + Results(w, i, calls, k))
    {
      NextResult(w, i, calls, k, initial + [assistantMsg]);
      NextResult(w, i, calls, k, stored + [assistantMsg]);
      var toolResultMsg := Message(Tool, w.tool(i, k), [], calls[k].id);
      messages := messages + [toolResultMsg];
      sm.AddFullMessage(key, toolResultMsg);
      k := k + 1;
    }
    RoundSplits(w, i, content, calls, initial);
    RoundSplits(w, i, content, calls, stored);
  }

  method RunLLMIteration(sm: SessionManager, key: string, w: World, initial: seq<Message>, maxIterations: nat)
    returns (end: End, messages: seq<Message>, requests: seq<seq<Message>>)
    requires sm.Valid() && key in sm.Contents()
    modifies sm, sm.sessions.Values
    ensures sm.Valid() && fresh(sm.sessions.Values - old(sm.sessions.Values)) && key in sm.Contents()
    ensures (Now(sm, key, messages, requests), end) == Iterate(w, 0, maxIterations, old(Now(sm, key, initial, [])))
    ensures sm.Contents() == Replaced(old(sm.Contents()), key, Get(sm.Contents(), key).messages)
  {
    hide Ask, Round, SessionManager.Contents;
    ghost var all := Iterate(w, 0, maxIterations, Now(sm, key, initial, []));
    messages, requests := initial, [];
    var iteration := 0;
    while iteration < maxIterations
      invariant 0 <= iteration <= maxIterations
      invariant sm.Valid() && fresh(sm.sessions.Values - old(sm.sessions.Values)) && key in sm.Contents()
      invariant Iterate(w, iteration, maxIterations, Now(sm, key, messages, requests)) == all
      invariant sm.Contents() == Replaced(old(sm.Contents()), key, Get(sm.Contents(), key).messages)
    {
      var reply;
      reply, messages, requests := AskProvider(sm, key, w, iteration, messages, requests);
      if reply.Failure? {
        return Failed, messages, requests;
      }
      if |reply.calls| == 0 {
        return Finished(reply.content), messages, requests;
      }
      messages := RunTools(sm, key, w, iteration, reply.content, reply.calls, messages);
      iteration := iteration + 1;
    }
    end := Finished("");
  }

  /** A whole turn on the stored conversation. */
  function Turn(w: World, systemPrompt: string, history: seq<Message>, noHistory: bool, user: string,
                defaultResponse: string, max: nat): (Progress, End)
  {
    var messages := BuildMessages(systemPrompt, if noHistory then [] else history, user);
    var (p, end) := Iterate(w, 0, max, Progress(history + [Plain(User, user)], messages, []));
    match end
    case Failed => (p, end)
    case Finished(content) =>
      var final := if content == "" then defaultResponse else content;
      (p.(session := p.session + [Plain(Assistant, final)]), Finished(final))
  }

  method RunAgentLoop(sm: SessionManager, key: string, w: World, systemPrompt: string, noHistory: bool,
                      userMessage: string, defaultResponse: string, maxIterations: nat)
    returns (end: End, messages: seq<Message>, requests: seq<seq<Message>>)
    requires sm.Valid()
    modifies sm, sm.sessions.Values
    ensures sm.Valid() && fresh(sm.sessions.Values - old(sm.sessions.Values))
    ensures (Now(sm, key, messages, requests), end) ==
              Turn(w, systemPrompt, Get(old(sm.Contents()), key).messages, noHistory,
                   userMessage, defaultResponse, maxIterations)
    ensures forall k <- old(sm.Contents()) :: k != key ==>
                k in sm.Contents() && sm.Contents()[k] == old(sm.Contents())[k]
  {
    hide Iterate, BuildMessages, SessionManager.Contents;
    var history: seq<Message> := [];
    if !noHistory {
      history := sm.GetHistory(key);
    }
    var initial := BuildMessages(systemPrompt, history, userMessage);
    sm.AddFullMessage(key, Plain(User, userMessage));
    end, messages, requests := RunLLMIteration(sm, key, w, initial, maxIterations);
    if end.Failed? {
      return;
    }
    var finalContent := end.content;
    if finalContent == "" {
      finalContent := defaultResponse;
    }
    sm.AddFullMessage(key, Plain(Assistant, finalContent));
    end := Finished(finalContent);
  }

  // ---------------------------------------------------------------- which requests are acceptable

  /** One system message, and it comes first. */
  ghost predicate OneSystem(request: seq<Message>) {
    request != [] && request[0].role == System && forall i :: 1 <= i < |request| ==> request[i].role != System
  }

  lemma AcceptableHasOneSystem(request: seq<Message>)
    requires Acceptable(request)
    ensures OneSystem(request)
  {
    forall i | 1 <= i < |request| ensures request[i].role != System {
      assert request[i] == request[1..][i - 1];
    }
  }

  lemma {:induction false} ResultsAreTools(w: World, i: nat, calls: seq<ToolCall>, n: nat)
    requires n <= |calls|
    ensures |Results(w, i, calls, n)| == n
    ensures forall k :: 0 <= k < n ==> Results(w, i, calls, n)[k].role == Tool
  {
    if n > 0 {
      ResultsAreTools(w, i, calls, n - 1);
    }
  }

  /** Results of calls can always follow. */
  lemma {:induction false} ResultsFit(h: seq<Message>, w: World, i: nat, calls: seq<ToolCall>, n: nat)
    requires n <= |calls| && WellFormed(h) && (StateOf(h) == AfterCalls || StateOf(h) == AfterTool)
    ensures WellFormed(h + Results(w, i, calls, n))
    ensures var s := StateOf(h + Results(w, i, calls, n)); s == AfterCalls || s == AfterTool
    ensures 0 < n ==> StateOf(h + Results(w, i, calls, n)) == AfterTool
  {
    if n == 0 {
      assert h + [] == h;
    } else {
      ResultsFit(h, w, i, calls, n - 1);
      var g, m := h + Results(w, i, calls, n - 1), Message(Tool, w.tool(i, n - 1), [], calls[n - 1].id);
      assert h + Results(w, i, calls, n) == g + [m];
      AppendFits(g, m);
    }
  }

  lemma {:induction false} PartWellFormed(h: seq<Message>, g: seq<Message>)
    requires WellFormed(h + g)
    ensures WellFormed(h)
  {
    if g == [] {
      assert h + g == h;
    } else {
      var front := g[..|g| - 1];
      assert h + g == (h + front) + [g[|g| - 1]];
      PrefixWellFormed(h + front, g[|g| - 1]);
      PartWellFormed(h, front);
    }
  }

  /** A tool round may follow a well-formed conversation exactly when that ends with the user or a tool. */
  lemma RoundFits(h: seq<Message>, w: World, i: nat, content: string, calls: seq<ToolCall>)
    requires WellFormed(h) && calls != []
    ensures WellFormed(h + Round(w, i, content, calls)) <==> StateOf(h) == AfterUser || StateOf(h) == AfterTool
    ensures WellFormed(h + Round(w, i, content, calls)) ==> StateOf(h + Round(w, i, content, calls)) == AfterTool
  {
    var a := AssistantCalls(content, calls);
    RoundSplits(w, i, content, calls, h);
    AppendFits(h, a);
    if WellFormed(h + [a]) {
      ResultsFit(h + [a], w, i, calls, |calls|);
    } else if WellFormed(h + Round(w, i, content, calls)) {
      PartWellFormed(h + [a], Results(w, i, calls, |calls|));
    }
  }

  lemma OpenIsState(request: seq<Message>)
    requires Acceptable(request)
    ensures Open(request) <==> StateOf(request[1..]) == AfterUser || StateOf(request[1..]) == AfterTool
  {
    if 1 < |request| {
      assert request[1..][|request| - 2] == request[|request| - 1];
    }
  }

  lemma RequestFits(request: seq<Message>, w: World, i: nat, content: string, calls: seq<ToolCall>)
    requires Acceptable(request) && calls != []
    ensures Acceptable(request + Round(w, i, content, calls)) <==> Open(request)
    ensures Acceptable(request + Round(w, i, content, calls)) ==> Open(request + Round(w, i, content, calls))
  {
    var r := Round(w, i, content, calls);
    OpenIsState(request);
    RoundFits(request[1..], w, i, content, calls);
    assert (request + r)[1..] == request[1..] + r;
    if Acceptable(request + r) {
      OpenIsState(request + r);
    }
  }

  /** All requests made from the `from`-th on are acceptable. */
  ghost predicate AllAcceptable(requests: seq<seq<Message>>, from: nat) {
    forall k :: from <= k < |requests| ==> Acceptable(requests[k])
  }

  /** Every rebuilt request of a retry loop is acceptable, whatever compression did to the session. */
  lemma {:induction false} AskRequests(w: World, i: nat, retry: nat, p: Progress)
    requires retry <= MAX_RETRIES
    ensures var q := Ask(w, i, retry, p).0;
            && |p.requests| < |q.requests| && q.requests[..|p.requests|] == p.requests
            && q.requests[|p.requests|] == p.messages
            && AllAcceptable(q.requests, |p.requests| + 1)
            && (Acceptable(p.messages) ==> Acceptable(q.messages))
            && q.requests[|q.requests| - 1] == q.messages
    decreases MAX_RETRIES - retry
  {
    hide BuildMessages, Compressed, Acceptable;
    if Again(w.llm(i, retry), retry) {
      var session := Compressed(p.session, w.note);
      BuildIsAcceptable(w.prompt(i, retry), session, "");
      AskRequests(w, i, retry + 1, Rebuilt(w, i, retry, Sent(p)));
      var q := Ask(w, i, retry, p).0;
      assert q.requests[..|p.requests|] == q.requests[..|p.requests| + 1][..|p.requests|];
      assert q.requests[|p.requests|] == q.requests[..|p.requests| + 1][|p.requests|];
    }
  }
}
