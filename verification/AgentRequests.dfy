/** What the provider is sent and what a turn answers, message by message (pkg/agent/loop.go:416-757,
    pkg/agent/context.go:490-512). */
module AgentRequests {
  import opened History
  import opened AgentLoop
  import opened AgentRuns
  import Text

  // ---------------------------------------------------------------- what a request holds

  /** The parts of a built request: the system prompt, the repaired history, and the user's message unless it is
      blank. */
  ghost predicate IsBuilt(request: seq<Message>, systemPrompt: string, h: seq<Message>, user: string) {
    var n := |Sanitize(h)|;
    && |request| == (if Text.TrimSpace(user) == "" then 1 + n else 2 + n)
    && request[0] == Message(System, systemPrompt, [], "")
    && request[1..1 + n] == Sanitize(h)
    && (Text.TrimSpace(user) != "" ==> request[1 + n] == Message(User, user, [], ""))
  }

  lemma BuildsExactly(systemPrompt: string, h: seq<Message>, user: string)
    ensures IsBuilt(BuildMessages(systemPrompt, h, user), systemPrompt, h, user)
  {
    hide Sanitize;
    var s, b := Sanitize(h), BuildMessages(systemPrompt, h, user);
    assert b[1..1 + |s|] == s;
  }

  /** The messages of one tool round: what the provider said, with its calls, and the result of each call under its
      identifier. */
  ghost predicate IsRound(r: seq<Message>, w: World, i: nat, content: string, calls: seq<ToolCall>) {
    && |r| == 1 + |calls| && r[0] == Message(Assistant, content, calls, "")
    && forall k :: 0 <= k < |calls| ==> r[k + 1] == Message(Tool, w.tool(i, k), [], calls[k].id)
  }

  lemma {:induction false} ResultsExactly(w: World, i: nat, calls: seq<ToolCall>, n: nat)
    requires n <= |calls|
    ensures |Results(w, i, calls, n)| == n
    ensures forall k :: 0 <= k < n ==> Results(w, i, calls, n)[k] == Message(Tool, w.tool(i, k), [], calls[k].id)
  {
    if n > 0 {
      ResultsExactly(w, i, calls, n - 1);
    }
  }

  lemma RoundExactly(w: World, i: nat, content: string, calls: seq<ToolCall>)
    ensures IsRound(Round(w, i, content, calls), w, i, content, calls)
  {
    ResultsExactly(w, i, calls, |calls|);
    var r := Round(w, i, content, calls);
    forall k | 0 <= k < |calls| ensures r[k + 1] == Message(Tool, w.tool(i, k), [], calls[k].id) {
      assert r[k + 1] == Results(w, i, calls, |calls|)[k];
    }
  }

  /** What compression makes of a history: nothing up to four messages; else the first message with the note on how many
      were dropped, and all but the older half of those between the first and the last. */
  ghost predicate IsCompressed(c: seq<Message>, h: seq<Message>, note: Note) {
    if |h| <= 4 then c == h
    else
      var dropped := (|h| - 2) / 2;
      && |c| == |h| - dropped
      && c[0] == Message(h[0].role, h[0].content + note(dropped), h[0].toolCalls, h[0].toolCallID)
      && c[1..] == h[1 + dropped..]
  }

  lemma CompressesExactly(h: seq<Message>, note: Note)
    ensures IsCompressed(Compressed(h, note), h, note)
  {
    if 4 < |h| {
      CompressionDrops(h, note);
    }
  }

  // ---------------------------------------------------------------- the requests of a turn

  /** The first request of a turn: the system prompt, the repaired stored history, if it is used at all, and the user's
      message with its own words, unless it is blank. */
  lemma FirstRequest(w: World, systemPrompt: string, history: seq<Message>, noHistory: bool, user: string,
                     defaultResponse: string, max: nat)
    requires 1 <= max
    ensures var requests := Turn(w, systemPrompt, history, noHistory, user, defaultResponse, max).0.requests;
            requests != [] && IsBuilt(requests[0], systemPrompt, if noHistory then [] else history, user)
  {
    hide Iterate, BuildMessages, IsBuilt;
    var h := if noHistory then [] else history;
    BuildsExactly(systemPrompt, h, user);
    IterateExtends(w, 0, max, Progress(history + [Plain(User, user)], BuildMessages(systemPrompt, h, user), []));
  }

  /** The first request of iteration `i` is the one in hand. A context error on it, the first of the iteration, is
      answered by one that is built from the compressed session without a user's message. Without an error, and when the
      provider asks for tools and another iteration follows, the next request is this one and the round behind it. */
  lemma NextRequest(w: World, i: nat, max: nat, p: Progress)
    requires i < max
    ensures var r, n := Iterate(w, i, max, p).0.requests, |p.requests|;
            && n < |r| && r[n] == p.messages
            && (w.llm(i, 0) == Failure(true) ==>
                  n + 1 < |r| && IsBuilt(r[n + 1], w.prompt(i, 0), Compressed(p.session, w.note), ""))
            && (w.llm(i, 0).Answer? && w.llm(i, 0).calls != [] && i + 1 < max ==>
                  n + 1 < |r| && |p.messages| <= |r[n + 1]| && r[n + 1][..|p.messages|] == p.messages
                  && IsRound(r[n + 1][|p.messages|..], w, i, w.llm(i, 0).content, w.llm(i, 0).calls))
  {
    hide Round, BuildMessages, Compressed, IsBuilt, IsRound, Ask, Iterate;
    IterateExtends(w, i, max, p);
    var reply := w.llm(i, 0);
    if reply == Failure(true) {
      BuildsExactly(w.prompt(i, 0), Compressed(p.session, w.note), "");
      RetryRequest(w, i, max, p);
    } else if reply.Answer? && reply.calls != [] && i + 1 < max {
      var round := Round(w, i, reply.content, reply.calls);
      RoundExactly(w, i, reply.content, reply.calls);
      RoundRequest(w, i, max, p);
      assert (p.messages + round)[|p.messages|..] == round;
    }
  }

  lemma RetryRequest(w: World, i: nat, max: nat, p: Progress)
    requires i < max && w.llm(i, 0) == Failure(true)
    ensures var r, n := Iterate(w, i, max, p).0.requests, |p.requests|;
            n + 1 < |r| && r[n + 1] == BuildMessages(w.prompt(i, 0), Compressed(p.session, w.note), "")
  {
    hide Round, BuildMessages, Compressed;
    var q := Rebuilt(w, i, 0, Sent(p));
    AskRequests(w, i, 1, q);
    assert Ask(w, i, 0, p) == Ask(w, i, 1, q);
    IterateKeepsAsked(w, i, max, p);
    var a := Ask(w, i, 0, p).0.requests;
    assert a[|p.requests| + 1] == q.messages;
    var r := Iterate(w, i, max, p).0.requests;
    assert r[|p.requests| + 1] == r[..|a|][|p.requests| + 1];
  }

  lemma RoundRequest(w: World, i: nat, max: nat, p: Progress)
    requires i + 1 < max && w.llm(i, 0).Answer? && w.llm(i, 0).calls != []
    ensures var r, n := Iterate(w, i, max, p).0.requests, |p.requests|;
            n + 1 < |r| && r[n + 1] == p.messages + Round(w, i, w.llm(i, 0).content, w.llm(i, 0).calls)
  {
    hide Round, Iterate;
    var reply := w.llm(i, 0);
    var next := Added(Sent(p), Round(w, i, reply.content, reply.calls));
    IterateOnce(w, i, max, p);
    IterateExtends(w, i + 1, max, next);
    var r := Iterate(w, i, max, p).0.requests;
    assert |next.requests| == |p.requests| + 1;
    assert r[|next.requests|] == next.messages;
  }

  lemma IterateOnce(w: World, i: nat, max: nat, p: Progress)
    requires i < max && w.llm(i, 0).Answer? && w.llm(i, 0).calls != []
    ensures Iterate(w, i, max, p) ==
              Iterate(w, i + 1, max, Added(Sent(p), Round(w, i, w.llm(i, 0).content, w.llm(i, 0).calls)))
  {
    hide Round, Added;
    assert Ask(w, i, 0, p) == (Sent(p), w.llm(i, 0));
  }

  /** The requests of an iteration are not touched by later ones. */
  lemma IterateKeepsAsked(w: World, i: nat, max: nat, p: Progress)
    requires i < max
    ensures var a, r := Ask(w, i, 0, p).0.requests, Iterate(w, i, max, p).0.requests; |a| <= |r| && r[..|a|] == a
  {
    hide Round, Ask;
    var (q, reply) := Ask(w, i, 0, p);
    if reply.Answer? && reply.calls != [] {
      IterateExtends(w, i + 1, max, Added(q, Round(w, i, reply.content, reply.calls)));
    } else {
      assert q.requests[..|q.requests|] == q.requests;
    }
  }

  /** A request is made anew on a context error, twice at the most. */
  lemma ThreeTries(w: World, i: nat)
    ensures var e := (r: nat) => w.llm(i, r) == Failure(true);
            Errors(w, i, 0) == if !e(0) then 0 else if !e(1) then 1 else 2
  {
    assert Again(w.llm(i, 0), 0) <==> w.llm(i, 0) == Failure(true);
    assert Again(w.llm(i, 1), 1) <==> w.llm(i, 1) == Failure(true);
    assert Errors(w, i, 2) == 0;
    assert Errors(w, i, 1) == if Again(w.llm(i, 1), 1) then 1 else 0;
  }

  // ---------------------------------------------------------------- the answer

  /** Iteration `i` ends with tool calls. */
  ghost predicate CarriesOn(w: World, i: nat) {
    AgentRuns.Reply(w, i).Answer? && AgentRuns.Reply(w, i).calls != []
  }

  lemma GoesOn(w: World, i: nat, max: nat, p: Progress) returns (q: Progress)
    requires i < max && CarriesOn(w, i)
    ensures Iterate(w, i, max, p) == Iterate(w, i + 1, max, q)
  {
    hide Ask, Round, Errors, Added;
    AskEnds(w, i, 0, p);
    var (asked, reply) := Ask(w, i, 0, p);
    q := Added(asked, Round(w, i, reply.content, reply.calls));
  }

  lemma EndsHere(w: World, i: nat, max: nat, p: Progress)
    requires i <= max && (i < max ==> !CarriesOn(w, i))
    ensures Iterate(w, i, max, p).1 ==
              if i == max then Finished("")
              else if AgentRuns.Reply(w, i).Failure? then Failed else Finished(AgentRuns.Reply(w, i).content)
  {
    hide Ask, Round, Errors, Added;
    if i < max {
      AskEnds(w, i, 0, p);
    }
  }

  lemma {:induction false} IterateEnds(w: World, i: nat, k: nat, max: nat, p: Progress)
    requires i <= k <= max && (forall x :: i <= x < k ==> CarriesOn(w, x)) && (k < max ==> !CarriesOn(w, k))
    ensures Iterate(w, i, max, p).1 ==
              if k == max then Finished("")
              else if AgentRuns.Reply(w, k).Failure? then Failed else Finished(AgentRuns.Reply(w, k).content)
    decreases max - i
  {
    hide Iterate;
    if i < k {
      assert CarriesOn(w, i);
      var q := GoesOn(w, i, max, p);
      hide CarriesOn;
      IterateEnds(w, i + 1, k, max, q);
    } else {
      EndsHere(w, i, max, p);
    }
  }

  /** How a turn ends: with the first answer of the provider that asks for no tool, or with a failure that comes
      first; the default response stands in for an empty answer and for none within `max` iterations. What is
      answered is recorded as the last message of the session. */
  lemma TurnEnds(w: World, systemPrompt: string, history: seq<Message>, noHistory: bool, user: string,
                 defaultResponse: string, max: nat, k: nat)
    requires k <= max && (forall x :: 0 <= x < k ==> CarriesOn(w, x)) && (k < max ==> !CarriesOn(w, k))
    ensures var (p, end) := Turn(w, systemPrompt, history, noHistory, user, defaultResponse, max);
            && (k < max && AgentRuns.Reply(w, k).Failure? ==> end == Failed)
            && (k < max && AgentRuns.Reply(w, k).Answer? ==>
                  var content := AgentRuns.Reply(w, k).content;
                  end == Finished(if content != "" then content else defaultResponse))
            && (k == max ==> end == Finished(defaultResponse))
            && (end.Finished? ==>
                  p.session != [] && p.session[|p.session| - 1] == Message(Assistant, end.content, [], ""))
  {
    hide Iterate, BuildMessages, CarriesOn;
    var h := if noHistory then [] else history;
    IterateEnds(w, 0, k, max, Progress(history + [Plain(User, user)], BuildMessages(systemPrompt, h, user), []));
  }
}
