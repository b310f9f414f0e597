/** What whole turns and whole sessions guarantee (pkg/agent/loop.go:438-466, 502-756). */
module AgentRuns {
  import opened History
  import opened Sessions
  import opened AgentLoop
  import opened Options
  import Text

  // ---------------------------------------------------------------- requests

  /** The context errors of iteration `i` that are answered by a compression and another try. */
  function Errors(w: World, i: nat, retry: nat): (n: nat)
    requires retry <= MAX_RETRIES
    ensures retry + n <= MAX_RETRIES
    decreases MAX_RETRIES - retry
  {
    if Again(w.llm(i, retry), retry) then 1 + Errors(w, i, retry + 1) else 0
  }

  function Reply(w: World, i: nat): Reply {
    w.llm(i, Errors(w, i, 0))
  }

  function CompressedTimes(s: seq<Message>, note: Note, n: nat): seq<Message>
    decreases n
  {
    if n == 0 then s else CompressedTimes(Compressed(s, note), note, n - 1)
  }

  /** A test of the session that is about to be compressed. */
  type Guard = seq<Message> -> bool

  /** Whenever iteration `i` or a later one ends in tool calls and another one follows: it had no context error,
      and the request in hand was open; or the session about to be compressed for the last time passed
      the guard. `s` is the stored session before iteration `i`; requests are not looked at. */
  ghost predicate Guarded(w: World, i: nat, max: nat, s: seq<Message>, open: bool, guard: Guard)
    decreases max - i
  {
    i + 1 >= max ||
    var n, reply := Errors(w, i, 0), Reply(w, i);
    !(reply.Answer? && reply.calls != []) ||
    ((if n == 0 then open else guard(CompressedTimes(s, w.note, n - 1))) &&
     Guarded(w, i + 1, max, CompressedTimes(s, w.note, n) + Round(w, i, reply.content, reply.calls), true, guard))
  }

  /** The requests already made stay as they are. */
  lemma {:induction false} IterateExtends(w: World, i: nat, max: nat, p: Progress)
    ensures var r := Iterate(w, i, max, p).0.requests; |p.requests| <= |r| && r[..|p.requests|] == p.requests
    ensures i < max ==> var r := Iterate(w, i, max, p).0.requests; |p.requests| < |r| && r[|p.requests|] == p.messages
    decreases max - i
  {
    hide Ask, Round;
    if i < max {
      AskRequests(w, i, 0, p);
      var (q, reply) := Ask(w, i, 0, p);
      if reply.Answer? && reply.calls != [] {
        IterateExtends(w, i + 1, max, Added(q, Round(w, i, reply.content, reply.calls)));
        var r := Iterate(w, i, max, p).0.requests;
        assert r[..|p.requests|] == r[..|q.requests|][..|p.requests|];
        assert r[|p.requests|] == r[..|q.requests|][|p.requests|];
      }
    }
  }

  /** Where the tries of an iteration lead: the session compressed once per context error, and a request that is
      open exactly when the last compression left it so. */
  lemma {:induction false} AskEnds(w: World, i: nat, retry: nat, p: Progress)
    requires retry <= MAX_RETRIES
    ensures var (q, reply) := Ask(w, i, retry, p); var n := Errors(w, i, retry);
            && reply == w.llm(i, retry + n)
            && q.session == CompressedTimes(p.session, w.note, n)
            && (n == 0 ==> q.messages == p.messages)
            && (n > 0 ==> (Open(q.messages) <==> KeptIsOpen(CompressedTimes(p.session, w.note, n - 1))))
    decreases MAX_RETRIES - retry
  {
    hide BuildMessages, Compressed, KeptIsOpen, Open;
    if Again(w.llm(i, retry), retry) {
      CompressedOpensExactly(w.prompt(i, retry), p.session, w.note);
      AskEnds(w, i, retry + 1, Rebuilt(w, i, retry, Sent(p)));
    }
  }

  /** From an acceptable request on, every request of the turn is acceptable exactly when the first request and
      each compression followed by a tool round and another request leave an open conversation. */
  lemma {:induction false} RequestsAcceptableExactly(w: World, i: nat, max: nat, p: Progress)
    requires Acceptable(p.messages)
    ensures AllAcceptable(Iterate(w, i, max, p).0.requests, |p.requests|) <==>
              Guarded(w, i, max, p.session, Open(p.messages), KeptIsOpen)
    decreases max - i
  {
    hide Ask, Round, Acceptable, Open, KeptIsOpen, CompressedTimes, Errors;
    if i < max {
      AskRequests(w, i, 0, p);
      AskEnds(w, i, 0, p);
      var (q, reply) := Ask(w, i, 0, p);
      assert AllAcceptable(q.requests, |p.requests|);
      if reply.Answer? && reply.calls != [] {
        var next := Added(q, Round(w, i, reply.content, reply.calls));
        RequestFits(q.messages, w, i, reply.content, reply.calls);
        IterateExtends(w, i + 1, max, next);
        var r := Iterate(w, i, max, p).0.requests;
        EarlierAcceptable(r, q.requests, |p.requests|);
        if Open(q.messages) {
          RequestsAcceptableExactly(w, i + 1, max, next);
        } else if i + 1 < max {
          assert !Acceptable(r[|q.requests|]);
        }
      }
    }
  }

  lemma EarlierAcceptable(r: seq<seq<Message>>, q: seq<seq<Message>>, from: nat)
    requires from <= |q| <= |r| && r[..|q|] == q && AllAcceptable(q, from)
    ensures AllAcceptable(r, from) <==> AllAcceptable(r, |q|)
  {
    hide Acceptable;
    if AllAcceptable(r, |q|) {
      forall k | from <= k < |r| ensures Acceptable(r[k]) {
        if k < |q| {
          assert r[k] == q[k];
        }
      }
    }
  }

  ghost predicate AllOneSystem(requests: seq<seq<Message>>) {
    forall k :: 0 <= k < |requests| ==> OneSystem(requests[k])
  }

  /** Every request of every turn has one system message, which comes first, compressed or not. */
  lemma {:induction false} RequestsHaveOneSystem(w: World, i: nat, max: nat, p: Progress)
    requires OneSystem(p.messages) && AllOneSystem(p.requests)
    ensures AllOneSystem(Iterate(w, i, max, p).0.requests)
    decreases max - i
  {
    hide Ask, Round, OneSystem, Acceptable;
    if i < max {
      AskRequests(w, i, 0, p);
      var (q, reply) := Ask(w, i, 0, p);
      forall k | 0 <= k < |q.requests| ensures OneSystem(q.requests[k]) {
        if k < |p.requests| {
          assert q.requests[k] == q.requests[..|p.requests|][k];
        } else if k > |p.requests| {
          AcceptableHasOneSystem(q.requests[k]);
        }
      }
      assert OneSystem(q.requests[|q.requests| - 1]);
      if reply.Answer? && reply.calls != [] {
        RoundHasNoSystem(q.messages, w, i, reply.content, reply.calls);
        RequestsHaveOneSystem(w, i + 1, max, Added(q, Round(w, i, reply.content, reply.calls)));
      }
    }
  }

  lemma RoundHasNoSystem(request: seq<Message>, w: World, i: nat, content: string, calls: seq<ToolCall>)
    requires OneSystem(request)
    ensures OneSystem(request + Round(w, i, content, calls))
  {
    ResultsAreTools(w, i, calls, |calls|);
  }

  // ---------------------------------------------------------------- recorded turns

  /** A tool round as it is recorded: a tool-calling answer and one result for each call, in order. */
  datatype RoundRecord = RoundRecord(content: string, calls: seq<ToolCall>, results: seq<string>)

  datatype TurnRecord = TurnRecord(user: string, rounds: seq<RoundRecord>, final: Option<string>)

  ghost predicate Proper(r: RoundRecord) {
    r.calls != [] && |r.results| == |r.calls|
  }

  function ResultMessages(r: RoundRecord, n: nat): seq<Message>
    requires n <= |r.calls| && n <= |r.results|
  {
    if n == 0 then [] else ResultMessages(r, n - 1) + [Message(Tool, r.results[n - 1], [], r.calls[n - 1].id)]
  }

  function RoundMessages(r: RoundRecord): seq<Message>
    requires |r.results| == |r.calls|
  {
    [AssistantCalls(r.content, r.calls)] + ResultMessages(r, |r.calls|)
  }

  ghost predicate AllProper(rs: seq<RoundRecord>) {
    forall i :: 0 <= i < |rs| ==> Proper(rs[i])
  }

  ghost function RoundsMessages(rs: seq<RoundRecord>): seq<Message>
    requires AllProper(rs)
  {
    if rs == [] then [] else RoundsMessages(rs[..|rs| - 1]) + RoundMessages(rs[|rs| - 1])
  }

  ghost function TurnMessages(t: TurnRecord): seq<Message>
    requires AllProper(t.rounds)
  {
    [Plain(User, t.user)] + RoundsMessages(t.rounds) + (if t.final.Some? then [Plain(Assistant, t.final.value)] else [])
  }

  ghost function SessionOf(ts: seq<TurnRecord>): seq<Message>
    requires forall i :: 0 <= i < |ts| ==> AllProper(ts[i].rounds)
  {
    if ts == [] then [] else SessionOf(ts[..|ts| - 1]) + TurnMessages(ts[|ts| - 1])
  }

  predicate NoContextErrors(w: World, max: nat) {
    forall i: nat :: i < max ==> !Again(w.llm(i, 0), 0)
  }

  /** What iteration `i` records when the provider asks for `calls`. */
  function Recorded(w: World, i: nat, content: string, calls: seq<ToolCall>): RoundRecord {
    RoundRecord(content, calls, seq(|calls|, k requires 0 <= k < |calls| => w.tool(i, k)))
  }

  lemma {:induction false} ResultsRecorded(w: World, i: nat, content: string, calls: seq<ToolCall>, n: nat)
    requires n <= |calls|
    ensures ResultMessages(Recorded(w, i, content, calls), n) == Results(w, i, calls, n)
  {
    if n > 0 {
      ResultsRecorded(w, i, content, calls, n - 1);
    }
  }

  lemma {:induction false} RoundsConcat(a: seq<RoundRecord>, b: seq<RoundRecord>)
    requires AllProper(a) && AllProper(b)
    ensures RoundsMessages(a + b) == RoundsMessages(a) + RoundsMessages(b)
  {
    hide RoundMessages;
    if b == [] {
      assert a + b == a;
    } else {
      var front, last := b[..|b| - 1], b[|b| - 1];
      RoundsConcat(a, front);
      assert (a + b)[..|a + b| - 1] == a + front;
      Reassociate(RoundsMessages(a), RoundsMessages(front), RoundMessages(last));
    }
  }

  lemma Reassociate(a: seq<Message>, b: seq<Message>, c: seq<Message>)
    ensures (a + b) + c == a + (b + c)
  {
  }

  /** Without context errors the iterations append complete rounds to the session and to the request alike. */
  lemma {:induction false} IterateRecords(w: World, i: nat, max: nat, p: Progress) returns (rs: seq<RoundRecord>)
    requires NoContextErrors(w, max)
    ensures rs == [] || |rs| <= max - i
    ensures AllProper(rs) && Iterate(w, i, max, p).0.session == p.session + RoundsMessages(rs)
    decreases max - i
  {
    NoRounds();
    hide Round, BuildMessages, Ask, RoundsMessages, Recorded, Proper;
    rs := [];
    assert p.session + [] == p.session;
    if i < max {
      AskOnce(w, i, max, p);
      var reply := w.llm(i, 0);
      if reply.Answer? && reply.calls != [] {
        var r := Recorded(w, i, reply.content, reply.calls);
        var rest := IterateRecords(w, i + 1, max, Added(Sent(p), Round(w, i, reply.content, reply.calls)));
        rs := [r] + rest;
        OneRound(w, i, reply.content, reply.calls);
        RoundsConcat([r], rest);
        Reassociate(p.session, RoundsMessages([r]), RoundsMessages(rest));
      }
    }
  }

  lemma NoRounds()
    ensures RoundsMessages([]) == []
  {
  }

  lemma AskOnce(w: World, i: nat, max: nat, p: Progress)
    requires NoContextErrors(w, max) && i < max
    ensures Ask(w, i, 0, p) == (Sent(p), w.llm(i, 0))
  {
    assert !Again(w.llm(i, 0), 0);
  }

  lemma OneRound(w: World, i: nat, content: string, calls: seq<ToolCall>)
    requires calls != []
    ensures AllProper([Recorded(w, i, content, calls)])
    ensures RoundsMessages([Recorded(w, i, content, calls)]) == Round(w, i, content, calls)
  {
    var r := Recorded(w, i, content, calls);
    ResultsRecorded(w, i, content, calls, |calls|);
    assert [r][..0] == [];
    assert [] + RoundMessages(r) == RoundMessages(r);
  }

  /** Without context errors a turn records the user's message, complete tool rounds, and the final answer
      unless the provider failed. */
  lemma TurnRecords(w: World, systemPrompt: string, history: seq<Message>, noHistory: bool, user: string,
                    defaultResponse: string, max: nat) returns (t: TurnRecord)
    requires NoContextErrors(w, max)
    ensures AllProper(t.rounds) && t.user == user
    ensures var (p, end) := Turn(w, systemPrompt, history, noHistory, user, defaultResponse, max);
            p.session == history + TurnMessages(t) && t.final == if end.Finished? then Some(end.content) else None
  {
    hide Iterate, BuildMessages, RoundsMessages;
    var messages := BuildMessages(systemPrompt, if noHistory then [] else history, user);
    var p0 := Progress(history + [Plain(User, user)], messages, []);
    var rs := IterateRecords(w, 0, max, p0);
    var (p, end) := Turn(w, systemPrompt, history, noHistory, user, defaultResponse, max);
    t := TurnRecord(user, rs, if end.Finished? then Some(end.content) else None);
    var a, b := [Plain(User, user)], RoundsMessages(rs);
    if end.Finished? {
      var c := [Plain(Assistant, end.content)];
      assert history + a + b + c == history + (a + b + c);
    } else {
      assert history + a + b == history + (a + b + []);
    }
  }

  /** The requests of a turn have one system message each, and they are all acceptable exactly when the first one
      ends with the user or a tool, if a tool round and a request follow it, and every compression that these
      follow leaves a user's message in the session. */
  lemma TurnRequests(w: World, systemPrompt: string, history: seq<Message>, noHistory: bool, user: string,
                     defaultResponse: string, max: nat)
    ensures var requests := Turn(w, systemPrompt, history, noHistory, user, defaultResponse, max).0.requests;
            && AllOneSystem(requests)
            && (AllAcceptable(requests, 0) <==>
                  Guarded(w, 0, max, history + [Plain(User, user)], StartsOpen(history, noHistory, user), UserSurvives))
  {
    var h := if noHistory then [] else history;
    var m, session := BuildMessages(systemPrompt, h, user), history + [Plain(User, user)];
    var p := Progress(session, m, []);
    BuildIsAcceptable(systemPrompt, h, user);
    AcceptableHasOneSystem(m);
    BuildOpensExactly(systemPrompt, h, user);
    TurnBegins(history, user);
    hide Iterate, Guarded, BuildMessages, Acceptable, OneSystem, RepairIsOpen;
    RequestsHaveOneSystem(w, 0, max, p);
    RequestsAcceptableExactly(w, 0, max, p);
    GuardsAgree(w, 0, max, session, Open(m));
  }

  /** A first open request, and no context error, at most two iterations, or a stored conversation that begins with
      the user: such a turn makes acceptable requests only, whatever provider and tools do. */
  lemma TurnsAcceptable(w: World, systemPrompt: string, history: seq<Message>, noHistory: bool, user: string,
                        defaultResponse: string, max: nat)
    requires StartsOpen(history, noHistory, user) || max <= 1
    requires NoContextErrors(w, max) || max <= 2 || history == [] || history[0].role == User
    ensures AllAcceptable(Turn(w, systemPrompt, history, noHistory, user, defaultResponse, max).0.requests, 0)
  {
    hide Turn, StartsOpen, Guarded, AllAcceptable, AllOneSystem, NoContextErrors, UserSurvives;
    var session := history + [Plain(User, user)];
    TurnRequests(w, systemPrompt, history, noHistory, user, defaultResponse, max);
    if max <= 1 {
      OneIteration(w, max, session, StartsOpen(history, noHistory, user));
    } else if NoContextErrors(w, max) {
      NoErrorsGuarded(w, 0, max, session);
    } else if max == 2 {
      TwoIterations(w, session);
    } else {
      UserFirstGuarded(w, 0, max, session);
    }
  }

  lemma OneIteration(w: World, max: nat, s: seq<Message>, open: bool)
    requires max <= 1
    ensures Guarded(w, 0, max, s, open, UserSurvives)
  {
  }

  lemma TwoIterations(w: World, s: seq<Message>)
    requires s != [] && s[|s| - 1].role == User
    ensures Guarded(w, 0, 2, s, true, UserSurvives)
  {
    hide Errors, Reply, Round, CompressedTimes, UserSurvives;
    var n := Errors(w, 0, 0);
    if n > 0 {
      UserStaysLast(s, w.note, n - 1);
      LastUserSurvives(CompressedTimes(s, w.note, n - 1));
    }
  }

  lemma {:induction false} NoErrorsGuarded(w: World, i: nat, max: nat, s: seq<Message>)
    requires NoContextErrors(w, max)
    ensures Guarded(w, i, max, s, true, UserSurvives)
    decreases max - i
  {
    hide Round;
    if i + 1 < max {
      assert !Again(w.llm(i, 0), 0);
      var reply := Reply(w, i);
      if reply.Answer? {
        NoErrorsGuarded(w, i + 1, max, s + Round(w, i, reply.content, reply.calls));
      }
    }
  }

  // ---------------------------------------------------------------- what compression leaves open

  /** The latest message that is neither a system message, nor tool-calling, nor a result. */
  function Speaker(h: seq<Message>): Option<Message> {
    if h == [] then None
    else
      var m := h[|h| - 1];
      if m.role == System || m.role == Tool || Calls(m) then Speaker(h[..|h| - 1]) else Some(m)
  }

  /** The latest message that is no system message calls tools. */
  predicate EndsWithCalls(h: seq<Message>) {
    h != [] && var m := h[|h| - 1]; if m.role == System then EndsWithCalls(h[..|h| - 1]) else Calls(m)
  }

  /** The user has spoken last, and no tool call is left without a result behind it. */
  predicate RepairIsOpen(h: seq<Message>) {
    Speaker(h).Some? && Speaker(h).value.role == User && !EndsWithCalls(h)
  }

  /** Who has spoken last fixes what the repaired history ends with. */
  lemma {:induction false} SpeakerFixesState(h: seq<Message>)
    ensures var s := StateOf(Sanitize(h));
            && (Speaker(h).None? ==> s == Start)
            && (Speaker(h).Some? && Speaker(h).value.role != User ==> s == AfterOther)
            && (Speaker(h).Some? && Speaker(h).value.role == User ==>
                  s == if EndsWithCalls(h) then AfterCalls else if s == AfterTool then AfterTool else AfterUser)
  {
    if h != [] {
      SpeakerFixesState(h[..|h| - 1]);
    }
  }

  predicate StartsOpen(history: seq<Message>, noHistory: bool, user: string) {
    Text.TrimSpace(user) != "" || (!noHistory && RepairIsOpen(history))
  }

  /** The request built from a history and a message is open exactly when the message is not blank or the user has
      spoken last in the history and no tool call is left without a result. */
  lemma BuildOpensExactly(systemPrompt: string, h: seq<Message>, user: string)
    ensures Open(BuildMessages(systemPrompt, h, user)) <==> Text.TrimSpace(user) != "" || RepairIsOpen(h)
  {
    hide RepairIsOpen, Acceptable, Open;
    BuildIsAcceptable(systemPrompt, h, user);
    var request := BuildMessages(systemPrompt, h, user);
    OpenIsState(request);
    if Text.TrimSpace(user) != "" {
      assert request[1..] == Sanitize(h) + [Plain(User, user)];
    } else {
      assert request[1..] == Sanitize(h);
      RepairedState(h);
    }
  }

  lemma RepairedState(h: seq<Message>)
    ensures RepairIsOpen(h) <==> StateOf(Sanitize(h)) == AfterUser || StateOf(Sanitize(h)) == AfterTool
  {
    hide Sanitize, Speaker, EndsWithCalls;
    SpeakerFixesState(h);
  }

  /** The messages compression keeps, but for the note added to the first. */
  function KeptBy(h: seq<Message>): seq<Message> {
    if |h| <= 4 then h else [h[0]] + h[1 + (|h| - 2) / 2..]
  }

  predicate KeptIsOpen(h: seq<Message>) {
    RepairIsOpen(KeptBy(h))
  }

  /** The request rebuilt after a compression is open exactly when, among the messages kept, the user has spoken last
      and no tool call is left without a result: for every history, long enough to be compressed or not. */
  lemma CompressedOpensExactly(systemPrompt: string, h: seq<Message>, note: Note)
    ensures Open(BuildMessages(systemPrompt, Compressed(h, note), "")) <==> KeptIsOpen(h)
  {
    hide Compressed, BuildMessages, Open, RepairIsOpen, KeptBy, Alike;
    assert Text.TrimSpace("") == "";
    BuildOpensExactly(systemPrompt, Compressed(h, note), "");
    CompressedIsAlike(h, note);
    AlikeOpen(Compressed(h, note), KeptBy(h));
  }

  /** The same roles and tool calls at the same places. */
  ghost predicate Alike(a: seq<Message>, b: seq<Message>) {
    |a| == |b| && forall k :: 0 <= k < |a| ==> a[k].role == b[k].role && a[k].toolCalls == b[k].toolCalls
  }

  lemma CompressedIsAlike(h: seq<Message>, note: Note)
    ensures Alike(Compressed(h, note), KeptBy(h))
  {
    if 4 < |h| {
      CompressionDrops(h, note);
      var c, k := Compressed(h, note), KeptBy(h);
      forall x | 1 <= x < |c| ensures c[x] == k[x] {
        assert c[x] == c[1..][x - 1];
      }
    }
  }

  lemma AlikeOpen(a: seq<Message>, b: seq<Message>)
    requires Alike(a, b)
    ensures RepairIsOpen(a) == RepairIsOpen(b)
  {
    AlikeSpeak(a, b);
  }

  lemma {:induction false} AlikeSpeak(a: seq<Message>, b: seq<Message>)
    requires Alike(a, b)
    ensures Speaker(a).Some? == Speaker(b).Some?
            && (Speaker(a).Some? ==> Speaker(a).value.role == Speaker(b).value.role)
    ensures EndsWithCalls(a) == EndsWithCalls(b)
  {
    if a != [] {
      AlikeSpeak(a[..|a| - 1], b[..|b| - 1]);
    }
  }

  /** After a compression a tool round gives an acceptable request exactly when the messages kept are open. */
  lemma CompressionClosesExactly(systemPrompt: string, h: seq<Message>, note: Note, w: World, i: nat, content: string,
                                 calls: seq<ToolCall>)
    requires calls != []
    ensures Acceptable(BuildMessages(systemPrompt, Compressed(h, note), "") + Round(w, i, content, calls)) <==>
              KeptIsOpen(h)
  {
    hide *;
    var request := BuildMessages(systemPrompt, Compressed(h, note), "");
    BuildIsAcceptable(systemPrompt, Compressed(h, note), "");
    RequestFits(request, w, i, content, calls);
    CompressedOpensExactly(systemPrompt, h, note);
  }

  // ---------------------------------------------------------------- sessions during a turn

  predicate HasUser(h: seq<Message>) {
    exists k :: 0 <= k < |h| && h[k].role == User
  }

  /** One of the messages that compression keeps is the user's. */
  predicate UserSurvives(h: seq<Message>) {
    HasUser(KeptBy(h))
  }

  /** A session that is worked on: open, unless compression took its last user's message. */
  predicate InTurn(h: seq<Message>) {
    HasUser(h) ==> RepairIsOpen(h)
  }

  predicate AllSystem(h: seq<Message>) {
    forall k :: 0 <= k < |h| ==> h[k].role == System
  }

  lemma {:induction false} SpeakerInTail(a: seq<Message>, b: seq<Message>)
    ensures Speaker(a + b) == if Speaker(b).Some? then Speaker(b) else Speaker(a)
    ensures EndsWithCalls(a + b) == EndsWithCalls(if AllSystem(b) then a else b)
  {
    if b == [] {
      assert a + b == a;
    } else {
      var front, last := b[..|b| - 1], b[|b| - 1];
      SpeakerInTail(a, front);
      assert (a + b)[..|a + b| - 1] == a + front && (a + b)[|a + b| - 1] == last;
      LastSystem(front, last);
      assert b == front + [last];
      hide AllSystem, Calls;
    }
  }

  lemma LastSystem(front: seq<Message>, last: Message)
    ensures AllSystem(front + [last]) <==> AllSystem(front) && last.role == System
  {
    var b := front + [last];
    assert b[|front|] == last;
    assert forall k :: 0 <= k < |front| ==> b[k] == front[k];
  }

  lemma {:induction false} SpeakerIsThere(h: seq<Message>)
    ensures Speaker(h).Some? ==> Speaker(h).value in h
    ensures Speaker(h).None? ==> !HasUser(h)
  {
    if h != [] {
      SpeakerIsThere(h[..|h| - 1]);
      assert h == h[..|h| - 1] + [h[|h| - 1]];
    }
  }

  lemma OpenHasUser(h: seq<Message>)
    requires RepairIsOpen(h)
    ensures HasUser(h)
  {
    SpeakerIsThere(h);
    var k :| 0 <= k < |h| && h[k] == Speaker(h).value;
  }

  /** During a turn compression leaves an open conversation exactly when it keeps a user's message. */
  lemma SurvivalOpens(h: seq<Message>)
    requires InTurn(h)
    ensures KeptIsOpen(h) <==> UserSurvives(h)
    ensures InTurn(KeptBy(h))
  {
    var c := KeptBy(h);
    if RepairIsOpen(c) {
      OpenHasUser(c);
    }
    if HasUser(c) && 4 < |h| {
      KeptWithUserIsOpen(h);
    }
  }

  lemma KeptWithUserIsOpen(h: seq<Message>)
    requires InTurn(h) && 4 < |h| && HasUser(KeptBy(h))
    ensures RepairIsOpen(KeptBy(h))
  {
    var n := 1 + (|h| - 2) / 2;
    var a, b, c := h[..n], h[n..], [h[0]] + h[n..];
    assert h == a + b && c == KeptBy(h);
    var k :| 0 <= k < |c| && c[k].role == User;
    assert HasUser(h) by {
      assert h[if k == 0 then 0 else n + k - 1].role == User;
    }
    SpeakerInTail(a, b);
    SpeakerInTail([h[0]], b);
    SpeakerIsThere(b);
    assert k > 0 ==> c[k] in b;
    if Speaker(b).None? {
      assert [h[0]][..0] == [];
    } else {
      assert Speaker(b).value in b;
    }
  }

  /** Compressing once more. */
  lemma CompressedInTurn(s: seq<Message>, note: Note)
    requires InTurn(s)
    ensures InTurn(Compressed(s, note))
  {
    SurvivalOpens(s);
    CompressedIsAlike(s, note);
    AlikeInTurn(Compressed(s, note), KeptBy(s));
  }

  lemma AlikeInTurn(a: seq<Message>, b: seq<Message>)
    requires Alike(a, b) && InTurn(b)
    ensures InTurn(a)
  {
    AlikeOpen(a, b);
    hide RepairIsOpen;
    if HasUser(a) {
      var k :| 0 <= k < |a| && a[k].role == User;
      assert b[k].role == User;
    }
  }

  lemma {:induction false} CompressedTimesInTurn(s: seq<Message>, note: Note, n: nat)
    requires InTurn(s)
    ensures InTurn(CompressedTimes(s, note, n))
    decreases n
  {
    hide InTurn, Compressed;
    if n > 0 {
      CompressedInTurn(s, note);
      CompressedTimesInTurn(Compressed(s, note), note, n - 1);
    }
  }

  /** A tool round leaves who has spoken last, and ends with a result. */
  lemma RoundInTurn(s: seq<Message>, w: World, i: nat, content: string, calls: seq<ToolCall>)
    requires InTurn(s) && calls != []
    ensures InTurn(s + Round(w, i, content, calls))
  {
    var r := Round(w, i, content, calls);
    ResultsAreTools(w, i, calls, |calls|);
    assert forall k :: 1 <= k < |r| ==> r[k] == Results(w, i, calls, |calls|)[k - 1];
    assert Calls(r[0]) && r[|r| - 1] in r && r[|r| - 1].role == Tool;
    RoundSpeaksNot(r);
    hide Round, Results;
    SpeakerInTail(s, r);
    assert forall x :: |s| <= x < |s + r| ==> (s + r)[x] in r;
    if HasUser(s + r) {
      var k :| 0 <= k < |s + r| && (s + r)[k].role == User;
      assert s[k].role == User;
    }
  }

  lemma {:induction false} RoundSpeaksNot(r: seq<Message>)
    requires forall k :: 0 <= k < |r| ==> r[k].role == Tool || Calls(r[k])
    ensures Speaker(r) == None
  {
    if r != [] {
      RoundSpeaksNot(r[..|r| - 1]);
    }
  }

  lemma TurnBegins(history: seq<Message>, user: string)
    ensures InTurn(history + [Plain(User, user)])
  {
    var s := history + [Plain(User, user)];
    assert s[|s| - 1] == Plain(User, user);
  }

  /** During a turn the two guards agree. */
  lemma {:induction false} GuardsAgree(w: World, i: nat, max: nat, s: seq<Message>, open: bool)
    requires InTurn(s)
    ensures Guarded(w, i, max, s, open, KeptIsOpen) <==> Guarded(w, i, max, s, open, UserSurvives)
    decreases max - i
  {
    hide InTurn, Round, CompressedTimes, KeptIsOpen, UserSurvives, Errors;
    if i + 1 < max {
      var n, reply := Errors(w, i, 0), Reply(w, i);
      if reply.Answer? && reply.calls != [] {
        if n > 0 {
          CompressedTimesInTurn(s, w.note, n - 1);
          SurvivalOpens(CompressedTimes(s, w.note, n - 1));
        }
        CompressedTimesInTurn(s, w.note, n);
        var next := CompressedTimes(s, w.note, n);
        RoundInTurn(next, w, i, reply.content, reply.calls);
        GuardsAgree(w, i + 1, max, next + Round(w, i, reply.content, reply.calls), true);
      }
    }
  }

  /** A session that begins with the user keeps that message through every compression. */
  lemma {:induction false} UserFirstGuarded(w: World, i: nat, max: nat, s: seq<Message>)
    requires s != [] && s[0].role == User
    ensures Guarded(w, i, max, s, true, UserSurvives)
    decreases max - i
  {
    hide Round, CompressedTimes, UserSurvives, Errors;
    if i + 1 < max {
      var n, reply := Errors(w, i, 0), Reply(w, i);
      UserStaysFirst(s, w.note, n);
      if n > 0 {
        UserStaysFirst(s, w.note, n - 1);
        FirstUserSurvives(CompressedTimes(s, w.note, n - 1));
      }
      if reply.Answer? {
        UserFirstGuarded(w, i + 1, max, CompressedTimes(s, w.note, n) + Round(w, i, reply.content, reply.calls));
      }
    }
  }

  lemma FirstUserSurvives(s: seq<Message>)
    requires s != [] && s[0].role == User
    ensures UserSurvives(s)
  {
    assert KeptBy(s)[0].role == User;
  }

  lemma {:induction false} UserStaysFirst(s: seq<Message>, note: Note, n: nat)
    requires s != [] && s[0].role == User
    ensures var c := CompressedTimes(s, note, n); c != [] && c[0].role == User
    decreases n
  {
    hide Compressed;
    if n > 0 {
      CompressedKeepsFirst(s, note);
      UserStaysFirst(Compressed(s, note), note, n - 1);
    }
  }

  lemma CompressedKeepsFirst(s: seq<Message>, note: Note)
    requires s != []
    ensures Compressed(s, note) != [] && Compressed(s, note)[0].role == s[0].role
  {
    if 4 < |s| {
      CompressionDrops(s, note);
    }
  }

  lemma {:induction false} UserStaysLast(s: seq<Message>, note: Note, n: nat)
    requires s != [] && s[|s| - 1].role == User
    ensures var c := CompressedTimes(s, note, n); c != [] && c[|c| - 1].role == User
    decreases n
  {
    hide Compressed;
    if n > 0 {
      CompressedKeepsLast(s, note);
      UserStaysLast(Compressed(s, note), note, n - 1);
    }
  }

  lemma CompressedKeepsLast(s: seq<Message>, note: Note)
    requires s != []
    ensures var c := Compressed(s, note); c != [] && c[|c| - 1] == s[|s| - 1]
  {
  }

  lemma LastUserSurvives(s: seq<Message>)
    requires s != [] && s[|s| - 1].role == User
    ensures UserSurvives(s)
  {
    var k := KeptBy(s);
    assert k[|k| - 1] == s[|s| - 1];
  }

  // ---------------------------------------------------------------- turns that compression closes

  const CALL := ToolCall("id", "tool", "")

  /** A provider that asks for `n` calls first, then has a context error, and from then on asks for one call. */
  function Closing(systemPrompt: string, note: Note, n: nat): World {
    World((i, r) => if i == 1 && r == 0 then Failure(true)
                    else Answer("", if i == 0 then seq(n, _ => CALL) else [CALL]),
          (i, r) => systemPrompt, (i, k) => "", note)
  }

  lemma ClosingReplies(systemPrompt: string, note: Note, n: nat)
    ensures var w := Closing(systemPrompt, note, n);
            && Errors(w, 0, 0) == 0 && Reply(w, 0) == Answer("", seq(n, _ => CALL))
            && Errors(w, 1, 0) == 1 && Reply(w, 1) == Answer("", [CALL])
  {
  }

  /** The first round: a call message and `n` results. */
  lemma ClosingRound(w: World, n: nat)
    ensures var r := Round(w, 0, "", seq(n, _ => CALL));
            |r| == n + 1 && forall k :: 0 <= k < |r| ==> r[k].role != User
  {
    var calls := seq(n, _ => CALL);
    ResultsAreTools(w, 0, calls, n);
    var r := Round(w, 0, "", calls);
    forall k | 0 <= k < |r| ensures r[k].role != User {
      if k > 0 {
        assert r[k] == Results(w, 0, calls, n)[k - 1];
      }
    }
  }

  /** With more results than there was history, compression drops everything up to the user's message. */
  lemma UserIsDropped(history: seq<Message>, user: Message, round: seq<Message>)
    requires history != [] && history[0].role != User && |round| == |history| + 2
    requires forall k :: 0 <= k < |round| ==> round[k].role != User
    ensures !UserSurvives(history + [user] + round)
  {
    var s, n := history + [user] + round, |history|;
    assert |s| == 2 * n + 3 && s[0] == history[0];
    var k := KeptBy(s);
    assert k == [s[0]] + s[n + 1..];
    forall x | 0 <= x < |k| ensures k[x].role != User {
      if x > 0 {
        assert k[x] == round[x - 1];
      }
    }
  }

  /** Every other stored conversation has a turn with a request that is not acceptable, from three iterations on. */
  lemma CompressionCanClose(systemPrompt: string, history: seq<Message>, noHistory: bool, user: string,
                            defaultResponse: string, max: nat, note: Note)
    returns (w: World)
    requires 3 <= max && history != [] && history[0].role != User
    ensures !AllAcceptable(Turn(w, systemPrompt, history, noHistory, user, defaultResponse, max).0.requests, 0)
  {
    var n := |history| + 1;
    var calls, session := seq(n, _ => CALL), history + [Plain(User, user)];
    w := Closing(systemPrompt, note, n);
    ClosingReplies(systemPrompt, note, n);
    ClosingRound(w, n);
    var round := Round(w, 0, "", calls);
    UserIsDropped(history, Plain(User, user), round);
    hide Turn, Round, Errors, Reply, UserSurvives, Closing, StartsOpen, AllAcceptable, AllOneSystem;
    TurnRequests(w, systemPrompt, history, noHistory, user, defaultResponse, max);
    SecondFails(w, max, session + round);
    FirstLeads(w, max, session, StartsOpen(history, noHistory, user), calls);
  }

  lemma FirstLeads(w: World, max: nat, s: seq<Message>, open: bool, calls: seq<ToolCall>)
    requires 3 <= max && calls != [] && Errors(w, 0, 0) == 0 && Reply(w, 0) == Answer("", calls)
    ensures Guarded(w, 0, max, s, open, UserSurvives) ==>
              open && Guarded(w, 1, max, s + Round(w, 0, "", calls), true, UserSurvives)
  {
    hide Errors, Reply, Round, UserSurvives;
  }

  lemma SecondFails(w: World, max: nat, s: seq<Message>)
    requires 3 <= max && Errors(w, 1, 0) == 1 && Reply(w, 1) == Answer("", [CALL]) && !UserSurvives(s)
    ensures !Guarded(w, 1, max, s, true, UserSurvives)
  {
    hide Errors, Reply, Round, UserSurvives;
    assert CompressedTimes(s, w.note, 0) == s;
  }

  /** A blank message behind a history that does not end open: one tool call makes the next request unacceptable. */
  lemma BlankCanClose(systemPrompt: string, history: seq<Message>, noHistory: bool, user: string,
                      defaultResponse: string, max: nat, note: Note)
    returns (w: World)
    requires 2 <= max && !StartsOpen(history, noHistory, user)
    ensures !AllAcceptable(Turn(w, systemPrompt, history, noHistory, user, defaultResponse, max).0.requests, 0)
  {
    w := Closing(systemPrompt, note, 1);
    ClosingReplies(systemPrompt, note, 1);
    assert |seq(1, _ => CALL)| == 1;
    hide Turn, Round, Errors, Reply, Closing, StartsOpen, AllAcceptable, AllOneSystem;
    TurnRequests(w, systemPrompt, history, noHistory, user, defaultResponse, max);
  }

  /** The requests of a turn are acceptable whatever provider and tools do if and only if the turn has at most one
      iteration, or its first request is open and it has at most two, or the stored conversation begins with the
      user. */
  lemma TurnsAcceptableExactly(systemPrompt: string, history: seq<Message>, noHistory: bool, user: string,
                               defaultResponse: string, max: nat)
    ensures (forall w: World ::
               AllAcceptable(Turn(w, systemPrompt, history, noHistory, user, defaultResponse, max).0.requests, 0)) <==>
              max <= 1 ||
              (StartsOpen(history, noHistory, user) && (max <= 2 || history == [] || history[0].role == User))
  {
    hide Turn, StartsOpen, AllAcceptable;
    var note: Note := n => "";
    if max <= 1 || (StartsOpen(history, noHistory, user) && (max <= 2 || history == [] || history[0].role == User)) {
      forall w: World
        ensures AllAcceptable(Turn(w, systemPrompt, history, noHistory, user, defaultResponse, max).0.requests, 0)
      {
        TurnsAcceptable(w, systemPrompt, history, noHistory, user, defaultResponse, max);
      }
    } else if !StartsOpen(history, noHistory, user) {
      var w := BlankCanClose(systemPrompt, history, noHistory, user, defaultResponse, max, note);
    } else {
      var w := CompressionCanClose(systemPrompt, history, noHistory, user, defaultResponse, max, note);
    }
  }

  // ---------------------------------------------------------------- recorded sessions need no repair

  lemma {:induction false} ResultMessagesFit(h: seq<Message>, r: RoundRecord, n: nat)
    requires n <= |r.calls| == |r.results| && WellFormed(h) && (StateOf(h) == AfterCalls || StateOf(h) == AfterTool)
    ensures WellFormed(h + ResultMessages(r, n))
    ensures StateOf(h + ResultMessages(r, n)) == if n == 0 then StateOf(h) else AfterTool
  {
    if n == 0 {
      assert h + [] == h;
    } else {
      ResultMessagesFit(h, r, n - 1);
      var g, m := h + ResultMessages(r, n - 1), Message(Tool, r.results[n - 1], [], r.calls[n - 1].id);
      assert h + ResultMessages(r, n) == g + [m];
      AppendFits(g, m);
    }
  }

  lemma {:induction false} RoundsFit(h: seq<Message>, rs: seq<RoundRecord>)
    requires AllProper(rs) && WellFormed(h) && (StateOf(h) == AfterUser || StateOf(h) == AfterTool)
    ensures WellFormed(h + RoundsMessages(rs))
    ensures var s := StateOf(h + RoundsMessages(rs)); s == AfterUser || s == AfterTool
  {
    hide WellFormed, ResultMessages;
    if rs == [] {
      assert h + [] == h;
    } else {
      var front, r := rs[..|rs| - 1], rs[|rs| - 1];
      assert Proper(r);
      RoundsFit(h, front);
      var f, a, b := RoundsMessages(front), AssistantCalls(r.content, r.calls), ResultMessages(r, |r.calls|);
      AppendFits(h + f, a);
      ResultMessagesFit(h + f + [a], r, |r.calls|);
      Regroup(h, f, [a], b);
    }
  }

  lemma Regroup(h: seq<Message>, f: seq<Message>, a: seq<Message>, b: seq<Message>)
    ensures h + (f + (a + b)) == h + f + a + b
    ensures h + (f + a + b) == h + f + a + b
  {
  }

  /** Sessions made of recorded turns alone are well-formed, so the repair passes them unchanged. */
  lemma {:induction false} SessionsNeedNoRepair(ts: seq<TurnRecord>)
    requires forall i :: 0 <= i < |ts| ==> AllProper(ts[i].rounds)
    ensures WellFormed(SessionOf(ts)) && Sanitize(SessionOf(ts)) == SessionOf(ts)
  {
    hide WellFormed, RoundsMessages, Sanitize;
    if ts == [] {
      Nothing();
    } else {
      var front, t := ts[..|ts| - 1], ts[|ts| - 1];
      SessionsNeedNoRepair(front);
      var h, u, b := SessionOf(front), Plain(User, t.user), RoundsMessages(t.rounds);
      AppendFits(h, u);
      RoundsFit(h + [u], t.rounds);
      var c := if t.final.Some? then [Plain(Assistant, t.final.value)] else [];
      var g := h + [u] + b;
      Regroup(h, [u], b, c);
      if t.final.Some? {
        AppendFits(g, Plain(Assistant, t.final.value));
      } else {
        assert g + c == g;
      }
      FixpointsAreWellFormed(SessionOf(ts));
    }
  }

  lemma Nothing()
    ensures WellFormed([]) && Sanitize([]) == []
  {
  }

  /** What one turn is given. */
  datatype Given = Given(w: World, systemPrompt: string, noHistory: bool, user: string,
                           defaultResponse: string, max: nat)

  /** The stored conversation after these turns, from a new session. */
  function StoredAfter(gs: seq<Given>): seq<Message> {
    if gs == [] then []
    else
      var g := gs[|gs| - 1];
      Turn(g.w, g.systemPrompt, StoredAfter(gs[..|gs| - 1]), g.noHistory, g.user, g.defaultResponse, g.max).0.session
  }

  ghost predicate Calm(gs: seq<Given>) {
    forall k :: 0 <= k < |gs| ==> NoContextErrors(gs[k].w, gs[k].max)
  }

  ghost predicate AllRecorded(ts: seq<TurnRecord>) {
    forall k :: 0 <= k < |ts| ==> AllProper(ts[k].rounds)
  }

  /** Over any turns without context errors, the stored conversation is made of their records alone, and passes the
      repair unchanged. */
  lemma {:induction false} RunsNeedNoRepair(gs: seq<Given>) returns (ts: seq<TurnRecord>)
    requires Calm(gs)
    ensures |ts| == |gs| && AllRecorded(ts) && (forall k :: 0 <= k < |ts| ==> ts[k].user == gs[k].user)
    ensures StoredAfter(gs) == SessionOf(ts)
    ensures WellFormed(StoredAfter(gs)) && Sanitize(StoredAfter(gs)) == StoredAfter(gs)
  {
    hide Turn, TurnMessages, WellFormed, Sanitize, NoContextErrors, AllProper;
    ts := [];
    if gs != [] {
      var front, g := gs[..|gs| - 1], gs[|gs| - 1];
      var before := RunsNeedNoRepair(front);
      var t := TurnRecords(g.w, g.systemPrompt, StoredAfter(front), g.noHistory, g.user, g.defaultResponse, g.max);
      ts := before + [t];
      assert ts[..|ts| - 1] == before;
    }
    SessionsNeedNoRepair(ts);
  }
}
