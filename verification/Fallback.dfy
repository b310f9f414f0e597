/** The fallback chain over model candidates (pkg/providers/fallback.go:86-192). */
module Fallback {
  import opened Options
  import opened Cooldown

  datatype Candidate = Candidate(provider: string, model: string)

  datatype Reply<R, E> = Ok(response: R) | Err(error: E)

  /** What the surroundings do while one candidate has its turn: whether the context is cancelled before and
      after the call, the clock when availability is checked and when the call has returned, and the reply. */
  datatype Turn<R, E> = Turn(cancelledBefore: bool, checkAt: int, reply: Reply<R, E>, cancelledAfter: bool, doneAt: int)

  datatype AttemptError<E> = InCooldown(remaining: int) | Raw(error: E) | Classified(error: E, why: Reason)

  datatype Attempt<E> = Attempt(provider: string, model: string, error: AttemptError<E>, reason: Option<Reason>,
                                skipped: bool)

  datatype Outcome<R, E> =
    | NoCandidates
    | Cancelled
    | Success(response: R, provider: string, model: string)
    | Unclassified(error: E)
    | NotRetriable(error: E, why: Reason)
    | Exhausted

  /** What a call did: its outcome, its attempts, the candidates it ran and the tracker it left. */
  datatype Result<R, E> = Result(outcome: Outcome<R, E>, attempts: seq<Attempt<E>>, calls: seq<nat>, tracked: Tracked)

  predicate IsRetriable(r: Reason) {
    r != Format
  }

  /** A classifier of provider errors; None for an error it does not know. */
  type Classifier<!E> = E -> Option<Reason>

  // ---------------------------------------------------------------- one candidate

  datatype Decision<R, E> =
    | Abort
    | Skip(remaining: int)
    | Done(response: R)
    | Interrupted(error: E)
    | Unknown(error: E)
    | Fatal(error: E, why: Reason)
    | Retry(error: E, why: Reason)
  {
    predicate GoesOn() {
      Skip? || Retry?
    }

    predicate Ran() {
      !Abort? && !Skip?
    }
  }

  function Decide<R, E>(t: Tracked, c: Candidate, turn: Turn<R, E>, classify: Classifier<E>): Decision<R, E> {
    if turn.cancelledBefore then Abort
    else if !Available(Get(t, c.provider), turn.checkAt) then Skip(Remaining(Get(t, c.provider), turn.checkAt))
    else if turn.reply.Ok? then Done(turn.reply.response)
    else if turn.cancelledAfter then Interrupted(turn.reply.error)
    else
      match classify(turn.reply.error)
      case None => Unknown(turn.reply.error)
      case Some(r) => if IsRetriable(r) then Retry(turn.reply.error, r) else Fatal(turn.reply.error, r)
  }

  /** The attempts a decision adds to the record. */
  function Recorded<R, E>(c: Candidate, d: Decision<R, E>): seq<Attempt<E>> {
    match d
    case Abort => []
    case Done(_) => []
    case Skip(remaining) => [Attempt(c.provider, c.model, InCooldown(remaining), Some(RateLimit), true)]
    case Interrupted(e) => [Attempt(c.provider, c.model, Raw(e), None, false)]
    case Unknown(e) => [Attempt(c.provider, c.model, Raw(e), None, false)]
    case Fatal(e, r) => [Attempt(c.provider, c.model, Classified(e, r), Some(r), false)]
    case Retry(e, r) => [Attempt(c.provider, c.model, Classified(e, r), Some(r), false)]
  }

  /** How a decision changes the tracker. */
  function Marks<R, E>(t: Tracked, c: Candidate, turn: Turn<R, E>, d: Decision<R, E>): Tracked {
    match d
    case Done(_) => MarkedSuccess(t, c.provider)
    case Retry(_, r) => MarkedFailure(t, c.provider, r, turn.doneAt)
    case _ => t
  }

  function Verdict<R, E>(c: Candidate, d: Decision<R, E>): Outcome<R, E>
    requires !d.GoesOn()
  {
    match d
    case Abort => Cancelled
    case Done(resp) => Success(resp, c.provider, c.model)
    case Interrupted(_) => Cancelled
    case Unknown(e) => Unclassified(e)
    case Fatal(e, r) => NotRetriable(e, r)
  }

  // ---------------------------------------------------------------- the chain

  /** The chain from candidate `i` on, with `so` done so far. */
  function RunFrom<R, E>(cs: seq<Candidate>, env: seq<Turn<R, E>>, classify: Classifier<E>, i: nat, so: Result<R, E>)
    : Result<R, E>
    requires i <= |cs| <= |env|
    decreases |cs| - i
  {
    if i == |cs| then so
    else
      var d := Decide(so.tracked, cs[i], env[i], classify);
      var next := Advance(cs[i], env[i], i, d, so);
      if d.GoesOn() then RunFrom(cs, env, classify, i + 1, next) else next.(outcome := Verdict(cs[i], d))
  }

  function Advance<R, E>(c: Candidate, turn: Turn<R, E>, i: nat, d: Decision<R, E>, so: Result<R, E>): Result<R, E> {
    so.(attempts := so.attempts + Recorded(c, d),
        calls := if d.Ran() then so.calls + [i] else so.calls,
        tracked := Marks(so.tracked, c, turn, d))
  }

  function Run<R, E>(t: Tracked, cs: seq<Candidate>, env: seq<Turn<R, E>>, classify: Classifier<E>): Result<R, E>
    requires |cs| <= |env|
  {
    if cs == [] then Result(NoCandidates, [], [], t)
    else RunFrom(cs, env, classify, 0, Result(Exhausted, [], [], t))
  }

  lemma RunStep<R, E>(cs: seq<Candidate>, env: seq<Turn<R, E>>, classify: Classifier<E>, i: nat, so: Result<R, E>)
    requires i < |cs| <= |env|
    ensures var d := Decide(so.tracked, cs[i], env[i], classify);
            var next := Advance(cs[i], env[i], i, d, so);
            RunFrom(cs, env, classify, i, so) ==
              if d.GoesOn() then RunFrom(cs, env, classify, i + 1, next) else next.(outcome := Verdict(cs[i], d))
  {
  }

  lemma RunStart<R, E>(t: Tracked, cs: seq<Candidate>, env: seq<Turn<R, E>>, classify: Classifier<E>)
    requires 0 < |cs| <= |env|
    ensures Run(t, cs, env, classify) == RunFrom(cs, env, classify, 0, Result(Exhausted, [], [], t))
  {
  }

  lemma RunEnd<R, E>(cs: seq<Candidate>, env: seq<Turn<R, E>>, classify: Classifier<E>, so: Result<R, E>)
    requires |cs| <= |env|
    ensures RunFrom(cs, env, classify, |cs|, so) == so
  {
  }

  method Execute<R, E>(tracker: CooldownTracker, candidates: seq<Candidate>, env: seq<Turn<R, E>>,
                         classify: Classifier<E>)
    returns (outcome: Outcome<R, E>, attempts: seq<Attempt<E>>, calls: seq<nat>)
    requires tracker.Valid() && |candidates| <= |env|
    modifies tracker, tracker.entries.Values
    ensures tracker.Valid()
    ensures Result(outcome, attempts, calls, tracker.Contents()) ==
              Run(old(tracker.Contents()), candidates, env, classify)
  {
    hide Failed, Available, Remaining, RunFrom, MarkedFailure, MarkedSuccess;
    attempts, calls := [], [];
    if |candidates| == 0 {
      return NoCandidates, attempts, calls;
    }
    ghost var all := Run(tracker.Contents(), candidates, env, classify);
    RunStart(tracker.Contents(), candidates, env, classify);
    var i := 0;
    while i < |candidates|
      invariant 0 <= i <= |candidates|
      invariant tracker.Valid() && fresh(tracker.entries.Values - old(tracker.entries.Values))
      invariant RunFrom(candidates, env, classify, i, Result(Exhausted, attempts, calls, tracker.Contents()))
             == all
    {
      var candidate, turn := candidates[i], env[i];
      RunStep(candidates, env, classify, i, Result(Exhausted, attempts, calls, tracker.Contents()));
      if turn.cancelledBefore {
        return Cancelled, attempts, calls;
      }
      var available := tracker.IsAvailable(candidate.provider, turn.checkAt);
      if !available {
        var remaining := tracker.CooldownRemaining(candidate.provider, turn.checkAt);
        attempts := attempts +
                    [Attempt(candidate.provider, candidate.model, InCooldown(remaining), Some(RateLimit), true)];
        i := i + 1;
        continue;
      }
      calls := calls + [i];
      if turn.reply.Ok? {
        tracker.MarkSuccess(candidate.provider);
        return Success(turn.reply.response, candidate.provider, candidate.model), attempts, calls;
      }
      var err := turn.reply.error;
      if turn.cancelledAfter {
        attempts := attempts + [Attempt(candidate.provider, candidate.model, Raw(err), None, false)];
        return Cancelled, attempts, calls;
      }
      var reason := classify(err);
      if reason.None? {
        attempts := attempts + [Attempt(candidate.provider, candidate.model, Raw(err), None, false)];
        return Unclassified(err), attempts, calls;
      }
      attempts := attempts +
                  [Attempt(candidate.provider, candidate.model, Classified(err, reason.value), reason, false)];
      if !IsRetriable(reason.value) {
        return NotRetriable(err, reason.value), attempts, calls;
      }
      tracker.MarkFailure(candidate.provider, reason.value, turn.doneAt);
      if i == |candidates| - 1 {
        RunEnd(candidates, env, classify, Result(Exhausted, attempts, calls, tracker.Contents()));
        return Exhausted, attempts, calls;
      }
      i := i + 1;
    }
    RunEnd(candidates, env, classify, Result(Exhausted, attempts, calls, tracker.Contents()));
    return Exhausted, attempts, calls;
  }

  // ---------------------------------------------------------------- what a call guarantees

  /** The failures among the first `n` attempts, as the calls of `MarkFailure` they cause. */
  function Failures<R, E>(attempts: seq<Attempt<E>>, env: seq<Turn<R, E>>, n: nat): seq<Mark>
    requires n <= |attempts| && n <= |env|
  {
    if n == 0 then []
    else
      var a, before := attempts[n - 1], Failures(attempts, env, n - 1);
      if a.skipped || a.reason.None? then before
      else before + [FailureMark(a.provider, a.reason.value, env[n - 1].doneAt)]
  }

  /** The tracker after the first `n` candidates, by their recorded attempts alone. */
  function TrackedAt<R, E>(t: Tracked, attempts: seq<Attempt<E>>, env: seq<Turn<R, E>>, n: nat): Tracked
    requires n <= |attempts| && n <= |env|
  {
    History(t, Failures(attempts, env, n))
  }

  /** Candidate `j` was passed over: skipped because it was cooling down, or run with a retriable error. */
  ghost predicate PassedOver<R, E>(t: Tracked, cs: seq<Candidate>, env: seq<Turn<R, E>>, classify: Classifier<E>,
                                   attempts: seq<Attempt<E>>, j: nat)
    requires j < |attempts| && j < |cs| && j < |env|
  {
    var a := attempts[j];
    && a.provider == cs[j].provider && a.model == cs[j].model && !env[j].cancelledBefore
    && var e := Get(TrackedAt(t, attempts, env, j), a.provider);
    && (a.skipped <==> !Available(e, env[j].checkAt))
    && (a.skipped ==> a.reason == Some(RateLimit) && a.error == InCooldown(Remaining(e, env[j].checkAt)))
    && (!a.skipped ==>
          && env[j].reply.Err? && !env[j].cancelledAfter && a.reason == classify(env[j].reply.error)
          && a.reason.Some? && a.reason.value != Format && a.error == Classified(env[j].reply.error, a.reason.value))
  }

  /** The first `n` candidates were passed over, in order, and those not skipped were run. */
  ghost predicate PassedAll<R, E>(t: Tracked, cs: seq<Candidate>, env: seq<Turn<R, E>>, classify: Classifier<E>,
                                  n: nat, attempts: seq<Attempt<E>>, calls: seq<nat>)
    requires n <= |attempts| && n <= |cs| <= |env|
  {
    && (forall j: nat :: j < n ==> PassedOver(t, cs, env, classify, attempts, j))
    && calls == Unskipped(attempts, n)
  }

  /** The positions of the first `n` attempts that were no skips, in order. */
  function Unskipped<E>(attempts: seq<Attempt<E>>, n: nat): (r: seq<nat>)
    requires n <= |attempts|
    ensures forall j :: j in r <==> 0 <= j < n && !attempts[j].skipped
  {
    if n == 0 then []
    else if attempts[n - 1].skipped then Unskipped(attempts, n - 1)
    else Unskipped(attempts, n - 1) + [n - 1]
  }

  /** The state of the loop before candidate `i`. */
  ghost predicate SoFar<R, E>(t: Tracked, cs: seq<Candidate>, env: seq<Turn<R, E>>, classify: Classifier<E>,
                              i: nat, so: Result<R, E>)
    requires |cs| <= |env|
  {
    && i <= |cs| && |so.attempts| == i && so.outcome == Exhausted
    && PassedAll(t, cs, env, classify, i, so.attempts, so.calls)
    && so.tracked == TrackedAt(t, so.attempts, env, i)
  }

  /** Adding an attempt changes nothing about the earlier ones. */
  lemma {:induction false} PrefixSame<R, E>(t: Tracked, attempts: seq<Attempt<E>>, a: Attempt<E>, env: seq<Turn<R, E>>,
                                            n: nat)
    requires n <= |attempts| && n <= |env|
    ensures Failures(attempts + [a], env, n) == Failures(attempts, env, n)
    ensures Unskipped(attempts + [a], n) == Unskipped(attempts, n)
    ensures TrackedAt(t, attempts + [a], env, n) == TrackedAt(t, attempts, env, n)
  {
    hide History;
    if n > 0 {
      PrefixSame(t, attempts, a, env, n - 1);
      assert (attempts + [a])[n - 1] == attempts[n - 1];
    }
  }

  lemma PassedAllGrows<R, E>(t: Tracked, cs: seq<Candidate>, env: seq<Turn<R, E>>, classify: Classifier<E>,
                             so: Result<R, E>, a: Attempt<E>)
    requires |cs| <= |env| && SoFar(t, cs, env, classify, |so.attempts|, so)
    ensures PassedAll(t, cs, env, classify, |so.attempts|, so.attempts + [a], so.calls)
    ensures TrackedAt(t, so.attempts + [a], env, |so.attempts|) == so.tracked
  {
    hide History, Available, Failures, Unskipped;
    var n := |so.attempts|;
    PrefixSame(t, so.attempts, a, env, n);
    forall j: nat | j < n ensures PassedOver(t, cs, env, classify, so.attempts + [a], j) {
      PrefixSame(t, so.attempts, a, env, j);
      assert PassedOver(t, cs, env, classify, so.attempts, j);
    }
  }

  lemma AdvanceKeeps<R, E>(t: Tracked, cs: seq<Candidate>, env: seq<Turn<R, E>>, classify: Classifier<E>,
                           i: nat, so: Result<R, E>)
    requires i < |cs| <= |env| && SoFar(t, cs, env, classify, i, so)
    requires Decide(so.tracked, cs[i], env[i], classify).GoesOn()
    ensures SoFar(t, cs, env, classify, i + 1,
                      Advance(cs[i], env[i], i, Decide(so.tracked, cs[i], env[i], classify), so))
  {
    hide Available, Failed, Remaining;
    var d := Decide(so.tracked, cs[i], env[i], classify);
    var next := Advance(cs[i], env[i], i, d, so);
    var a := Recorded(cs[i], d)[0];
    assert next.attempts == so.attempts + [a];
    PassedAllGrows(t, cs, env, classify, so, a);
    assert PassedOver(t, cs, env, classify, next.attempts, i);
    var marks := Failures(next.attempts, env, i);
    if d.Retry? {
      var m := FailureMark(a.provider, a.reason.value, env[i].doneAt);
      assert (marks + [m])[..|marks|] == marks;
    }
  }

  /** How a call ends at candidate `k`. */
  ghost predicate EndsAt<R, E>(t: Tracked, cs: seq<Candidate>, env: seq<Turn<R, E>>, classify: Classifier<E>,
                               k: nat, r: Result<R, E>)
    requires |cs| <= |env|
  {
    && k <= |cs| && k <= |r.attempts|
    && var before := Unskipped(r.attempts, k);
    && PassedAll(t, cs, env, classify, k, r.attempts, before)
    && var tk := TrackedAt(t, r.attempts, env, k);
    && (k in r.calls ==> k < |cs| && Available(Get(tk, cs[k].provider), env[k].checkAt))
    &&
    match r.outcome
    case NoCandidates => false
    case Exhausted => k == |cs| == |r.attempts| && r.calls == before && r.tracked == tk
    case Success(response, provider, model) =>
      && k < |cs| && |r.attempts| == k && r.calls == before + [k]
      && !env[k].cancelledBefore && env[k].reply == Ok(response)
      && Candidate(provider, model) == cs[k] && r.tracked == MarkedSuccess(tk, provider)
    case Cancelled =>
      k < |cs| && r.tracked == tk
      && if env[k].cancelledBefore then |r.attempts| == k && r.calls == before
         else
           env[k].cancelledAfter && env[k].reply.Err? && EndsWith(cs[k], k, before, r, Raw(env[k].reply.error), None)
    case Unclassified(e) =>
      k < |cs| && r.tracked == tk && env[k].reply == Err(e) && !env[k].cancelledBefore && !env[k].cancelledAfter
      && classify(e) == None && EndsWith(cs[k], k, before, r, Raw(e), None)
    case NotRetriable(e, why) =>
      k < |cs| && r.tracked == tk && env[k].reply == Err(e) && !env[k].cancelledBefore && !env[k].cancelledAfter
      && classify(e) == Some(why) && why == Format && EndsWith(cs[k], k, before, r, Classified(e, why), Some(why))
  }

  /** The call ends with the run of candidate `k`, which leaves the last attempt. */
  ghost predicate EndsWith<R, E>(c: Candidate, k: nat, before: seq<nat>, r: Result<R, E>, error: AttemptError<E>,
                                 reason: Option<Reason>)
  {
    && |r.attempts| == k + 1 && r.calls == before + [k]
    && r.attempts[k] == Attempt(c.provider, c.model, error, reason, false)
  }

  /** Without candidates nothing is run and nothing is recorded. */
  lemma NoCandidatesEnd<R, E>(t: Tracked, env: seq<Turn<R, E>>, classify: Classifier<E>)
    ensures Run(t, [], env, classify) == Result(NoCandidates, [], [], t)
  {
  }

  lemma StopEnds<R, E>(t: Tracked, cs: seq<Candidate>, env: seq<Turn<R, E>>, classify: Classifier<E>,
                       i: nat, so: Result<R, E>)
    requires i < |cs| <= |env| && SoFar(t, cs, env, classify, i, so)
    requires !Decide(so.tracked, cs[i], env[i], classify).GoesOn()
    ensures var d := Decide(so.tracked, cs[i], env[i], classify);
            EndsAt(t, cs, env, classify, i, Advance(cs[i], env[i], i, d, so).(outcome := Verdict(cs[i], d)))
  {
    hide Available, Failed, Remaining, History, Failures, Unskipped;
    var d := Decide(so.tracked, cs[i], env[i], classify);
    var rec := Recorded(cs[i], d);
    if rec == [] {
      assert so.attempts + rec == so.attempts;
    } else {
      PassedAllGrows(t, cs, env, classify, so, rec[0]);
      PrefixSame(t, so.attempts, rec[0], env, i);
      assert so.attempts + rec == so.attempts + [rec[0]];
    }
  }

  lemma {:induction false} RunFromEnds<R, E>(t: Tracked, cs: seq<Candidate>, env: seq<Turn<R, E>>,
                                             classify: Classifier<E>, i: nat, so: Result<R, E>) returns (k: nat)
    requires |cs| <= |env| && SoFar(t, cs, env, classify, i, so)
    ensures EndsAt(t, cs, env, classify, k, RunFrom(cs, env, classify, i, so))
    decreases |cs| - i
  {
    hide Available, Failed, Remaining, History, Failures, Unskipped;
    if i == |cs| {
      k := i;
    } else if Decide(so.tracked, cs[i], env[i], classify).GoesOn() {
      AdvanceKeeps(t, cs, env, classify, i, so);
      k := RunFromEnds(t, cs, env, classify, i + 1,
                       Advance(cs[i], env[i], i, Decide(so.tracked, cs[i], env[i], classify), so));
    } else {
      StopEnds(t, cs, env, classify, i, so);
      k := i;
    }
  }

  /** Every call visits the candidates in order and ends at one of them or behind the last: all candidates
      before were skipped or failed retriably and left one attempt each, those not skipped were run, nothing
      was run behind it, and the tracker is the fold of the recorded outcomes. */
  lemma ExecuteEnds<R, E>(t: Tracked, cs: seq<Candidate>, env: seq<Turn<R, E>>, classify: Classifier<E>)
    returns (k: nat)
    requires 0 < |cs| <= |env|
    ensures EndsAt(t, cs, env, classify, k, Run(t, cs, env, classify))
  {
    k := RunFromEnds(t, cs, env, classify, 0, Result(Exhausted, [], [], t));
  }

  /** The clock does not run backwards during the call. */
  ghost predicate Timely<R, E>(env: seq<Turn<R, E>>, clock: int) {
    && (forall j :: 0 <= j < |env| ==> clock <= env[j].checkAt <= env[j].doneAt)
    && (forall i, j :: 0 <= i < j < |env| ==> env[i].doneAt <= env[j].checkAt)
  }

  lemma {:induction false} FailuresInTime<R, E>(attempts: seq<Attempt<E>>, env: seq<Turn<R, E>>, n: nat, clock: int)
    requires n <= |attempts| && n <= |env| && Timely(env, clock)
    ensures var ms := Failures(attempts, env, n);
            InTime(ms, clock) && forall m <- ms :: m.FailureMark? && exists j :: 0 <= j < n && m.at == env[j].doneAt
  {
    if n > 0 {
      FailuresInTime(attempts, env, n - 1, clock);
    }
  }

  /** During the call no provider's cooldowns are brought forward. */
  lemma {:induction false} EndsGrow<R, E>(t: Tracked, attempts: seq<Attempt<E>>, env: seq<Turn<R, E>>,
                                          a: nat, b: nat, p: string, clock: int)
    requires a <= b <= |attempts| && b <= |env| && Timely(env, clock) && AllInv(t, clock)
    ensures var e, f := Get(TrackedAt(t, attempts, env, a), p), Get(TrackedAt(t, attempts, env, b), p);
            NotEarlier(e.cooldownEnd, f.cooldownEnd) && NotEarlier(e.disabledUntil, f.disabledUntil)
    decreases b
  {
    hide Failed, Inv;
    if a < b {
      EndsGrow(t, attempts, env, a, b - 1, p, clock);
      OneMoreFailure(t, attempts, env, b - 1, p, clock);
    }
  }

  lemma OneMoreFailure<R, E>(t: Tracked, attempts: seq<Attempt<E>>, env: seq<Turn<R, E>>, n: nat, p: string, clock: int)
    requires n < |attempts| && n < |env| && Timely(env, clock) && AllInv(t, clock)
    ensures var a := attempts[n];
            var e, f := Get(TrackedAt(t, attempts, env, n), p), Get(TrackedAt(t, attempts, env, n + 1), p);
            && NotEarlier(e.cooldownEnd, f.cooldownEnd) && NotEarlier(e.disabledUntil, f.disabledUntil)
            && (!a.skipped && a.reason.Some? && a.provider == p ==> f == Failed(e, a.reason.value, env[n].doneAt))
  {
    var a := attempts[n];
    TrackedStep(t, attempts, env, n);
    hide Failed, Inv, TrackedAt, Timely;
    if !a.skipped && a.reason.Some? {
      TrackedInv(t, attempts, env, n, clock);
      FailureExtends(Get(TrackedAt(t, attempts, env, n), a.provider), a.reason.value, env[n].doneAt, env[n].doneAt) by {
        NewEntryInv(env[n].doneAt);
      }
    }
  }

  lemma TrackedStep<R, E>(t: Tracked, attempts: seq<Attempt<E>>, env: seq<Turn<R, E>>, n: nat)
    requires n < |attempts| && n < |env|
    ensures var a, before := attempts[n], TrackedAt(t, attempts, env, n);
            TrackedAt(t, attempts, env, n + 1) ==
              if a.skipped || a.reason.None? then before
              else MarkedFailure(before, a.provider, a.reason.value, env[n].doneAt)
  {
    hide MarkedFailure;
    var a, ms := attempts[n], Failures(attempts, env, n);
    if !a.skipped && a.reason.Some? {
      assert (ms + [FailureMark(a.provider, a.reason.value, env[n].doneAt)])[..|ms|] == ms;
    }
  }

  lemma TrackedInv<R, E>(t: Tracked, attempts: seq<Attempt<E>>, env: seq<Turn<R, E>>, n: nat, clock: int)
    requires n < |attempts| && n < |env| && Timely(env, clock) && AllInv(t, clock)
    ensures AllInv(TrackedAt(t, attempts, env, n), env[n].doneAt)
  {
    hide History, Failures, AllInv, InTime;
    FailuresInTime(attempts, env, n, clock);
    HistoryKeeps(t, Failures(attempts, env, n), clock, env[n].doneAt);
  }

  lemma NewEntryInv(clock: int)
    ensures Inv(NEW_ENTRY, clock)
  {
  }

  /** A provider that failed in this call is not run again before the cooldown that failure started is over,
      a minute at the least. */
  lemma FailedProviderRests<R, E>(t: Tracked, cs: seq<Candidate>, env: seq<Turn<R, E>>, classify: Classifier<E>,
                                  clock: int, i: nat, j: nat)
    requires 0 < |cs| <= |env| && Timely(env, clock) && AllInv(t, clock)
    requires var r := Run(t, cs, env, classify); i in r.calls && j in r.calls
    requires i < j < |cs| && cs[i].provider == cs[j].provider
    ensures var r := Run(t, cs, env, classify);
            && i < |r.attempts| && !r.attempts[i].skipped
            && Available(Get(TrackedAt(t, r.attempts, env, i + 1), cs[i].provider), env[j].checkAt)
            && env[i].doneAt + 60_000 <= env[j].checkAt
  {
    hide Failed, Inv, RunFrom, Run, EndsAt, Available, Timely, AllInv, TrackedAt, PassedOver;
    var r, p := Run(t, cs, env, classify), cs[i].provider;
    FailedBefore(t, cs, env, classify, i, j);
    OneMoreFailure(t, r.attempts, env, i, p, clock);
    EndsGrow(t, r.attempts, env, i + 1, j, p, clock);
    FailureBlocks(Get(TrackedAt(t, r.attempts, env, i), p), r.attempts[i].reason.value, env[i].doneAt);
    StillAvailable(Get(TrackedAt(t, r.attempts, env, i + 1), p), Get(TrackedAt(t, r.attempts, env, j), p),
                   env[j].checkAt);
    InOrder(env, clock, i, j);
  }

  lemma InOrder<R, E>(env: seq<Turn<R, E>>, clock: int, i: nat, j: nat)
    requires Timely(env, clock) && i < j < |env|
    ensures env[i].doneAt <= env[j].checkAt
  {
  }

  /** A candidate run before another one failed, and the later one was available. */
  lemma FailedBefore<R, E>(t: Tracked, cs: seq<Candidate>, env: seq<Turn<R, E>>, classify: Classifier<E>,
                             i: nat, j: nat)
    requires 0 < |cs| <= |env|
    requires var r := Run(t, cs, env, classify); i in r.calls && j in r.calls
    requires i < j < |cs|
    ensures var done := Run(t, cs, env, classify).attempts;
            && i < j <= |done| && !done[i].skipped && done[i].reason.Some? && done[i].provider == cs[i].provider
            && Available(Get(TrackedAt(t, done, env, j), cs[j].provider), env[j].checkAt)
  {
    hide RunFrom, Run, Available, TrackedAt;
    var r := Run(t, cs, env, classify);
    var k := ExecuteEnds(t, cs, env, classify);
    assert j <= k && i < k;
    assert PassedOver(t, cs, env, classify, r.attempts, i);
    if j < k {
      assert PassedOver(t, cs, env, classify, r.attempts, j);
    }
  }

  /** The tracker is shared by all calls. Whatever other calls mark meanwhile, a call runs a provider that has failed
      only when the cooldown which that failure left is over, a minute at the least, unless a success of that
      provider was marked in between. */
  lemma SharedProviderRests<R, E>(t: Tracked, os: seq<Mark>, clock: int, a: nat, c: Candidate, turn: Turn<R, E>,
                                  classify: Classifier<E>)
    requires AllInv(t, clock) && InTime(os, clock) && a < |os| && os[a].at <= turn.checkAt
    requires os[a].FailureMark? && os[a].provider == c.provider
    requires Decide(History(t, os), c, turn, classify).Ran()
    ensures ClearedAfter(os, a, c.provider) ||
            (Available(Get(History(t, os[..a + 1]), c.provider), turn.checkAt) && os[a].at + 60_000 <= turn.checkAt)
  {
    hide Available, History, AllInv, InTime, ClearedAfter;
    RestsUnlessCleared(t, os, clock, a, turn.checkAt);
  }
}
