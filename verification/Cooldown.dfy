/** Per-provider cooldown after failures (pkg/providers/cooldown.go). Times and durations are in milliseconds. */
module Cooldown {
  import opened Options

  datatype Reason = Auth | RateLimit | Billing | Timeout | Format | Overloaded | UnknownReason

  const HOUR: int := 3_600_000
  const FAILURE_WINDOW: int := 24 * HOUR

  function Pow(b: nat, e: nat): nat {
    if e == 0 then 1 else b * Pow(b, e - 1)
  }

  function Max(a: int, b: int): int { if a < b then b else a }

  function Min(a: int, b: int): int { if a < b then a else b }

  function StandardCooldown(errorCount: int): int {
    var n := Max(1, errorCount);
    var exp := Min(n - 1, 3);
    Min(HOUR, 60_000 * Pow(5, exp))
  }

  function BillingCooldown(billingErrorCount: int): int {
    var n := Max(1, billingErrorCount);
    var exp := Min(n - 1, 10);
    Min(24 * HOUR, 5 * HOUR * Pow(2, exp))
  }

  // ---------------------------------------------------------------- one provider's entry, as a value

  datatype Entry = Entry(errorCount: nat, failureCounts: map<Reason, nat>, cooldownEnd: Option<int>,
                         disabledUntil: Option<int>, disabledReason: Option<Reason>, lastFailure: Option<int>)

  const NEW_ENTRY := Entry(0, map[], None, None, None, None)

  function Count(m: map<Reason, nat>, r: Reason): nat {
    if r in m then m[r] else 0
  }

  function Failed(e: Entry, reason: Reason, now: int): Entry {
    var e := if e.lastFailure.Some? && now - e.lastFailure.value > FAILURE_WINDOW
             then e.(errorCount := 0, failureCounts := map[]) else e;
    var e := e.(errorCount := e.errorCount + 1,
                failureCounts := e.failureCounts[reason := Count(e.failureCounts, reason) + 1],
                lastFailure := Some(now));
    if reason == Billing then
      e.(disabledUntil := Some(now + BillingCooldown(Count(e.failureCounts, Billing))), disabledReason := Some(Billing))
    else
      e.(cooldownEnd := Some(now + StandardCooldown(e.errorCount)))
  }

  function Succeeded(e: Entry): Entry {
    e.(errorCount := 0, failureCounts := map[], cooldownEnd := None, disabledUntil := None, disabledReason := None)
  }

  predicate Available(e: Entry, now: int) {
    && !(e.disabledUntil.Some? && now < e.disabledUntil.value)
    && !(e.cooldownEnd.Some? && now < e.cooldownEnd.value)
  }

  /** How long until neither cooldown runs any more. */
  function Remaining(e: Entry, now: int): int {
    Max(Left(e.disabledUntil, now), Left(e.cooldownEnd, now))
  }

  function Left(end: Option<int>, now: int): int {
    if end.Some? && now < end.value then end.value - now else 0
  }

  // ---------------------------------------------------------------- the tracker

  /** One provider's record, updated in place. */
  class CooldownEntry {
    var errorCount: nat
    var failureCounts: map<Reason, nat>
    var cooldownEnd: Option<int>
    var disabledUntil: Option<int>
    var disabledReason: Option<Reason>
    var lastFailure: Option<int>

    constructor ()
      ensures Value() == NEW_ENTRY
    {
      errorCount, failureCounts := 0, map[];
      cooldownEnd, disabledUntil, disabledReason, lastFailure := None, None, None, None;
    }

    /** The part of `MarkFailure` that works on the record. */
    method RecordFailure(reason: Reason, now: int)
      modifies this
      ensures Value() == Failed(old(Value()), reason, now)
    {
      hide StandardCooldown, BillingCooldown;
      if lastFailure.Some? && now - lastFailure.value > FAILURE_WINDOW {
        errorCount := 0;
        failureCounts := map[];
      }
      errorCount := errorCount + 1;
      failureCounts := failureCounts[reason := Count(failureCounts, reason) + 1];
      lastFailure := Some(now);
      if reason == Billing {
        var billingCount := Count(failureCounts, Billing);
        disabledUntil := Some(now + BillingCooldown(billingCount));
        disabledReason := Some(Billing);
      } else {
        cooldownEnd := Some(now + StandardCooldown(errorCount));
      }
    }

    function Value(): Entry
      reads this
    {
      Entry(errorCount, failureCounts, cooldownEnd, disabledUntil, disabledReason, lastFailure)
    }
  }

  type Tracked = map<string, Entry>

  function Get(t: Tracked, provider: string): Entry {
    if provider in t then t[provider] else NEW_ENTRY
  }

  function MarkedFailure(t: Tracked, provider: string, reason: Reason, now: int): Tracked {
    t[provider := Failed(Get(t, provider), reason, now)]
  }

  function MarkedSuccess(t: Tracked, provider: string): Tracked {
    if provider in t then t[provider := Succeeded(t[provider])] else t
  }

  /** The tracker owns one record per provider seen. */
  class CooldownTracker {
    var entries: map<string, CooldownEntry>

    constructor ()
      ensures Valid() && Contents() == map[]
    {
      entries := map[];
    }

    /** No two providers share a record. */
    ghost predicate Valid()
      reads this
    {
      forall p, q :: p in entries && q in entries && p != q ==> entries[p] != entries[q]
    }

    ghost function Contents(): Tracked
      reads this, entries.Values
    {
      map p | p in entries :: entries[p].Value()
    }

    method GetOrCreate(provider: string) returns (entry: CooldownEntry)
      requires Valid()
      modifies this
      ensures Valid() && provider in entries && entry == entries[provider]
      ensures Contents() == old(Contents())[provider := Get(old(Contents()), provider)]
      ensures fresh(entries.Values - old(entries.Values)) && entry in entries.Values
    {
      if provider in entries {
        entry := entries[provider];
      } else {
        entry := new CooldownEntry();
        entries := entries[provider := entry];
      }
    }

    method MarkFailure(provider: string, reason: Reason, now: int)
      requires Valid()
      modifies this, entries.Values
      ensures Valid() && fresh(entries.Values - old(entries.Values))
      ensures Contents() == MarkedFailure(old(Contents()), provider, reason, now)
    {
      hide Failed;
      var entry := GetOrCreate(provider);
      entry.RecordFailure(reason, now);
    }

    method MarkSuccess(provider: string)
      requires Valid()
      modifies entries.Values
      ensures Valid() && Contents() == MarkedSuccess(old(Contents()), provider)
    {
      if provider !in entries {
        return;
      }
      var entry := entries[provider];
      entry.errorCount := 0;
      entry.failureCounts := map[];
      entry.cooldownEnd, entry.disabledUntil, entry.disabledReason := None, None, None;
    }

    method IsAvailable(provider: string, now: int) returns (r: bool)
      requires Valid()
      ensures r == Available(Get(Contents(), provider), now)
    {
      if provider !in entries {
        return true;
      }
      var entry := entries[provider];
      if entry.disabledUntil.Some? && now < entry.disabledUntil.value {
        return false;
      }
      if entry.cooldownEnd.Some? && now < entry.cooldownEnd.value {
        return false;
      }
      return true;
    }

    method CooldownRemaining(provider: string, now: int) returns (remaining: int)
      requires Valid()
      ensures remaining == Remaining(Get(Contents(), provider), now)
    {
      remaining := 0;
      if provider !in entries {
        return;
      }
      var entry := entries[provider];
      if entry.disabledUntil.Some? && now < entry.disabledUntil.value {
        var d := entry.disabledUntil.value - now;
        if d > remaining {
          remaining := d;
        }
      }
      if entry.cooldownEnd.Some? && now < entry.cooldownEnd.value {
        var d := entry.cooldownEnd.value - now;
        if d > remaining {
          remaining := d;
        }
      }
    }
  }

  // ---------------------------------------------------------------- the backoff formulas

  /** The documented tables: 1, 5 and 25 minutes, then an hour; 5, 10 and 20 hours, then a day. */
  lemma CooldownTables(n: int)
    ensures StandardCooldown(n) ==
              (if n <= 1 then 60_000 else if n == 2 then 300_000 else if n == 3 then 1_500_000 else HOUR)
    ensures BillingCooldown(n) ==
              (if n <= 1 then 5 * HOUR else if n == 2 then 10 * HOUR else if n == 3 then 20 * HOUR else 24 * HOUR)
  {
    assert Pow(5, 0) == 1 && Pow(5, 1) == 5 && Pow(5, 2) == 25 && Pow(5, 3) == 125;
    assert Pow(2, 0) == 1 && Pow(2, 1) == 2 && Pow(2, 2) == 4;
    if n >= 4 {
      PowGrows(3, Min(n - 1, 10));
      assert Pow(2, 3) == 8;
    }
  }

  lemma {:induction false} PowGrows(a: nat, b: nat)
    requires a <= b
    ensures 0 < Pow(2, a) <= Pow(2, b)
    decreases b
  {
    if a < b {
      PowGrows(a, b - 1);
    } else if a > 0 {
      PowGrows(a - 1, b - 1);
    }
  }

  // ---------------------------------------------------------------- what every history keeps

  function Total(m: map<Reason, nat>): nat {
    Count(m, Auth) + Count(m, RateLimit) + Count(m, Billing) + Count(m, Timeout) + Count(m, Format) +
    Count(m, Overloaded) + Count(m, UnknownReason)
  }

  /** The counts add up, and neither cooldown outlasts what the latest failure would give for the present counts. */
  ghost predicate Inv(e: Entry, clock: int) {
    && e.errorCount == Total(e.failureCounts)
    && (e.lastFailure.Some? ==> e.lastFailure.value <= clock)
    && (e.cooldownEnd.Some? ==>
          e.lastFailure.Some? && e.cooldownEnd.value <= e.lastFailure.value + StandardCooldown(e.errorCount))
    && (e.disabledUntil.Some? ==>
          e.lastFailure.Some? &&
          e.disabledUntil.value <= e.lastFailure.value + BillingCooldown(Count(e.failureCounts, Billing)))
  }

  ghost predicate NotEarlier(a: Option<int>, b: Option<int>) {
    a.Some? ==> b.Some? && a.value <= b.value
  }

  lemma TotalBump(m: map<Reason, nat>, r: Reason)
    ensures Total(m[r := Count(m, r) + 1]) == Total(m) + 1
  {
    hide Count;
    CountBump(m, r, Auth);
    CountBump(m, r, RateLimit);
    CountBump(m, r, Billing);
    CountBump(m, r, Timeout);
    CountBump(m, r, Format);
    CountBump(m, r, Overloaded);
    CountBump(m, r, UnknownReason);
  }

  lemma CountBump(m: map<Reason, nat>, r: Reason, q: Reason)
    ensures Count(m[r := Count(m, r) + 1], q) == Count(m, q) + if q == r then 1 else 0
  {
  }

  /** The counts a failure adds to: none of those older than the window. */
  function Recent(e: Entry, now: int): map<Reason, nat> {
    if IsStale(e, now) then map[] else e.failureCounts
  }

  predicate IsStale(e: Entry, now: int) {
    e.lastFailure.Some? && now - e.lastFailure.value > FAILURE_WINDOW
  }

  lemma FailureCounts(e: Entry, reason: Reason, now: int)
    requires e.errorCount == Total(e.failureCounts)
    ensures Failed(e, reason, now).errorCount == Total(Failed(e, reason, now).failureCounts)
  {
    assert Total(map[]) == 0;
    hide Total, Failed, Count;
    CountsOfFailed(e, reason, now);
    TotalBump(Recent(e, now), reason);
  }

  lemma CountsOfFailed(e: Entry, reason: Reason, now: int)
    ensures Failed(e, reason, now).failureCounts == Recent(e, now)[reason := Count(Recent(e, now), reason) + 1]
    ensures Failed(e, reason, now).errorCount == 1 + if IsStale(e, now) then 0 else e.errorCount
  {
    hide StandardCooldown, BillingCooldown, Count;
  }

  /** Longer runs of failures never shorten a cooldown, and the window outlasts both. */
  lemma CooldownsGrow(a: int, b: int)
    requires a <= b
    ensures 60_000 <= StandardCooldown(a) <= StandardCooldown(b) <= FAILURE_WINDOW
    ensures 60_000 <= BillingCooldown(a) <= BillingCooldown(b) <= FAILURE_WINDOW
  {
    CooldownTables(a);
    CooldownTables(b);
  }

  /** A failure keeps the invariant and never brings the end of either cooldown forward, across a reset of
      the counters too: by then the old cooldown, which the window outlasts, is over. */
  lemma FailureExtends(e: Entry, reason: Reason, clock: int, now: int)
    requires Inv(e, clock) && clock <= now
    ensures Inv(Failed(e, reason, now), now)
    ensures NotEarlier(e.cooldownEnd, Failed(e, reason, now).cooldownEnd)
    ensures NotEarlier(e.disabledUntil, Failed(e, reason, now).disabledUntil)
  {
    hide StandardCooldown, BillingCooldown, Total;
    FailureCounts(e, reason, now);
    var k := Count(e.failureCounts, Billing);
    CooldownsGrow(e.errorCount, e.errorCount + 1);
    CooldownsGrow(0, e.errorCount);
    CooldownsGrow(0, 1);
    CooldownsGrow(0, k);
    CooldownsGrow(k, k + 1);
  }

  /** A provider is available exactly when no time remains, and never more than a day remains. */
  lemma RemainingIsExact(e: Entry, clock: int, now: int)
    requires Inv(e, clock) && clock <= now
    ensures Available(e, now) <==> Remaining(e, now) == 0
    ensures 0 <= Remaining(e, now) <= 24 * HOUR
    ensures Available(e, now + Remaining(e, now))
  {
    CooldownTables(e.errorCount);
    CooldownTables(Count(e.failureCounts, Billing));
  }

  /** A call of one of the two marking methods. */
  datatype Mark = FailureMark(provider: string, reason: Reason, at: int) | SuccessMark(provider: string, at: int)

  function Marked(t: Tracked, o: Mark): Tracked {
    match o
    case FailureMark(p, r, at) => MarkedFailure(t, p, r, at)
    case SuccessMark(p, _) => MarkedSuccess(t, p)
  }

  function History(t: Tracked, os: seq<Mark>): Tracked {
    if os == [] then t else Marked(History(t, os[..|os| - 1]), os[|os| - 1])
  }

  /** The times of the outcomes do not decrease from `clock` on. */
  ghost predicate InTime(os: seq<Mark>, clock: int) {
    (forall i :: 0 <= i < |os| ==> clock <= os[i].at) && forall i, j :: 0 <= i < j < |os| ==> os[i].at <= os[j].at
  }

  ghost predicate AllInv(t: Tracked, clock: int) {
    forall p <- t :: Inv(t[p], clock)
  }

  lemma LaterInv(t: Tracked, clock: int, now: int)
    requires AllInv(t, clock) && clock <= now
    ensures AllInv(t, now)
  {
  }

  /** The invariant holds after every history of failures and successes. */
  lemma {:induction false} HistoryKeeps(t: Tracked, os: seq<Mark>, clock: int, now: int)
    requires AllInv(t, clock) && InTime(os, clock) && clock <= now && (os != [] ==> os[|os| - 1].at <= now)
    ensures AllInv(History(t, os), now)
  {
    if os == [] {
      LaterInv(t, clock, now);
    } else {
      var o := os[|os| - 1];
      HistoryKeeps(t, os[..|os| - 1], clock, o.at);
      var before := History(t, os[..|os| - 1]);
      if o.FailureMark? {
        FailureExtends(Get(before, o.provider), o.reason, o.at, o.at);
      }
      LaterInv(Marked(before, o), o.at, now);
    }
  }

  /** Over any history, whatever came before: one more failure never brings a cooldown forward, the error
      count is the sum of the counts by reason, and a provider is available exactly when nothing remains of
      its cooldowns, which is never more than a day. */
  lemma CooldownGuarantees(os: seq<Mark>, clock: int, provider: string, reason: Reason, now: int)
    requires InTime(os, clock) && clock <= now && (os != [] ==> os[|os| - 1].at <= now)
    ensures var e := Get(History(map[], os), provider); var f := Failed(e, reason, now);
            && e.errorCount == Total(e.failureCounts)
            && (Available(e, now) <==> Remaining(e, now) == 0) && 0 <= Remaining(e, now) <= 24 * HOUR
            && NotEarlier(e.cooldownEnd, f.cooldownEnd) && NotEarlier(e.disabledUntil, f.disabledUntil)
            && !Available(f, now)
  {
    HistoryKeeps(map[], os, clock, now);
    var e := Get(History(map[], os), provider);
    RemainingIsExact(e, now, now);
    FailureExtends(e, reason, now, now);
    FailureBlocks(e, reason, now);
  }

  /** A provider that has just failed is unavailable for at least a minute. */
  lemma FailureBlocks(e: Entry, reason: Reason, now: int)
    ensures forall t :: now <= t < now + 60_000 ==> !Available(Failed(e, reason, now), t)
  {
    CooldownTables(Failed(e, reason, now).errorCount);
    CooldownTables(Count(Failed(e, reason, now).failureCounts, Billing));
  }

  /** A success of provider `p` is marked behind position `a`. */
  ghost predicate ClearedAfter(os: seq<Mark>, a: nat, p: string) {
    exists k :: a < k < |os| && os[k].SuccessMark? && os[k].provider == p
  }

  /** In any history of a shared tracker, whoever marks what: a provider that failed is available again only when the
      cooldown which that failure left is over, a minute at the least, unless a success of that provider was marked
      in between. */
  lemma RestsUnlessCleared(t: Tracked, os: seq<Mark>, clock: int, a: nat, now: int)
    requires AllInv(t, clock) && InTime(os, clock) && a < |os| && os[a].FailureMark? && os[a].at <= now
    requires Available(Get(History(t, os), os[a].provider), now)
    ensures ClearedAfter(os, a, os[a].provider) ||
            (Available(Get(History(t, os[..a + 1]), os[a].provider), now) && os[a].at + 60_000 <= now)
  {
    hide Available, AllInv, InTime, ClearedAfter, Failed;
    var p := os[a].provider;
    if !ClearedAfter(os, a, p) {
      EndsStay(t, os, clock, a, p);
      StillAvailable(Get(History(t, os[..a + 1]), p), Get(History(t, os), p), now);
      assert os[..a + 1][..a] == os[..a];
      FailureBlocks(Get(History(t, os[..a]), p), os[a].reason, os[a].at);
    }
  }

  /** Without a success of `p` behind position `a`, no end of its cooldowns is brought forward from there on. */
  lemma {:induction false} EndsStay(t: Tracked, os: seq<Mark>, clock: int, a: nat, p: string)
    requires AllInv(t, clock) && InTime(os, clock) && a < |os| && !ClearedAfter(os, a, p)
    ensures var e, f := Get(History(t, os[..a + 1]), p), Get(History(t, os), p);
            NotEarlier(e.cooldownEnd, f.cooldownEnd) && NotEarlier(e.disabledUntil, f.disabledUntil)
  {
    hide Inv, Failed, AllInv;
    if a == |os| - 1 {
      assert os[..a + 1] == os;
    } else {
      var front, last := os[..|os| - 1], os[|os| - 1];
      assert front[..a + 1] == os[..a + 1];
      EndsStay(t, front, clock, a, p);
      if last.FailureMark? && last.provider == p {
        HistoryKeeps(t, front, clock, last.at);
        RecordInv(History(t, front), p, last.at);
        FailureExtends(Get(History(t, front), p), last.reason, last.at, last.at);
      }
    }
  }

  /** Available after later ends is available before. */
  lemma StillAvailable(e: Entry, f: Entry, now: int)
    requires NotEarlier(e.cooldownEnd, f.cooldownEnd) && NotEarlier(e.disabledUntil, f.disabledUntil)
             && Available(f, now)
    ensures Available(e, now)
  {
  }

  lemma RecordInv(t: Tracked, p: string, clock: int)
    requires AllInv(t, clock)
    ensures Inv(Get(t, p), clock)
  {
  }

  // ---------------------------------------------------------------- one outcome, in figures

  /** 1, 5 and 25 minutes after one, two and three failures, then an hour. */
  ghost predicate IsStandard(n: nat, d: int) {
    d == if n == 1 then 60_000 else if n == 2 then 300_000 else if n == 3 then 1_500_000 else 3_600_000
  }

  /** 5, 10 and 20 hours after one, two and three billing failures, then a day. */
  ghost predicate IsBilling(n: nat, d: int) {
    d == if n == 1 then 18_000_000 else if n == 2 then 36_000_000 else if n == 3 then 72_000_000 else 86_400_000
  }

  /** A failure counts on from the counters, from zero when the one before is more than 24 hours ago. A billing failure
      disables the provider by the number of billing failures; any other sets its cooldown by the number of all. What
      the failure does not set stays as it was. */
  lemma FailsExactly(e: Entry, reason: Reason, now: int)
    ensures var f := Failed(e, reason, now); var stale := e.lastFailure.Some? && 86_400_000 < now - e.lastFailure.value;
            && f.errorCount == (if stale then 1 else e.errorCount + 1) && f.lastFailure == Some(now)
            && (forall q :: Count(f.failureCounts, q) ==
                              (if stale then 0 else Count(e.failureCounts, q)) + if q == reason then 1 else 0)
            && (reason != Billing ==>
                  && f.cooldownEnd.Some? && IsStandard(f.errorCount, f.cooldownEnd.value - now)
                  && f.disabledUntil == e.disabledUntil && f.disabledReason == e.disabledReason)
            && (reason == Billing ==>
                  && f.disabledUntil.Some? && IsBilling(Count(f.failureCounts, Billing), f.disabledUntil.value - now)
                  && f.disabledReason == Some(Billing) && f.cooldownEnd == e.cooldownEnd)
  {
    CountsOfFailed(e, reason, now);
    var f := Failed(e, reason, now);
    CooldownTables(f.errorCount);
    CooldownTables(Count(f.failureCounts, Billing));
    hide StandardCooldown, BillingCooldown;
  }

  /** A failure and a success leave the records of other providers alone. */
  lemma MarksOneProvider(t: Tracked, m: Mark, q: string)
    requires m.provider != q
    ensures Get(Marked(t, m), q) == Get(t, q)
  {
    hide Failed, Succeeded;
  }

  /** After any history that ends with a success of a provider, that provider is available at any time, nothing is
      counted against it, and its next failure gives a minute, or five hours when it is a billing failure. */
  lemma SuccessClears(t: Tracked, os: seq<Mark>, p: string, at: int)
    ensures var e := Get(History(t, os + [SuccessMark(p, at)]), p);
            && (forall time :: Available(e, time)) && e.errorCount == 0 && (forall r :: Count(e.failureCounts, r) == 0)
            && e.disabledReason == None && e.lastFailure == Get(History(t, os), p).lastFailure
            && forall r, now ::
                 var f := Failed(e, r, now);
                 if r == Billing then f.disabledUntil == Some(now + 18_000_000) && f.cooldownEnd == None
                 else f.cooldownEnd == Some(now + 60_000) && f.disabledUntil == None
    ensures forall q :: q != p ==> Get(History(t, os + [SuccessMark(p, at)]), q) == Get(History(t, os), q)
  {
    assert (os + [SuccessMark(p, at)])[..|os|] == os;
    var before, m := History(t, os), SuccessMark(p, at);
    forall q | q != p ensures Get(Marked(before, m), q) == Get(before, q) {
      MarksOneProvider(before, m, q);
    }
    var e := Get(Marked(before, m), p);
    hide History;
    forall r, now ensures var f := Failed(e, r, now);
                          if r == Billing then f.disabledUntil == Some(now + 18_000_000) && f.cooldownEnd == None
                          else f.cooldownEnd == Some(now + 60_000) && f.disabledUntil == None
    {
      FailsExactly(e, r, now);
    }
  }
}
