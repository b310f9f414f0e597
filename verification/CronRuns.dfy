/** Runs of the cron service: operations interleaved with jobs being executed outside the lock, by any
    number of overlapping run loops, and with stops, restarts and reloads (pkg/cron/service.go:81-289, 303-307,
    346-454). */
module CronRuns {
  import opened Options
  import opened Cron

  /** A collection of a job for execution. */
  datatype Firing = Firing(id: string, at: int, schedule: Schedule)

  /** The service with its store file, the executions under way (`pending`), the time of the last event,
      the identifiers ever given out and the collections so far. */
  datatype System = System(jobs: seq<Job>, disk: seq<Job>, running: bool, pending: multiset<string>,
                           clock: int, used: set<string>, log: seq<Firing>)

  datatype Event =
    | Tick(now: int)
    | Finish(id: string, start: int, failed: bool, now: int)
    | Add(id: string, schedule: Schedule, now: int)
    | Remove(id: string)
    | EnableJob(id: string, on: bool, now: int)
    | Start(now: int)
    | Stop
    | Load
    | Restart

  function Time(sys: System, ev: Event): int {
    match ev
    case Tick(now) => now
    case Finish(_, _, _, now) => now
    case Add(_, _, now) => now
    case EnableJob(_, _, now) => now
    case Start(now) => now
    case _ => sys.clock
  }

  /** The clock does not run backwards, only executions under way finish, and new identifiers are new. */
  predicate Possible(sys: System, ev: Event) {
    && sys.clock <= Time(sys, ev)
    && (ev.Finish? ==> ev.id in sys.pending)
    && (ev.Add? ==> ev.id !in sys.used)
  }

  function Firings(jobs: seq<Job>, now: int): (r: seq<Firing>)
    ensures |r| == |DueIDs(jobs, now)|
  {
    var ids := DueIDs(jobs, now);
    seq(|ids|, i requires 0 <= i < |ids| =>
      DueIDsAreDue(jobs, now);
      Firing(ids[i], now, jobs[Find(jobs, ids[i])].schedule))
  }

  /** The new state of the store; what a crashed process had under way is lost. */
  function Step(sys: System, ev: Event, ticks: Ticks): System {
    var sys := sys.(clock := Time(sys, ev));
    match ev
    case Tick(now) =>
      if !sys.running then sys
      else
        var ids := DueIDs(sys.jobs, now);
        Saved(sys, Forget(sys.jobs, ids)).(pending := sys.pending + multiset(ids),
                                          log := sys.log + Firings(sys.jobs, now))
    case Finish(id, start, failed, now) =>
      Saved(sys, Complete(sys.jobs, id, start, failed, now, ticks)).(pending := sys.pending - multiset{id})
    case Add(id, s, now) => Saved(sys, sys.jobs + [NewJob(id, s, now, ticks)]).(used := sys.used + {id})
    case Remove(id) => Saved(sys, Without(sys.jobs, id))
    case EnableJob(id, on, now) => Saved(sys, Enable(sys.jobs, id, on, now, ticks))
    case Start(now) => if sys.running then sys else Saved(sys, Recompute(sys.disk, now, ticks)).(running := true)
    case Stop => sys.(running := false)
    case Load => sys.(jobs := sys.disk)
    case Restart => sys.(jobs := sys.disk, running := false, pending := multiset{})
  }

  function Saved(sys: System, jobs: seq<Job>): System {
    sys.(jobs := jobs, disk := jobs)
  }

  /** The events happen one after the other from `sys`, and each is possible when it happens. */
  ghost predicate IsRun(sys: System, evs: seq<Event>, ticks: Ticks)
    decreases |evs|
  {
    evs == [] || (Possible(sys, evs[0]) && IsRun(Step(sys, evs[0], ticks), evs[1..], ticks))
  }

  function Steps(sys: System, evs: seq<Event>, ticks: Ticks): System
    decreases |evs|
  {
    if evs == [] then sys else Steps(Step(sys, evs[0], ticks), evs[1..], ticks)
  }

  // ---------------------------------------------------------------- collecting

  ghost predicate Distinct(jobs: seq<Job>) {
    forall i, k :: 0 <= i < k < |jobs| ==> jobs[i].id != jobs[k].id
  }

  ghost predicate DueAt(jobs: seq<Job>, id: string, now: int) {
    exists k :: 0 <= k < |jobs| && jobs[k].id == id && Due(jobs[k], now)
  }

  lemma {:induction false} DueIDsAreDue(jobs: seq<Job>, now: int)
    ensures forall i :: 0 <= i < |DueIDs(jobs, now)| ==>
              DueAt(jobs, DueIDs(jobs, now)[i], now) && Find(jobs, DueIDs(jobs, now)[i]) < |jobs|
  {
    if jobs != [] {
      var front, ids := jobs[..|jobs| - 1], DueIDs(jobs, now);
      DueIDsAreDue(front, now);
      forall i | 0 <= i < |ids| ensures DueAt(jobs, ids[i], now) && Find(jobs, ids[i]) < |jobs| {
        if i < |DueIDs(front, now)| {
          var k :| 0 <= k < |front| && front[k].id == ids[i] && Due(front[k], now);
          assert jobs[k] == front[k];
        } else {
          assert jobs[|jobs| - 1].id == ids[i];
        }
      }
    }
  }

  lemma {:induction false} DueIsCollected(jobs: seq<Job>, now: int, k: nat)
    requires k < |jobs| && Due(jobs[k], now)
    ensures jobs[k].id in DueIDs(jobs, now)
  {
    if k < |jobs| - 1 {
      DueIsCollected(jobs[..|jobs| - 1], now, k);
    }
  }

  ghost predicate NoDuplicates(ids: seq<string>) {
    forall i, k :: 0 <= i < k < |ids| ==> ids[i] != ids[k]
  }

  lemma {:induction false} DueIDsDistinct(jobs: seq<Job>, now: int)
    requires Distinct(jobs)
    ensures NoDuplicates(DueIDs(jobs, now))
  {
    if jobs != [] {
      var front := jobs[..|jobs| - 1];
      DueIDsDistinct(front, now);
      DueIDsAreDue(front, now);
      var before, ids := DueIDs(front, now), DueIDs(jobs, now);
      forall i, k | 0 <= i < k < |ids| ensures ids[i] != ids[k] {
        if k == |before| {
          var n :| 0 <= n < |front| && front[n].id == before[i] && Due(front[n], now);
          assert jobs[n] == front[n];
        } else {
          assert ids[i] == before[i] && ids[k] == before[k];
        }
      }
    }
  }

  /** After a collection no enabled job is due any more at that instant. */
  lemma NothingLeftDue(sys: System, now: int, ticks: Ticks)
    requires sys.running
    ensures forall j <- Step(sys, Tick(now), ticks).jobs :: !Due(j, now)
  {
    var jobs, jobs' := sys.jobs, Step(sys, Tick(now), ticks).jobs;
    forall k | 0 <= k < |jobs'| ensures !Due(jobs'[k], now) {
      if Due(jobs[k], now) {
        DueIsCollected(jobs, now, k);
      }
    }
  }

  // ---------------------------------------------------------------- what every run keeps

  /** What the next run of a job must respect once the job has been collected as `f`: a one-shot job has
      none, and an interval job waits out its interval, as long as the clock is that far from overflow. */
  ghost predicate Respects(j: Job, f: Firing, clock: int) {
    && j.schedule == f.schedule && f.at <= clock
    && (j.schedule.kind == At ==> j.nextRun == None && (j.schedule.atMS.Some? ==> j.schedule.atMS.value <= clock))
    && (IntervalFits(j.schedule, clock) && j.nextRun.Some? ==> f.at + j.schedule.everyMS.value <= j.nextRun.value)
  }

  predicate IntervalFits(s: Schedule, clock: int) {
    s.kind == Every && s.everyMS.Some? && clock + s.everyMS.value <= MAX_INT64
  }

  /** Two collections of one job: never of a one-shot job, and an interval apart for an interval job. */
  ghost predicate Apart(f: Firing, g: Firing, clock: int) {
    && f.schedule == g.schedule && f.schedule.kind != At
    && (IntervalFits(f.schedule, clock) ==> f.at + f.schedule.everyMS.value <= g.at)
  }

  ghost predicate AllApart(log: seq<Firing>, clock: int) {
    forall i, k :: 0 <= i < k < |log| && log[i].id == log[k].id ==> Apart(log[i], log[k], clock)
  }

  ghost predicate AllRespected(jobs: seq<Job>, log: seq<Firing>, clock: int) {
    forall k, i :: 0 <= k < |jobs| && 0 <= i < |log| && jobs[k].id == log[i].id ==> Respects(jobs[k], log[i], clock)
  }

  /** A running service has one-shot jobs scheduled for their own time only. */
  ghost predicate OnTime(jobs: seq<Job>) {
    forall k :: 0 <= k < |jobs| && jobs[k].enabled && jobs[k].schedule.kind == At && jobs[k].nextRun.Some? ==>
      jobs[k].schedule.atMS == jobs[k].nextRun
  }

  ghost predicate Known(jobs: seq<Job>, log: seq<Firing>, used: set<string>) {
    && (forall k :: 0 <= k < |jobs| ==> jobs[k].id in used)
    && (forall i :: 0 <= i < |log| ==> log[i].id in used)
  }

  ghost predicate Inv(sys: System) {
    && sys.disk == sys.jobs
    && Distinct(sys.jobs)
    && Known(sys.jobs, sys.log, sys.used)
    && AllRespected(sys.jobs, sys.log, sys.clock)
    && AllApart(sys.log, sys.clock)
    && (sys.running ==> OnTime(sys.jobs))
  }

  /** A service freshly created on a store file with distinct identifiers, whatever else the file says. */
  ghost predicate Initial(sys: System) {
    && sys.disk == sys.jobs && Distinct(sys.jobs) && !sys.running
    && sys.pending == multiset{} && sys.log == []
    && (forall k :: 0 <= k < |sys.jobs| ==> sys.jobs[k].id in sys.used)
  }

  /** What an event other than a new job may do to a job: keep its next run, forget it or compute it afresh. */
  ghost predicate Evolves(j: Job, j': Job, now: int, ticks: Ticks) {
    && j'.id == j.id && j'.schedule == j.schedule
    && ((j'.nextRun == j.nextRun && (j'.enabled ==> j.enabled)) || j'.nextRun == None ||
        j'.nextRun == ComputeNextRun(j.schedule, now, ticks))
  }

  /** Every job of `jobs'` comes from one of `jobs`, and they are still distinct. */
  ghost predicate Derived(jobs: seq<Job>, jobs': seq<Job>, now: int, ticks: Ticks) {
    Distinct(jobs') && forall k :: 0 <= k < |jobs'| ==> ComesFrom(jobs, jobs'[k], now, ticks)
  }

  ghost predicate ComesFrom(jobs: seq<Job>, j': Job, now: int, ticks: Ticks) {
    exists i :: 0 <= i < |jobs| && Evolves(jobs[i], j', now, ticks)
  }

  lemma WrapFits(x: int)
    requires -MAX_INT64 - 1 <= x <= MAX_INT64
    ensures Wrap(x) == x
  {
  }

  lemma EvolvesRespects(j: Job, j': Job, f: Firing, clock: int, now: int, ticks: Ticks)
    requires Evolves(j, j', now, ticks) && Respects(j, f, clock) && clock <= now
    ensures Respects(j', f, now)
  {
  }

  lemma FindIsUnique(jobs: seq<Job>, k: nat)
    requires Distinct(jobs) && k < |jobs|
    ensures Find(jobs, jobs[k].id) == k
  {
  }

  lemma {:induction false} WithoutDerived(jobs: seq<Job>, id: string, now: int, ticks: Ticks)
    requires Distinct(jobs)
    ensures Derived(jobs, Without(jobs, id), now, ticks)
    ensures forall k :: 0 <= k < |Without(jobs, id)| ==> Without(jobs, id)[k] in jobs
  {
    if jobs != [] {
      var front, last := jobs[..|jobs| - 1], jobs[|jobs| - 1];
      WithoutDerived(front, id, now, ticks);
      var r, w := Without(jobs, id), Without(front, id);
      forall k | 0 <= k < |r| ensures r[k] in jobs && ComesFrom(jobs, r[k], now, ticks) {
        assert k < |w| ==> w[k] in front;
        var i :| 0 <= i < |jobs| && jobs[i] == r[k];
        assert Evolves(jobs[i], r[k], now, ticks);
      }
      forall i, k | 0 <= i < k < |r| ensures r[i].id != r[k].id {
        assert w[i] in front;
      }
    }
  }

  /** Replacing one job by what evolves from it. */
  lemma ReplaceDerived(jobs: seq<Job>, k: nat, j: Job, now: int, ticks: Ticks)
    requires Distinct(jobs) && k < |jobs| && Evolves(jobs[k], j, now, ticks)
    ensures Derived(jobs, jobs[k := j], now, ticks)
  {
    MapDerived(jobs, jobs[k := j], now, ticks);
  }

  lemma MapDerived(jobs: seq<Job>, jobs': seq<Job>, now: int, ticks: Ticks)
    requires Distinct(jobs) && |jobs'| == |jobs|
    requires forall k :: 0 <= k < |jobs| ==> Evolves(jobs[k], jobs'[k], now, ticks)
    ensures Derived(jobs, jobs', now, ticks)
  {
    forall k | 0 <= k < |jobs'| ensures ComesFrom(jobs, jobs'[k], now, ticks) {
      assert Evolves(jobs[k], jobs'[k], now, ticks);
    }
  }

  /** An event that adds no job and collects none keeps everything. */
  lemma DerivedKeeps(sys: System, jobs': seq<Job>, now: int, ticks: Ticks)
    requires Inv(sys) && sys.clock <= now && Derived(sys.jobs, jobs', now, ticks)
    ensures Known(jobs', sys.log, sys.used) && AllRespected(jobs', sys.log, now) && AllApart(sys.log, now)
    ensures OnTime(sys.jobs) ==> OnTime(jobs')
  {
    forall k, i | 0 <= k < |jobs'| && 0 <= i < |sys.log| && jobs'[k].id == sys.log[i].id
      ensures Respects(jobs'[k], sys.log[i], now)
    {
      assert ComesFrom(sys.jobs, jobs'[k], now, ticks);
      var n :| 0 <= n < |sys.jobs| && Evolves(sys.jobs[n], jobs'[k], now, ticks);
      EvolvesRespects(sys.jobs[n], jobs'[k], sys.log[i], sys.clock, now, ticks);
    }
    forall k | 0 <= k < |jobs'|
      ensures jobs'[k].id in sys.used
      ensures OnTime(sys.jobs) && jobs'[k].enabled && jobs'[k].schedule.kind == At && jobs'[k].nextRun.Some? ==>
                jobs'[k].schedule.atMS == jobs'[k].nextRun
    {
      assert ComesFrom(sys.jobs, jobs'[k], now, ticks);
    }
  }

  lemma CompleteDerived(jobs: seq<Job>, id: string, start: int, failed: bool, now: int, ticks: Ticks)
    requires Distinct(jobs)
    ensures Derived(jobs, Complete(jobs, id, start, failed, now, ticks), now, ticks)
  {
    var k := Find(jobs, id);
    MapDerived(jobs, jobs, now, ticks);
    WithoutDerived(jobs, id, now, ticks);
    if k < |jobs| {
      ReplaceDerived(jobs, k, Finished(jobs[k], start, failed, now, ticks), now, ticks);
    }
  }

  lemma EnableDerived(jobs: seq<Job>, id: string, on: bool, now: int, ticks: Ticks)
    requires Distinct(jobs)
    ensures Derived(jobs, Enable(jobs, id, on, now, ticks), now, ticks)
  {
    var k := Find(jobs, id);
    MapDerived(jobs, jobs, now, ticks);
    if k < |jobs| {
      ReplaceDerived(jobs, k, Enabled(jobs[k], on, now, ticks), now, ticks);
    }
  }

  /** A collected job was last collected its interval ago, and is no one-shot job collected before. */
  lemma CollectedApart(sys: System, now: int, i: nat, k: nat)
    requires Inv(sys) && sys.running && sys.clock <= now
    requires i < |sys.log| && k < |DueIDs(sys.jobs, now)|
    ensures var f := Firings(sys.jobs, now)[k];
            sys.log[i].id == f.id ==> Apart(sys.log[i], f, now)
  {
    var jobs, id := sys.jobs, DueIDs(sys.jobs, now)[k];
    DueIDsAreDue(jobs, now);
    assert DueAt(jobs, id, now);
    var n :| 0 <= n < |jobs| && jobs[n].id == id && Due(jobs[n], now);
    FindIsUnique(jobs, n);
  }

  /** A collected job has no next run, and a one-shot job's time has come. */
  lemma CollectedRespects(sys: System, now: int, n: nat, k: nat)
    requires Inv(sys) && sys.running && sys.clock <= now
    requires n < |sys.jobs| && k < |DueIDs(sys.jobs, now)|
    ensures var f := Firings(sys.jobs, now)[k];
            sys.jobs[n].id == f.id ==> Respects(Forget(sys.jobs, DueIDs(sys.jobs, now))[n], f, now)
  {
    var jobs, id := sys.jobs, DueIDs(sys.jobs, now)[k];
    DueIDsAreDue(jobs, now);
    assert DueAt(jobs, id, now);
    FindIsUnique(jobs, n);
  }

  /** A collection: the collected jobs were apart from their earlier collections, and have no next run now. */
  lemma TickKeeps(sys: System, now: int, ticks: Ticks)
    requires Inv(sys) && sys.running && sys.clock <= now
    ensures Inv(Step(sys, Tick(now), ticks))
  {
    hide Firings, Forget, Respects, Apart, OnTime;
    var jobs, ids := sys.jobs, DueIDs(sys.jobs, now);
    var jobs', fs := Forget(jobs, ids), Firings(jobs, now);
    ForgetDerived(jobs, ids, now, ticks);
    DerivedKeeps(sys, jobs', now, ticks);
    FiringsDistinct(jobs, now);
    forall i: nat, k: nat | i < |sys.log| && k < |fs| && sys.log[i].id == fs[k].id
      ensures Apart(sys.log[i], fs[k], now)
    {
      CollectedApart(sys, now, i, k);
    }
    forall n: nat, k: nat | n < |jobs'| && k < |fs| && jobs'[n].id == fs[k].id
      ensures Respects(jobs'[n], fs[k], now)
    {
      CollectedRespects(sys, now, n, k);
    }
    forall k: nat | k < |fs| ensures fs[k].id in sys.used {
      CollectedKnown(sys, now, k);
    }
    LogGrows(sys.log, fs, jobs', now);
  }

  lemma ForgetDerived(jobs: seq<Job>, ids: seq<string>, now: int, ticks: Ticks)
    requires Distinct(jobs)
    ensures Derived(jobs, Forget(jobs, ids), now, ticks)
    ensures forall k :: 0 <= k < |jobs| ==> Forget(jobs, ids)[k].id == jobs[k].id
  {
    MapDerived(jobs, Forget(jobs, ids), now, ticks);
  }

  lemma FiringsDistinct(jobs: seq<Job>, now: int)
    requires Distinct(jobs)
    ensures forall i, k :: 0 <= i < k < |Firings(jobs, now)| ==> Firings(jobs, now)[i].id != Firings(jobs, now)[k].id
  {
    DueIDsDistinct(jobs, now);
  }

  lemma CollectedKnown(sys: System, now: int, k: nat)
    requires Inv(sys) && k < |DueIDs(sys.jobs, now)|
    ensures Firings(sys.jobs, now)[k].id in sys.used
  {
    DueIDsAreDue(sys.jobs, now);
    assert DueAt(sys.jobs, DueIDs(sys.jobs, now)[k], now);
  }

  lemma LogGrows(log: seq<Firing>, fs: seq<Firing>, jobs: seq<Job>, now: int)
    requires AllApart(log, now) && AllRespected(jobs, log, now)
    requires forall i, k :: 0 <= i < k < |fs| ==> fs[i].id != fs[k].id
    requires forall i, k :: 0 <= i < |log| && 0 <= k < |fs| && log[i].id == fs[k].id ==> Apart(log[i], fs[k], now)
    requires forall n, k :: 0 <= n < |jobs| && 0 <= k < |fs| && jobs[n].id == fs[k].id ==> Respects(jobs[n], fs[k], now)
    ensures AllApart(log + fs, now) && AllRespected(jobs, log + fs, now)
  {
    var all := log + fs;
    forall i, k | 0 <= i < k < |all| && all[i].id == all[k].id ensures Apart(all[i], all[k], now) {
      if k >= |log| {
        assert all[k] == fs[k - |log|];
        if i < |log| {
          assert all[i] == log[i];
        }
      }
    }
    forall n, i | 0 <= n < |jobs| && 0 <= i < |all| && jobs[n].id == all[i].id ensures Respects(jobs[n], all[i], now) {
      if i >= |log| {
        assert all[i] == fs[i - |log|];
      }
    }
  }

  lemma AddKeeps(sys: System, id: string, s: Schedule, now: int, ticks: Ticks)
    requires Inv(sys) && Possible(sys, Add(id, s, now))
    ensures Inv(Step(sys, Add(id, s, now), ticks))
  {
    hide Known, AllRespected, AllApart, OnTime, Distinct, Derived, ComputeNextRun;
    MapDerived(sys.jobs, sys.jobs, now, ticks);
    DerivedKeeps(sys, sys.jobs, now, ticks);
    NewJobOnTime(id, s, now, ticks);
    JobAdded(sys.jobs, NewJob(id, s, now, ticks), sys.log, sys.used, now);
  }

  lemma NewJobOnTime(id: string, s: Schedule, now: int, ticks: Ticks)
    ensures OnTime([NewJob(id, s, now, ticks)])
  {
  }

  /** A job with a new identifier has not been collected yet. */
  lemma JobAdded(jobs: seq<Job>, j: Job, log: seq<Firing>, used: set<string>, clock: int)
    requires Distinct(jobs) && Known(jobs, log, used) && AllRespected(jobs, log, clock) && j.id !in used
    ensures Distinct(jobs + [j]) && Known(jobs + [j], log, used + {j.id}) && AllRespected(jobs + [j], log, clock)
    ensures OnTime(jobs) && OnTime([j]) ==> OnTime(jobs + [j])
  {
    hide Respects;
    assert [j][0] == j;
    assert forall k :: 0 <= k < |jobs| ==> (jobs + [j])[k] == jobs[k];
  }

  lemma RecomputedOnTime(jobs: seq<Job>, now: int, ticks: Ticks)
    ensures OnTime(Recompute(jobs, now, ticks))
  {
  }

  /** Every possible event keeps the invariant. */
  lemma StepKeeps(sys: System, ev: Event, ticks: Ticks)
    requires Inv(sys) && Possible(sys, ev)
    ensures Inv(Step(sys, ev, ticks))
  {
    hide Known, AllRespected, AllApart, OnTime, Derived, ComputeNextRun, Firings, Forget, DueIDs;
    var now := Time(sys, ev);
    MapDerived(sys.jobs, sys.jobs, now, ticks);
    DerivedKeeps(sys, sys.jobs, now, ticks);
    match ev
    case Tick(_) => if sys.running { TickKeeps(sys, now, ticks); }
    case Finish(id, start, failed, _) =>
      CompleteDerived(sys.jobs, id, start, failed, now, ticks);
      DerivedKeeps(sys, Complete(sys.jobs, id, start, failed, now, ticks), now, ticks);
    case Add(id, s, _) => AddKeeps(sys, id, s, now, ticks);
    case Remove(id) =>
      WithoutDerived(sys.jobs, id, now, ticks);
      DerivedKeeps(sys, Without(sys.jobs, id), now, ticks);
    case EnableJob(id, on, _) =>
      EnableDerived(sys.jobs, id, on, now, ticks);
      DerivedKeeps(sys, Enable(sys.jobs, id, on, now, ticks), now, ticks);
    case Start(_) =>
      MapDerived(sys.jobs, Recompute(sys.jobs, now, ticks), now, ticks);
      DerivedKeeps(sys, Recompute(sys.jobs, now, ticks), now, ticks);
      RecomputedOnTime(sys.jobs, now, ticks);
    case _ =>
  }

  lemma {:induction false} RunKeeps(sys: System, evs: seq<Event>, ticks: Ticks)
    requires Inv(sys) && IsRun(sys, evs, ticks)
    ensures Inv(Steps(sys, evs, ticks))
    decreases |evs|
  {
    if evs != [] {
      StepKeeps(sys, evs[0], ticks);
      RunKeeps(Step(sys, evs[0], ticks), evs[1..], ticks);
    }
  }

  // ---------------------------------------------------------------- the guarantees

  /** In every run from any store, a one-shot job is collected for execution at most once. */
  lemma AtMostOnce(sys: System, evs: seq<Event>, ticks: Ticks, i: nat, k: nat)
    requires Initial(sys) && IsRun(sys, evs, ticks)
    requires i < k < |Steps(sys, evs, ticks).log|
    ensures var log := Steps(sys, evs, ticks).log;
            log[i].schedule.kind == At || log[k].schedule.kind == At ==> log[i].id != log[k].id
  {
    RunKeeps(sys, evs, ticks);
  }

  /** In every run, two collections of an interval job are at least its interval apart, unless the clock
      has come so close to the largest time that adding the interval overflows. */
  lemma IntervalsKept(sys: System, evs: seq<Event>, ticks: Ticks, i: nat, k: nat)
    requires Initial(sys) && IsRun(sys, evs, ticks)
    requires i < k < |Steps(sys, evs, ticks).log|
    ensures var end := Steps(sys, evs, ticks); var f, g := end.log[i], end.log[k];
            f.id == g.id && IntervalFits(f.schedule, end.clock) ==>
              f.schedule == g.schedule && f.at + f.schedule.everyMS.value <= g.at
  {
    RunKeeps(sys, evs, ticks);
  }

  /** The overflow is real: a finished interval job is due again at that very instant exactly when adding
      its interval to the clock exceeds the largest int64. */
  lemma FinishedDueAgain(j: Job, start: int, failed: bool, now: int, ticks: Ticks)
    requires j.enabled && j.schedule.kind == Every && j.schedule.everyMS.Some?
    requires 0 < j.schedule.everyMS.value <= MAX_INT64 && 0 <= now <= MAX_INT64
    ensures Due(Finished(j, start, failed, now, ticks), now) <==> MAX_INT64 < now + j.schedule.everyMS.value
  {
    var x := now + j.schedule.everyMS.value;
    if x <= MAX_INT64 {
      WrapFits(x);
    } else {
      WrapFits(x - 2 * MAX_INT64 - 2);
      assert Wrap(x) == x - 2 * MAX_INT64 - 2;
    }
  }

  /** And it breaks the distance in a run: whenever clock plus interval exceeds int64, a service started then collects
      its only job twice at one instant. */
  lemma OverflowRun(id: string, every: int, now: int, ticks: Ticks) returns (sys: System, evs: seq<Event>)
    requires 0 < every <= MAX_INT64 && 0 <= now <= MAX_INT64 < now + every
    ensures Initial(sys) && IsRun(sys, evs, ticks)
    ensures var s := Schedule(Every, None, Some(every), "");
            Steps(sys, evs, ticks).log == [Firing(id, now, s), Firing(id, now, s)]
  {
    hide Step, IsRun, Steps, Firings, DueIDs, Find, Complete, Recompute, Wrap;
    var s := Schedule(Every, None, Some(every), "");
    var next := Some(Wrap(now + every));
    OverflowIsPast(now, every);
    var j := Job(id, true, s, None, None, false, false);
    var due := j.(nextRun := next);
    var done := j.(lastRun := Some(now));
    sys := System([j], [j], false, multiset{}, now, {id}, []);
    evs := [Start(now), Tick(now), Finish(id, now, false, now), Tick(now)];
    var f := Firing(id, now, s);
    var s1 := System([due], [due], true, multiset{}, now, {id}, []);
    var s2 := System([j], [j], true, multiset{id}, now, {id}, [f]);
    var s3 := System([done.(nextRun := next)], [done.(nextRun := next)], true, multiset{}, now, {id}, [f]);
    var s4 := System([done], [done], true, multiset{id}, now, {id}, [f, f]);
    StartOne(sys, j, now, ticks);
    FinishOne(s2, j, now, ticks);
    TickOne(s1, due, now, ticks);
    TickOne(s3, done.(nextRun := next), now, ticks);
    FourSteps(sys, evs, ticks, s1, s2, s3, s4);
  }

  lemma OverflowIsPast(now: int, every: int)
    requires 0 < every <= MAX_INT64 && 0 <= now <= MAX_INT64 < now + every
    ensures Wrap(now + every) <= now
  {
    WrapFits(now + every - 2 * MAX_INT64 - 2);
    assert Wrap(now + every) == now + every - 2 * MAX_INT64 - 2;
  }

  /** A tick that collects the only job. */
  lemma TickOne(sys: System, j: Job, now: int, ticks: Ticks)
    requires sys.running && sys.jobs == [j] && Due(j, now)
    ensures var jobs := [j.(nextRun := None)];
            Step(sys, Tick(now), ticks) ==
              System(jobs, jobs, true, sys.pending + multiset{j.id}, now, sys.used,
                     sys.log + [Firing(j.id, now, j.schedule)])
  {
    assert [j][..0] == [];
    assert DueIDs([j], now) == [j.id];
    assert Firings([j], now) == [Firing(j.id, now, j.schedule)];
    assert multiset([j.id]) == multiset{j.id};
  }

  lemma StartOne(sys: System, j: Job, now: int, ticks: Ticks)
    requires !sys.running && sys.disk == [j] && j.enabled
    ensures var jobs := [j.(nextRun := ComputeNextRun(j.schedule, now, ticks))];
            Step(sys, Start(now), ticks) == System(jobs, jobs, true, sys.pending, now, sys.used, sys.log)
  {
    hide ComputeNextRun;
  }

  lemma FinishOne(sys: System, j: Job, now: int, ticks: Ticks)
    requires sys.jobs == [j] && j.schedule.kind == Every
    ensures var jobs := [Finished(j, now, false, now, ticks)];
            Step(sys, Finish(j.id, now, false, now), ticks) ==
              System(jobs, jobs, sys.running, sys.pending - multiset{j.id}, now, sys.used, sys.log)
  {
    hide Finished;
    assert Find([j], j.id) == 0;
  }

  lemma FourSteps(sys: System, evs: seq<Event>, ticks: Ticks, s1: System, s2: System, s3: System, s4: System)
    requires |evs| == 4
    requires Possible(sys, evs[0]) && Step(sys, evs[0], ticks) == s1
    requires Possible(s1, evs[1]) && Step(s1, evs[1], ticks) == s2
    requires Possible(s2, evs[2]) && Step(s2, evs[2], ticks) == s3
    requires Possible(s3, evs[3]) && Step(s3, evs[3], ticks) == s4
    ensures IsRun(sys, evs, ticks) && Steps(sys, evs, ticks) == s4
  {
    hide Step, Possible;
    var e1, e2, e3 := evs[1..], evs[2..], evs[3..];
    assert e1[0] == evs[1] && e1[1..] == e2 && e2[0] == evs[2] && e2[1..] == e3 && e3[0] == evs[3] && e3[1..] == [];
    assert IsRun(s3, e3, ticks) && Steps(s3, e3, ticks) == s4;
    assert IsRun(s2, e2, ticks) && Steps(s2, e2, ticks) == s4;
    assert IsRun(s1, e1, ticks) && Steps(s1, e1, ticks) == s4;
  }
}
