/** Jobs that wait for their time are executed when it comes (pkg/cron/service.go:81-289, 346-454). */
module CronLiveness {
  import opened Options
  import opened Cron
  import opened CronRuns
  import CronJobs

  // ---------------------------------------------------------------- runs in pieces

  lemma {:induction false} RunSplits(sys: System, a: seq<Event>, b: seq<Event>, ticks: Ticks)
    requires IsRun(sys, a + b, ticks)
    ensures IsRun(sys, a, ticks) && IsRun(Steps(sys, a, ticks), b, ticks)
    ensures Steps(sys, a + b, ticks) == Steps(Steps(sys, a, ticks), b, ticks)
    decreases |a|
  {
    hide Step, Possible;
    if a == [] {
      assert a + b == b;
    } else {
      assert (a + b)[0] == a[0] && (a + b)[1..] == a[1..] + b;
      RunSplits(Step(sys, a[0], ticks), a[1..], b, ticks);
    }
  }

  lemma OneStep(sys: System, ev: Event, ticks: Ticks)
    requires IsRun(sys, [ev], ticks)
    ensures Possible(sys, ev) && Steps(sys, [ev], ticks) == Step(sys, ev, ticks)
  {
    hide Step, Possible;
    assert [ev][1..] == [];
    assert IsRun(Step(sys, ev, ticks), [], ticks);
  }

  /** Only identifiers once given out are under way. */
  ghost predicate PendingKnown(sys: System) {
    forall id <- sys.pending :: id in sys.used
  }

  lemma StepKeepsPending(sys: System, ev: Event, ticks: Ticks)
    requires Inv(sys) && PendingKnown(sys)
    ensures PendingKnown(Step(sys, ev, ticks))
  {
    hide ComputeNextRun, Complete, Enable, Without, Recompute, Forget;
    if ev.Tick? {
      DueIDsAreDue(sys.jobs, ev.now);
      var ids := DueIDs(sys.jobs, ev.now);
      forall id | id in multiset(ids) ensures id in sys.used {
        var i :| 0 <= i < |ids| && ids[i] == id;
        assert DueAt(sys.jobs, ids[i], ev.now);
      }
    }
  }

  lemma {:induction false} RunKeepsPending(sys: System, evs: seq<Event>, ticks: Ticks)
    requires Inv(sys) && PendingKnown(sys) && IsRun(sys, evs, ticks)
    ensures Inv(Steps(sys, evs, ticks)) && PendingKnown(Steps(sys, evs, ticks))
    decreases |evs|
  {
    hide Inv, PendingKnown, Step, Possible;
    if evs != [] {
      StepKeeps(sys, evs[0], ticks);
      StepKeepsPending(sys, evs[0], ticks);
      RunKeepsPending(Step(sys, evs[0], ticks), evs[1..], ticks);
    }
  }

  lemma InitialInv(sys: System)
    requires Initial(sys)
    ensures Inv(sys) && PendingKnown(sys)
  {
  }

  // ---------------------------------------------------------------- waiting

  ghost predicate IsWaiting(j: Job, id: string, s: Schedule, n: int) {
    j.id == id && j.enabled && j.schedule == s && j.nextRun == Some(n)
  }

  /** The job is enabled, scheduled for `n` and not being executed. */
  ghost predicate Waiting(sys: System, id: string, s: Schedule, n: int) {
    && (exists k :: 0 <= k < |sys.jobs| && IsWaiting(sys.jobs[k], id, s, n))
    && id !in sys.pending && (s.kind == At ==> s.atMS == Some(n))
  }

  /** The event leaves the waiting job alone: it is no tick of the running service from `n` on, and does not remove,
      disable or reschedule the job. Starting the service and enabling the job again reschedule it; a one-shot job
      keeps its time then if that is still to come. */
  ghost predicate Spares(sys: System, ev: Event, id: string, s: Schedule, n: int) {
    match ev
    case Tick(now) => sys.running ==> now < n
    case Remove(x) => x != id
    case EnableJob(x, on, now) => x != id || (on && s.kind == At && now < n)
    case Start(now) => sys.running || (s.kind == At && now < n)
    case _ => true
  }

  ghost predicate AllSpare(sys: System, evs: seq<Event>, ticks: Ticks, id: string, s: Schedule, n: int)
    decreases |evs|
  {
    evs == [] || (Spares(sys, evs[0], id, s, n) && AllSpare(Step(sys, evs[0], ticks), evs[1..], ticks, id, s, n))
  }

  lemma {:induction false} WithoutKeeps(jobs: seq<Job>, id: string, j: Job)
    requires j in jobs && j.id != id
    ensures j in Without(jobs, id)
  {
    if jobs != [] && j != jobs[|jobs| - 1] {
      assert jobs == jobs[..|jobs| - 1] + [jobs[|jobs| - 1]];
      WithoutKeeps(jobs[..|jobs| - 1], id, j);
    }
  }

  lemma CollectedIsDue(jobs: seq<Job>, now: int, k: nat)
    requires Distinct(jobs) && k < |jobs| && jobs[k].id in DueIDs(jobs, now)
    ensures Due(jobs[k], now)
  {
    DueIDsAreDue(jobs, now);
    var i :| 0 <= i < |DueIDs(jobs, now)| && DueIDs(jobs, now)[i] == jobs[k].id;
    assert DueAt(jobs, DueIDs(jobs, now)[i], now);
  }

  lemma TickSpares(sys: System, now: int, ticks: Ticks, id: string, s: Schedule, n: int)
    requires Inv(sys) && Waiting(sys, id, s, n) && now < n
    ensures Waiting(Step(sys, Tick(now), ticks), id, s, n)
  {
    hide DueIDs, Known, AllRespected, AllApart, OnTime;
    var k :| 0 <= k < |sys.jobs| && IsWaiting(sys.jobs[k], id, s, n);
    if id in DueIDs(sys.jobs, now) {
      CollectedIsDue(sys.jobs, now, k);
    }
    if sys.running {
      assert IsWaiting(Step(sys, Tick(now), ticks).jobs[k], id, s, n);
    }
  }

  lemma OthersSpare(jobs: seq<Job>, k: nat, x: string, start: int, failed: bool, on: bool, now: int, ticks: Ticks)
    requires k < |jobs| && jobs[k].id != x
    ensures jobs[k] in Without(jobs, x)
    ensures jobs[k] in Complete(jobs, x, start, failed, now, ticks)
    ensures jobs[k] in Enable(jobs, x, on, now, ticks)
  {
    hide Finished, Enabled;
    WithoutKeeps(jobs, x, jobs[k]);
    var m := Find(jobs, x);
    if m < |jobs| {
      assert jobs[m := Finished(jobs[m], start, failed, now, ticks)][k] == jobs[k];
      assert jobs[m := Enabled(jobs[m], on, now, ticks)][k] == jobs[k];
    }
  }

  lemma WaitsIn(jobs: seq<Job>, j: Job, id: string, s: Schedule, n: int)
    requires j in jobs && IsWaiting(j, id, s, n)
    ensures exists k :: 0 <= k < |jobs| && IsWaiting(jobs[k], id, s, n)
  {
    var k :| 0 <= k < |jobs| && jobs[k] == j;
  }

  lemma StepSpares(sys: System, ev: Event, ticks: Ticks, id: string, s: Schedule, n: int)
    requires Inv(sys) && Possible(sys, ev) && Waiting(sys, id, s, n) && Spares(sys, ev, id, s, n)
    ensures Waiting(Step(sys, ev, ticks), id, s, n)
  {
    hide DueIDs, Forget, Without, Complete, Known, AllRespected, AllApart, OnTime, Distinct;
    var k :| 0 <= k < |sys.jobs| && IsWaiting(sys.jobs[k], id, s, n);
    var j := sys.jobs[k];
    match ev
    case Tick(now) => if sys.running { TickSpares(sys, now, ticks, id, s, n); }
    case Finish(x, start, failed, now) =>
      OthersSpare(sys.jobs, k, x, start, failed, false, now, ticks);
      WaitsIn(Complete(sys.jobs, x, start, failed, now, ticks), j, id, s, n);
    case Remove(x) =>
      OthersSpare(sys.jobs, k, x, 0, false, false, 0, ticks);
      WaitsIn(Without(sys.jobs, x), j, id, s, n);
    case EnableJob(x, on, now) =>
      if x == id {
        EnableSpares(sys.jobs, id, now, ticks, k, s, n);
      } else {
        OthersSpare(sys.jobs, k, x, 0, false, on, now, ticks);
        WaitsIn(Enable(sys.jobs, x, on, now, ticks), j, id, s, n);
      }
    case Add(x, t, now) => WaitsIn(sys.jobs + [NewJob(x, t, now, ticks)], j, id, s, n);
    case Start(now) =>
      if !sys.running {
        assert IsWaiting(Recompute(sys.jobs, now, ticks)[k], id, s, n);
      }
    case _ =>
  }

  lemma EnableSpares(jobs: seq<Job>, id: string, now: int, ticks: Ticks, k: nat, s: Schedule, n: int)
    requires Distinct(jobs) && k < |jobs| && IsWaiting(jobs[k], id, s, n)
    requires s.kind == At && s.atMS == Some(n) && now < n
    ensures var e := Enable(jobs, id, true, now, ticks);
            exists m :: 0 <= m < |e| && IsWaiting(e[m], id, s, n)
  {
    FindIsUnique(jobs, k);
    assert IsWaiting(Enable(jobs, id, true, now, ticks)[k], id, s, n);
  }

  // ---------------------------------------------------------------- executed in time

  /** A tick of the running service from its time on collects the waiting job. */
  lemma TickCollects(sys: System, now: int, ticks: Ticks, id: string, s: Schedule, n: int)
    requires Inv(sys) && Waiting(sys, id, s, n) && sys.running && n <= now
    ensures Firing(id, now, s) in Step(sys, Tick(now), ticks).log && id in Step(sys, Tick(now), ticks).pending
  {
    var k :| 0 <= k < |sys.jobs| && IsWaiting(sys.jobs[k], id, s, n);
    DueIsCollected(sys.jobs, now, k);
    FindIsUnique(sys.jobs, k);
    var ids := DueIDs(sys.jobs, now);
    var i :| 0 <= i < |ids| && ids[i] == id;
    assert Firings(sys.jobs, now)[i] == Firing(id, now, s);
  }

  lemma {:induction false} WaitsOn(sys: System, evs: seq<Event>, ticks: Ticks, id: string, s: Schedule, n: int)
    requires Inv(sys) && IsRun(sys, evs, ticks) && Waiting(sys, id, s, n) && AllSpare(sys, evs, ticks, id, s, n)
    ensures Inv(Steps(sys, evs, ticks)) && Waiting(Steps(sys, evs, ticks), id, s, n)
    decreases |evs|
  {
    hide Inv, Waiting, Spares, Step, Possible;
    if evs != [] {
      StepSpares(sys, evs[0], ticks, id, s, n);
      StepKeeps(sys, evs[0], ticks);
      WaitsOn(Step(sys, evs[0], ticks), evs[1..], ticks, id, s, n);
    }
  }

  /** Whatever else happens meanwhile, a waiting job that is left alone is collected for execution by the first tick
      of the running service at or after its time. */
  lemma CollectedOnTime(sys: System, evs: seq<Event>, t: int, ticks: Ticks, id: string, s: Schedule, n: int)
    requires Inv(sys) && Waiting(sys, id, s, n)
    requires IsRun(sys, evs + [Tick(t)], ticks) && AllSpare(sys, evs, ticks, id, s, n)
    requires Steps(sys, evs, ticks).running && n <= t
    ensures Firing(id, t, s) in Steps(sys, evs + [Tick(t)], ticks).log
  {
    hide Inv, Waiting, AllSpare, Step, Possible;
    RunSplits(sys, evs, [Tick(t)], ticks);
    WaitsOn(sys, evs, ticks, id, s, n);
    OneStep(Steps(sys, evs, ticks), Tick(t), ticks);
    TickCollects(Steps(sys, evs, ticks), t, ticks, id, s, n);
  }

  /** The job is to run at `n` when scheduled at `now`: a one-shot job at its time, an interval job an interval later,
      any other at the library's tick. */
  ghost predicate ToRunAt(s: Schedule, now: int, ticks: Ticks, n: int) {
    match s.kind
    case At => s.atMS == Some(n) && now < n
    case Every => s.everyMS.Some? && 0 < s.everyMS.value && 0 <= now && n == now + s.everyMS.value <= CronJobs.LATEST
    case Expression => s.expr != "" && ticks(s.expr, now) == Some(n)
    case Unknown => false
  }

  lemma AddWaits(sys: System, id: string, s: Schedule, now: int, ticks: Ticks, n: int)
    requires Inv(sys) && PendingKnown(sys) && Possible(sys, Add(id, s, now)) && ToRunAt(s, now, ticks, n)
    ensures Waiting(Step(sys, Add(id, s, now), ticks), id, s, n)
  {
    CronJobs.NextRunExactly(s, now, ticks);
    hide ComputeNextRun;
    var jobs := sys.jobs + [NewJob(id, s, now, ticks)];
    assert IsWaiting(jobs[|sys.jobs|], id, s, n);
  }

  /** In every run from any store: a job added to run at `n`, and then left alone, is collected for execution by the
      first tick of the running service at or after `n`. */
  lemma AddedJobsRun(sys: System, before: seq<Event>, id: string, s: Schedule, now: int, after: seq<Event>, t: int,
                     ticks: Ticks, n: int)
    requires Initial(sys) && IsRun(sys, before + ([Add(id, s, now)] + (after + [Tick(t)])), ticks)
    requires ToRunAt(s, now, ticks, n) && n <= t
    requires var added := Step(Steps(sys, before, ticks), Add(id, s, now), ticks);
             AllSpare(added, after, ticks, id, s, n) && Steps(added, after, ticks).running
    ensures Firing(id, t, s) in Steps(sys, before + ([Add(id, s, now)] + (after + [Tick(t)])), ticks).log
  {
    hide Inv, PendingKnown, Initial, Waiting, AllSpare, Step, Possible, ToRunAt;
    InitialInv(sys);
    RunSplits(sys, before, [Add(id, s, now)] + (after + [Tick(t)]), ticks);
    RunKeepsPending(sys, before, ticks);
    var x := Steps(sys, before, ticks);
    RunSplits(x, [Add(id, s, now)], after + [Tick(t)], ticks);
    OneStep(x, Add(id, s, now), ticks);
    StepKeeps(x, Add(id, s, now), ticks);
    AddWaits(x, id, s, now, ticks, n);
    CollectedOnTime(Step(x, Add(id, s, now), ticks), after, t, ticks, id, s, n);
  }

  /** An enabled job that is no one-shot job waits again as soon as its only execution is finished. */
  lemma FinishWaits(sys: System, k: nat, start: int, failed: bool, now: int, ticks: Ticks, n: int)
    requires Inv(sys) && k < |sys.jobs| && sys.jobs[k].enabled && sys.jobs[k].schedule.kind != At
    requires sys.pending[sys.jobs[k].id] == 1 && ToRunAt(sys.jobs[k].schedule, now, ticks, n)
    ensures var j := sys.jobs[k];
            Waiting(Step(sys, Finish(j.id, start, failed, now), ticks), j.id, j.schedule, n)
  {
    hide Known, AllRespected, AllApart, OnTime, ComputeNextRun;
    var j := sys.jobs[k];
    CronJobs.NextRunExactly(j.schedule, now, ticks);
    FindIsUnique(sys.jobs, k);
    var jobs := Complete(sys.jobs, j.id, start, failed, now, ticks);
    assert IsWaiting(jobs[k], j.id, j.schedule, n);
  }

  /** So does a job that is enabled, or that is enabled when the service starts. */
  lemma EnableWaits(sys: System, k: nat, now: int, ticks: Ticks, n: int)
    requires Inv(sys) && k < |sys.jobs| && sys.jobs[k].id !in sys.pending
    requires ToRunAt(sys.jobs[k].schedule, now, ticks, n)
    ensures var j := sys.jobs[k];
            && Waiting(Step(sys, EnableJob(j.id, true, now), ticks), j.id, j.schedule, n)
            && (!sys.running && j.enabled ==> Waiting(Step(sys, Start(now), ticks), j.id, j.schedule, n))
  {
    hide Known, AllRespected, AllApart, OnTime, ComputeNextRun;
    var j := sys.jobs[k];
    CronJobs.NextRunExactly(j.schedule, now, ticks);
    FindIsUnique(sys.jobs, k);
    assert IsWaiting(Enable(sys.jobs, j.id, true, now, ticks)[k], j.id, j.schedule, n);
    if j.enabled {
      assert IsWaiting(Recompute(sys.jobs, now, ticks)[k], j.id, j.schedule, n);
    }
  }
}
