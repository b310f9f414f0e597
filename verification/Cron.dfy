/** The cron scheduler (pkg/cron/service.go): its store, and the operations on it that run under the lock. */
module Cron {
  import opened Options

  const MAX_INT64: int := 0x7FFF_FFFF_FFFF_FFFF

  /** Two's-complement wrap-around of Go's int64 addition. */
  function Wrap(x: int): int {
    (x + MAX_INT64 + 1) % (2 * MAX_INT64 + 2) - MAX_INT64 - 1
  }

  datatype Kind = At | Every | Expression | Unknown

  datatype Schedule = Schedule(kind: Kind, atMS: Option<int>, everyMS: Option<int>, expr: string)

  datatype Job = Job(id: string, enabled: bool, schedule: Schedule, nextRun: Option<int>, lastRun: Option<int>,
                     failed: bool, deleteAfterRun: bool)

  /** The cron-expression library: the tick after a time, or an error. */
  type Ticks = (string, int) -> Option<int>

  function ComputeNextRun(s: Schedule, now: int, ticks: Ticks): Option<int> {
    match s.kind
    case At => if s.atMS.Some? && s.atMS.value > now then s.atMS else None
    case Every =>
      if s.everyMS.None? || s.everyMS.value <= 0 then None else Some(Wrap(now + s.everyMS.value))
    case Expression => if s.expr == "" then None else ticks(s.expr, now)
    case Unknown => None
  }

  // ---------------------------------------------------------------- the store as a value

  predicate Due(j: Job, now: int) {
    j.enabled && j.nextRun.Some? && j.nextRun.value <= now
  }

  function DueIDs(jobs: seq<Job>, now: int): seq<string> {
    if jobs == [] then []
    else
      var j := jobs[|jobs| - 1];
      DueIDs(jobs[..|jobs| - 1], now) + if Due(j, now) then [j.id] else []
  }

  /** The jobs with the next run of every listed one forgotten. */
  function Forget(jobs: seq<Job>, ids: seq<string>): (r: seq<Job>)
    ensures |r| == |jobs|
  {
    seq(|jobs|, k requires 0 <= k < |jobs| => if jobs[k].id in ids then jobs[k].(nextRun := None) else jobs[k])
  }

  /** The first job with this id, or the number of jobs. */
  function Find(jobs: seq<Job>, id: string): (k: nat)
    ensures k <= |jobs|
    ensures k < |jobs| ==> jobs[k].id == id
    ensures forall i :: 0 <= i < k ==> jobs[i].id != id
    decreases |jobs|
  {
    if jobs == [] || jobs[0].id == id then 0 else 1 + Find(jobs[1..], id)
  }

  function Without(jobs: seq<Job>, id: string): (r: seq<Job>)
    ensures |r| <= |jobs|
  {
    if jobs == [] then []
    else
      var j := jobs[|jobs| - 1];
      Without(jobs[..|jobs| - 1], id) + if j.id != id then [j] else []
  }

  lemma {:induction false} WithoutShrinks(jobs: seq<Job>, id: string)
    ensures if exists k :: 0 <= k < |jobs| && jobs[k].id == id then |Without(jobs, id)| < |jobs|
            else Without(jobs, id) == jobs
  {
    if jobs != [] {
      var front, last := jobs[..|jobs| - 1], jobs[|jobs| - 1];
      WithoutShrinks(front, id);
      if last.id == id {
        assert jobs[|jobs| - 1].id == id;
      } else if k :| 0 <= k < |front| && front[k].id == id {
        assert jobs[k].id == id;
      } else {
        assert Without(front, id) == front;
      }
    }
  }

  /** A job after its handler has returned. */
  function Finished(j: Job, start: int, failed: bool, now: int, ticks: Ticks): Job {
    var j := j.(lastRun := Some(start), failed := failed);
    if j.schedule.kind == At then j.(enabled := false, nextRun := None)
    else j.(nextRun := ComputeNextRun(j.schedule, now, ticks))
  }

  function Complete(jobs: seq<Job>, id: string, start: int, failed: bool, now: int, ticks: Ticks): seq<Job> {
    var k := Find(jobs, id);
    if k == |jobs| then jobs
    else if jobs[k].schedule.kind == At && jobs[k].deleteAfterRun then Without(jobs, id)
    else jobs[k := Finished(jobs[k], start, failed, now, ticks)]
  }

  function NewJob(id: string, s: Schedule, now: int, ticks: Ticks): Job {
    Job(id, true, s, ComputeNextRun(s, now, ticks), None, false, s.kind == At)
  }

  function Enabled(j: Job, on: bool, now: int, ticks: Ticks): Job {
    j.(enabled := on, nextRun := if on then ComputeNextRun(j.schedule, now, ticks) else None)
  }

  function Enable(jobs: seq<Job>, id: string, on: bool, now: int, ticks: Ticks): seq<Job> {
    var k := Find(jobs, id);
    if k == |jobs| then jobs else jobs[k := Enabled(jobs[k], on, now, ticks)]
  }

  function Recompute(jobs: seq<Job>, now: int, ticks: Ticks): (r: seq<Job>)
    ensures |r| == |jobs|
  {
    seq(|jobs|, k requires 0 <= k < |jobs| =>
      if jobs[k].enabled then jobs[k].(nextRun := ComputeNextRun(jobs[k].schedule, now, ticks)) else jobs[k])
  }

  // ---------------------------------------------------------------- the service

  /** The running service; `disk` is the store file, and every save succeeds. */
  class CronService {
    var jobs: seq<Job>
    var disk: seq<Job>
    var running: bool
    const ticks: Ticks

    constructor (store: seq<Job>, ticks: Ticks)
      ensures jobs == disk == store && !running && this.ticks == ticks
    {
      jobs, disk, running := store, store, false;
      this.ticks := ticks;
    }

    method Start(now: int)
      requires disk == jobs
      modifies this
      ensures disk == jobs == if old(running) then old(jobs) else Recompute(old(disk), now, ticks)
      ensures running
    {
      if running {
        return;
      }
      jobs := disk;
      RecomputeNextRuns(now);
      disk := jobs;
      running := true;
    }

    method Stop()
      modifies this`running
      ensures !running
    {
      if !running {
        return;
      }
      running := false;
    }

    method RecomputeNextRuns(now: int)
      modifies this`jobs
      ensures jobs == Recompute(old(jobs), now, ticks)
    {
      var i := 0;
      while i < |jobs|
        invariant 0 <= i <= |jobs| == |old(jobs)|
        invariant forall k :: 0 <= k < i ==> jobs[k] == Recompute(old(jobs), now, ticks)[k]
        invariant forall k :: i <= k < |jobs| ==> jobs[k] == old(jobs)[k]
      {
        if jobs[i].enabled {
          jobs := jobs[i := jobs[i].(nextRun := ComputeNextRun(jobs[i].schedule, now, ticks))];
        }
        i := i + 1;
      }
    }

    /** The part of a tick that runs under the lock: it collects the due jobs and forgets their next runs. */
    method CheckJobs(now: int) returns (dueJobIDs: seq<string>)
      modifies this
      ensures running == old(running)
      ensures dueJobIDs == if running then DueIDs(old(jobs), now) else []
      ensures jobs == if running then Forget(old(jobs), dueJobIDs) else old(jobs)
      ensures disk == if running then jobs else old(disk)
    {
      dueJobIDs := [];
      if !running {
        return;
      }
      var i := 0;
      while i < |jobs|
        invariant 0 <= i <= |jobs|
        invariant jobs == old(jobs) && running
        invariant dueJobIDs == DueIDs(jobs[..i], now)
      {
        assert jobs[..i + 1][..i] == jobs[..i];
        if jobs[i].enabled && jobs[i].nextRun.Some? && jobs[i].nextRun.value <= now {
          dueJobIDs := dueJobIDs + [jobs[i].id];
        }
        i := i + 1;
      }
      assert jobs[..|jobs|] == jobs;
      i := 0;
      while i < |jobs|
        invariant 0 <= i <= |jobs| == |old(jobs)| && running
        invariant forall k :: 0 <= k < i ==> jobs[k] == Forget(old(jobs), dueJobIDs)[k]
        invariant forall k :: i <= k < |jobs| ==> jobs[k] == old(jobs)[k]
      {
        if jobs[i].id in dueJobIDs {
          jobs := jobs[i := jobs[i].(nextRun := None)];
        }
        i := i + 1;
      }
      disk := jobs;
    }

    method IndexOf(id: string) returns (k: nat)
      ensures k == Find(jobs, id)
    {
      k := 0;
      while k < |jobs|
        invariant 0 <= k <= |jobs|
        invariant forall i :: 0 <= i < k ==> jobs[i].id != id
      {
        if jobs[k].id == id {
          return;
        }
        k := k + 1;
      }
    }

    /** The part of a job's execution that runs after its handler, under the lock again. */
    method FinishJob(id: string, start: int, failed: bool, now: int)
      requires disk == jobs
      modifies this`jobs, this`disk
      ensures disk == jobs == Complete(old(jobs), id, start, failed, now, ticks)
    {
      var k := IndexOf(id);
      if k == |jobs| {
        return;
      }
      var job := jobs[k].(lastRun := Some(start), failed := failed);
      if job.schedule.kind == At {
        if job.deleteAfterRun {
          var removed := RemoveJobUnsafe(id);
          disk := jobs;
          return;
        } else {
          job := job.(enabled := false, nextRun := None);
        }
      } else {
        job := job.(nextRun := ComputeNextRun(job.schedule, now, ticks));
      }
      jobs := jobs[k := job];
      disk := jobs;
    }

    method AddJob(id: string, s: Schedule, now: int) returns (j: Job)
      modifies this`jobs, this`disk
      ensures j == NewJob(id, s, now, ticks)
      ensures disk == jobs == old(jobs) + [j]
    {
      j := Job(id, true, s, ComputeNextRun(s, now, ticks), None, false, s.kind == At);
      jobs := jobs + [j];
      disk := jobs;
    }

    method RemoveJobUnsafe(id: string) returns (removed: bool)
      requires disk == jobs
      modifies this`jobs, this`disk
      ensures disk == jobs == Without(old(jobs), id)
      ensures removed <==> exists k :: 0 <= k < |old(jobs)| && old(jobs)[k].id == id
    {
      var kept: seq<Job> := [];
      var i := 0;
      while i < |jobs|
        invariant 0 <= i <= |jobs|
        invariant jobs == old(jobs) && kept == Without(jobs[..i], id)
      {
        assert jobs[..i + 1][..i] == jobs[..i];
        if jobs[i].id != id {
          kept := kept + [jobs[i]];
        }
        i := i + 1;
      }
      assert jobs[..|jobs|] == jobs;
      WithoutShrinks(jobs, id);
      removed := |kept| < |jobs|;
      jobs := kept;
      if removed {
        disk := jobs;
      }
    }

    method EnableJob(id: string, on: bool, now: int) returns (r: Option<Job>)
      requires disk == jobs
      modifies this`jobs, this`disk
      ensures disk == jobs == Enable(old(jobs), id, on, now, ticks)
      ensures r.Some? <==> exists k :: 0 <= k < |old(jobs)| && old(jobs)[k].id == id
      ensures r.Some? ==> r.value == jobs[Find(old(jobs), id)]
    {
      var k := IndexOf(id);
      if k == |jobs| {
        return None;
      }
      var job := jobs[k].(enabled := on);
      job := job.(nextRun := if on then ComputeNextRun(job.schedule, now, ticks) else None);
      jobs := jobs[k := job];
      disk := jobs;
      return Some(job);
    }
  }
}
