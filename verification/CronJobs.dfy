/** What each operation of the cron service does to a job, said of the job alone (pkg/cron/service.go:134-454). */
module CronJobs {
  import opened Options
  import opened Cron

  const LATEST: int := 9223372036854775807

  /** When a job runs next: a one-shot job at its time, if that is to come; an interval job an interval from now, where
      that fits into int64; a job with an expression at the library's tick; any other job not at all. */
  lemma NextRunExactly(s: Schedule, now: int, ticks: Ticks)
    ensures s.kind == At ==> forall n :: ComputeNextRun(s, now, ticks) == Some(n) <==> s.atMS == Some(n) && now < n
    ensures s.kind == Every && (s.everyMS.None? || s.everyMS.value <= 0) ==> ComputeNextRun(s, now, ticks) == None
    ensures s.kind == Every && s.everyMS.Some? && 0 < s.everyMS.value && 0 <= now && now + s.everyMS.value <= LATEST ==>
              ComputeNextRun(s, now, ticks) == Some(now + s.everyMS.value)
    ensures s.kind == Expression ==>
              forall n :: ComputeNextRun(s, now, ticks) == Some(n) <==> s.expr != "" && ticks(s.expr, now) == Some(n)
    ensures s.kind == Unknown ==> ComputeNextRun(s, now, ticks) == None
  {
  }

  lemma {:induction false} FindsFirst(a: seq<Job>, j: Job, b: seq<Job>)
    requires forall k :: 0 <= k < |a| ==> a[k].id != j.id
    ensures Find(a + [j] + b, j.id) == |a|
  {
    var jobs := a + [j] + b;
    if a == [] {
      assert jobs[0] == j;
    } else {
      FindsFirst(a[1..], j, b);
      assert jobs[0] == a[0] && jobs[1..] == a[1..] + [j] + b;
    }
  }

  lemma {:induction false} NoneWithout(a: seq<Job>, id: string)
    requires forall k :: 0 <= k < |a| ==> a[k].id != id
    ensures Without(a, id) == a
  {
    if a != [] {
      NoneWithout(a[..|a| - 1], id);
      assert a == a[..|a| - 1] + [a[|a| - 1]];
    }
  }

  /** Removing takes out the job with the identifier and nothing else. */
  lemma {:induction false} RemovesExactly(a: seq<Job>, j: Job, b: seq<Job>)
    requires forall k :: 0 <= k < |a| ==> a[k].id != j.id
    requires forall k :: 0 <= k < |b| ==> b[k].id != j.id
    ensures Without(a + [j] + b, j.id) == a + b
  {
    var jobs := a + [j] + b;
    if b == [] {
      NoneWithout(a, j.id);
      assert jobs == a + [j] && jobs[..|jobs| - 1] == a && a + b == a;
    } else {
      var front := b[..|b| - 1];
      RemovesExactly(a, j, front);
      assert jobs[..|jobs| - 1] == a + [j] + front && jobs[|jobs| - 1] == b[|b| - 1];
      assert a + front + [b[|b| - 1]] == a + b;
    }
  }

  /** After its handler a one-shot job is gone, or disabled for good if it is not to be deleted; any other job keeps
      its state and is scheduled afresh. The time and the success of this run are recorded, and no other job changes. */
  lemma CompletesExactly(a: seq<Job>, j: Job, b: seq<Job>, start: int, failed: bool, now: int, ticks: Ticks)
    requires forall k :: 0 <= k < |a| ==> a[k].id != j.id
    requires forall k :: 0 <= k < |b| ==> b[k].id != j.id
    ensures var r := Complete(a + [j] + b, j.id, start, failed, now, ticks);
            && (j.schedule.kind == At && j.deleteAfterRun ==> r == a + b)
            && (j.schedule.kind == At && !j.deleteAfterRun ==>
                  r == a + [Job(j.id, false, j.schedule, None, Some(start), failed, false)] + b)
            && (j.schedule.kind != At ==>
                  var next := ComputeNextRun(j.schedule, now, ticks);
                  r == a + [Job(j.id, j.enabled, j.schedule, next, Some(start), failed, j.deleteAfterRun)] + b)
  {
    hide ComputeNextRun;
    FindsFirst(a, j, b);
    RemovesExactly(a, j, b);
    Replaces(a, j, b, Finished(j, start, failed, now, ticks));
  }

  lemma Replaces(a: seq<Job>, j: Job, b: seq<Job>, x: Job)
    ensures |a| < |a + [j] + b| && (a + [j] + b)[|a|] == j && (a + [j] + b)[|a| := x] == a + [x] + b
  {
  }

  /** Completing a job that was removed meanwhile changes nothing. */
  lemma CompletesNothing(jobs: seq<Job>, id: string, start: int, failed: bool, now: int, ticks: Ticks)
    requires forall k :: 0 <= k < |jobs| ==> jobs[k].id != id
    ensures Complete(jobs, id, start, failed, now, ticks) == jobs
  {
  }

  /** Enabling schedules the job afresh, disabling takes its next run away; no other job changes. */
  lemma EnablesExactly(a: seq<Job>, j: Job, b: seq<Job>, on: bool, now: int, ticks: Ticks)
    requires forall k :: 0 <= k < |a| ==> a[k].id != j.id
    ensures Enable(a + [j] + b, j.id, on, now, ticks) ==
              a + [Job(j.id, on, j.schedule, if on then ComputeNextRun(j.schedule, now, ticks) else None, j.lastRun,
                       j.failed, j.deleteAfterRun)] + b
  {
    hide ComputeNextRun;
    FindsFirst(a, j, b);
    Replaces(a, j, b, Enabled(j, on, now, ticks));
  }

  /** A new job is enabled and scheduled, has not run, and deletes itself when it is a one-shot job. */
  lemma AddsExactly(id: string, s: Schedule, now: int, ticks: Ticks)
    ensures NewJob(id, s, now, ticks) ==
              Job(id, true, s, ComputeNextRun(s, now, ticks), None, false, match s.kind case At => true case _ => false)
  {
  }

  /** A start schedules every enabled job afresh and leaves the disabled ones as they are. */
  lemma RecomputesExactly(jobs: seq<Job>, now: int, ticks: Ticks, k: nat)
    requires k < |jobs|
    ensures !jobs[k].enabled ==> Recompute(jobs, now, ticks)[k] == jobs[k]
    ensures jobs[k].enabled ==>
              var j := jobs[k];
              var next := ComputeNextRun(j.schedule, now, ticks);
              Recompute(jobs, now, ticks)[k] ==
                Job(j.id, true, j.schedule, next, j.lastRun, j.failed, j.deleteAfterRun)
  {
    hide ComputeNextRun;
  }

  /** A collection takes the next run of the collected jobs away and leaves the others as they are. */
  lemma ForgetsExactly(jobs: seq<Job>, ids: seq<string>, k: nat)
    requires k < |jobs|
    ensures jobs[k].id !in ids ==> Forget(jobs, ids)[k] == jobs[k]
    ensures jobs[k].id in ids ==>
              var j := jobs[k];
              Forget(jobs, ids)[k] == Job(j.id, j.enabled, j.schedule, None, j.lastRun, j.failed, j.deleteAfterRun)
  {
  }
}
