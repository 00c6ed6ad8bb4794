// The managed node whose list of benchmark jobs the handlers of internal/httpapi/benchmark_jobs.go update.
// Every method is one step of the protocol, proved against BenchmarkSpec.
module BenchmarkJobs {
  import opened Common
  import opened BenchmarkSpec
  import BenchmarkProtocol

  method EnsureDefaults(job: Job, now: int, policy: Policy) returns (j: Job)
    ensures j == WithDefaults(job, now, policy)
  {
    var p := Normalize(policy);
    var own := Normalize(Policy(Or(job.maxAttempts, p.maxAttempts), Or(job.leaseSeconds, p.leaseSeconds),
                                Or(job.delaySeconds, p.delaySeconds)));
    j := job;
    j := j.(maxAttempts := Some(own.maxAttempts));
    j := j.(leaseSeconds := Some(own.leaseSeconds));
    j := j.(delaySeconds := Some(own.delaySeconds));
    if j.state == NoState {
      j := j.(state := StateNamed(j.status));
    }
    if j.nextAttemptAt.None? && j.status == Queued {
      j := j.(nextAttemptAt := Some(now));
    }
  }

  method RetryOrExhaust(job: Job, now: int, policy: Policy) returns (j: Job, retried: bool)
    ensures j == ScheduleRetry(job, now, policy) && retried == Retries(job, now, policy)
  {
    j := EnsureDefaults(job, now, policy);
    if Or(j.attempt, 0) < Or(j.maxAttempts, policy.maxAttempts) {
      j := j.(status := Failed);
      j := j.(state := RetryWait);
      j := j.(nextAttemptAt := Some(now + Delay(j, policy)));
      return j, true;
    }
    j := j.(status := Failed);
    j := j.(state := Exhausted);
    j := j.(completedAt := Some(now));
    j := j.(nextAttemptAt := None);
    return j, false;
  }

  method ReconcileOne(job: Job, now: int, p: Policy) returns (j: Job, run: Tally)
    ensures j == ReconcileJob(job, now, p).0 && run == ReconcileJob(job, now, p).1
  {
    j, run := job, NoChange();
    match job.status {
      case Running =>
        var timeoutAt := now;
        if job.timeoutAt.Some? {
          timeoutAt := job.timeoutAt.value;
        } else {
          if job.claimedAt.Some? {
            timeoutAt := job.claimedAt.value + Lease(job, p);
          }
          j := j.(timeoutAt := Some(timeoutAt));
          j := j.(leaseSeconds := Some(Or(job.leaseSeconds, p.leaseSeconds)));
          run := run.(changed := true);
        }
        if now >= timeoutAt {
          j := j.(timedOutAt := Some(now));
          run := run.(timedOut := run.timedOut + 1);
          var retried;
          j, retried := RetryOrExhaust(j, now, p);
          if retried {
            run := run.(retried := run.retried + 1);
          } else {
            run := run.(exhausted := run.exhausted + 1);
          }
          run := run.(changed := true);
        }
      case Failed =>
        if job.state == RetryWait && Due(job, now) {
          j := j.(status := Queued);
          j := j.(state := QueuedState);
          run := run.(retried := run.retried + 1);
          run := run.(changed := true);
        }
      case Queued =>
        j := EnsureDefaults(job, now, p);
      case _ =>
    }
  }

  method UpsertJob(jobs: seq<Job>, job: Job) returns (out: seq<Job>)
    ensures out == Upsert(jobs, job)
  {
    out := [job];
    for i := 0 to |jobs|
      invariant out + Others(jobs[i..], job.id) == [job] + Others(jobs, job.id)
    {
      assert jobs[i..][0] == jobs[i] && jobs[i..][1..] == jobs[i + 1..];
      if job.id != "" && jobs[i].id == job.id {
        continue;
      }
      assert out + ([jobs[i]] + Others(jobs[i + 1..], job.id)) == out + [jobs[i]] + Others(jobs[i + 1..], job.id);
      out := out + [jobs[i]];
    }
    assert out + [] == out;
    if |out| > MAX_JOBS {
      return out[..MAX_JOBS];
    }
  }

  method FindIndex(jobs: seq<Job>, id: string) returns (i: nat)
    ensures i == FindJob(jobs, id)
  {
    i := 0;
    while i < |jobs|
      invariant i <= |jobs| && i + FindJob(jobs[i..], id) == FindJob(jobs, id)
    {
      if jobs[i].id == id {
        return;
      }
      assert jobs[i..][1..] == jobs[i + 1..];
      i := i + 1;
    }
  }

  method NextQueued(jobs: seq<Job>, now: int) returns (i: nat)
    ensures i == NextDue(jobs, now)
  {
    i := 0;
    while i < |jobs|
      invariant i <= |jobs| && i + NextDue(jobs[i..], now) == NextDue(jobs, now)
    {
      if jobs[i].status == Queued && Due(jobs[i], now) {
        return;
      }
      assert jobs[i..][1..] == jobs[i + 1..];
      i := i + 1;
    }
  }

  class Node {
    var jobs: seq<Job>

    constructor ()
      ensures jobs == []
    {
      jobs := [];
    }

    method ReconcileJobs(now: int, policy: Policy) returns (run: Tally)
      modifies this
      ensures (jobs, run) == Reconcile(old(jobs), now, policy)
    {
      var p := Normalize(policy);
      run := NoChange();
      if |jobs| == 0 {
        return;
      }
      var updated := jobs;
      ghost var before := jobs;
      for i := 0 to |updated|
        invariant |updated| == |before| && jobs == before
        invariant updated[i..] == before[i..]
        invariant (updated[..i], run) == ReconcileAll(before[..i], now, p)
      {
        ghost var head := updated[..i];
        assert updated[i] == updated[i..][0] == before[i..][0] == before[i];
        ghost var t, one := BenchmarkProtocol.ReconcileSnoc(before[..i], before[i], now, p);
        assert before[..i] + [before[i]] == before[..i + 1];
        var job, found := ReconcileOne(updated[i], now, p);
        updated := updated[i := job];
        assert updated[..i + 1] == head + [job];
        assert updated[i + 1..] == before[i + 1..];
        run := run.Plus(found);
      }
      assert before[..|before|] == before && updated[..|before|] == updated;
      if run.changed {
        jobs := updated;
      }
    }

    method CreateJob(id: string, now: int, configured: Policy) returns (job: Job)
      modifies this
      ensures jobs == Step(old(jobs), Timed(CreateEvent(id), now, configured)) && job == jobs[0]
    {
      var p := Normalize(configured);
      job := Job(id, Queued, QueuedState, Some(0), Some(p.maxAttempts), Some(p.leaseSeconds), Some(p.delaySeconds),
                 None, None, Some(now), None, None, None);
      jobs := UpsertJob(jobs, job);
    }

    method ClaimJob(now: int, configured: Policy) returns (leased: Option<Job>)
      modifies this
      ensures var c := Claim(old(jobs), now, Normalize(configured)); jobs == c.0 && leased == c.1
      ensures jobs == Step(old(jobs), Timed(ClaimEvent, now, configured))
    {
      var p := Normalize(configured);
      var run := ReconcileJobs(now, p);
      var i := NextQueued(jobs, now);
      if i == |jobs| {
        return None;
      }
      var job := jobs[i];
      job := job.(status := Running);
      job := job.(attempt := Some(Or(job.attempt, 0) + 1));
      job := job.(claimedAt := Some(now));
      job := job.(timeoutAt := Some(now + Lease(job, p)));
      job := job.(state := RunningState);
      job := job.(leaseSeconds := Some(Or(job.leaseSeconds, p.leaseSeconds)));
      job := job.(delaySeconds := Some(Or(job.delaySeconds, p.delaySeconds)));
      job := job.(maxAttempts := Some(Or(job.maxAttempts, p.maxAttempts)));
      job := job.(completedAt := None, failedAt := None, timedOutAt := None, nextAttemptAt := None);
      jobs := UpsertJob(jobs, job);
      return Some(job);
    }

    /** Answers whether the report was accepted. */
    method ReportStatus(id: string, status: Status, now: int, configured: Policy) returns (ok: bool)
      modifies this
      ensures jobs == Step(old(jobs), Timed(ReportEvent(id, status), now, configured))
      ensures ok <==> id != "" && Reportable(status) && exists job :: job in old(jobs) && job.id == id
    {
      if id == "" || !Reportable(status) {
        return false;
      }
      var i := FindIndex(jobs, id);
      if i == |jobs| {
        return false;
      }
      var p := Normalize(configured);
      var job := jobs[i].(status := status);
      match status {
        case Running =>
          job := job.(state := RunningState);
          if job.timeoutAt.None? {
            job := job.(timeoutAt := Some(now + Lease(job, p)));
          }
        case Failed =>
          job := job.(failedAt := Some(now));
          var retried;
          job, retried := RetryOrExhaust(job, now, p);
        case Cancelled =>
          job := job.(state := Terminal);
          job := job.(completedAt := Some(now));
        case Completed =>
          job := job.(state := Terminal);
          job := job.(completedAt := Some(now));
        case _ =>
      }
      jobs := UpsertJob(jobs, job);
      ok := true;
    }

    method CompleteWithResult(id: string, status: Status, completedAt: Option<int>, now: int, configured: Policy)
      modifies this
      ensures jobs == Step(old(jobs), Timed(ResultEvent(id, status, completedAt), now, configured))
    {
      if id == "" {
        return;
      }
      var i := FindIndex(jobs, id);
      if i == |jobs| {
        return;
      }
      var job := jobs[i];
      job := job.(status := if status == NoStatus then Completed else status);
      job := job.(completedAt := completedAt);
      job := job.(state := Terminal);
      jobs := UpsertJob(jobs, job);
    }
  }
}
