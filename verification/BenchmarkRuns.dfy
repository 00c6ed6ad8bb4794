// The benchmark job protocol over whole runs: claims are bounded and spaced, and a job nobody answers
// for is exhausted after a bounded number of changes.
module BenchmarkRuns {
  import opened Common
  import opened BenchmarkSpec
  import opened BenchmarkProtocol

  // ---------------------------------------------------------------- the invariant of one job

  /** Created with settings in range; attempts counted from 0 to the maximum. */
  predicate Settings(job: Job) {
    && job.id != "" && job.attempt.Some? && job.maxAttempts.Some? && job.leaseSeconds.Some? && job.delaySeconds.Some?
    && Normalized(Policy(job.maxAttempts.value, job.leaseSeconds.value, job.delaySeconds.value))
    && 0 <= job.attempt.value <= job.maxAttempts.value
  }

  function Wait(job: Job): int requires Settings(job) { job.delaySeconds.value * SECOND }

  /** The next attempt is at least one retry delay after the last claim. */
  predicate Spaced(job: Job)
    requires Settings(job)
  {
    job.nextAttemptAt.Some? && (job.claimedAt.Some? ==> job.nextAttemptAt.value >= job.claimedAt.value + Wait(job))
  }

  predicate JobOk(job: Job, now: int) {
    && Settings(job)
    && (job.claimedAt.Some? ==> job.claimedAt.value <= now)
    && (job.status == Queued ==> job.attempt.value < job.maxAttempts.value && Spaced(job))
    && (job.state == RetryWait ==>
          job.status == Failed && job.attempt.value < job.maxAttempts.value && Spaced(job))
  }

  ghost predicate JobsOk(jobs: seq<Job>, now: int) {
    Unique(jobs) && forall id :: Get(jobs, id).Some? ==> JobOk(Get(jobs, id).value, now)
  }

  /** No subscriber reports a job back as queued. */
  predicate Honest(event: Event) {
    match event
    case ReportEvent(_, status) => status != Queued
    case ResultEvent(_, status, _) => status != Queued
    case _ => true
  }

  /** Instants never go back, created ids are new, and no answer carries the status queued. */
  ghost predicate Orderly(now: int, used: set<string>, ts: seq<Timed>)
    decreases |ts|
  {
    ts == [] || (
      && now <= ts[0].now && Honest(ts[0].event)
      && (ts[0].event.CreateEvent? ==> ts[0].event.id != "" && ts[0].event.id !in used)
      && Orderly(ts[0].now, UsedAfter(used, ts[0]), ts[1..]))
  }

  ghost function UsedAfter(used: set<string>, t: Timed): set<string> {
    if t.event.CreateEvent? then used + {t.event.id} else used
  }

  ghost predicate Known(jobs: seq<Job>, used: set<string>) {
    forall id :: Get(jobs, id).Some? ==> id in used
  }

  /** A settled job keeps the invariant, its attempts, its settings and its last claim. */
  predicate SameClaims(job: Job, after: Job) {
    && after.id == job.id && after.attempt == job.attempt && after.maxAttempts == job.maxAttempts
    && after.leaseSeconds == job.leaseSeconds && after.delaySeconds == job.delaySeconds
    && after.claimedAt == job.claimedAt
  }

  lemma RetryOk(job: Job, now: int, p: Policy)
    requires Settings(job) && (job.claimedAt.Some? ==> job.claimedAt.value <= now)
    ensures JobOk(ScheduleRetry(job, now, p), now) && SameClaims(job, ScheduleRetry(job, now, p))
  {
  }

  lemma ReconciledOk(job: Job, now: int, p: Policy)
    requires JobOk(job, now)
    ensures JobOk(ReconcileJob(job, now, p).0, now) && SameClaims(job, ReconcileJob(job, now, p).0)
  {
    match job.status
    case Running =>
      var timeout := if job.timeoutAt.Some? then job.timeoutAt.value
                     else if job.claimedAt.Some? then job.claimedAt.value + Lease(job, p) else now;
      var leased := job.(timeoutAt := Some(timeout));
      RetryOk(leased.(timedOutAt := Some(now)), now, p);
    case _ =>
  }

  lemma SettledOk(job: Job, jobs: seq<Job>, t: Timed, now: int)
    requires JobOk(job, now) && now <= t.now
    ensures JobOk(Settled(job, jobs, t), t.now) && SameClaims(job, Settled(job, jobs, t))
  {
    ReconciledOk(job, t.now, t.policy());
  }

  /** The step that leases a job: one attempt more, at least a retry delay after the last claim. */
  lemma ClaimedOk(job: Job, now: int, p: Policy)
    requires JobOk(job, now) && Ready(job, now)
    ensures var after := ClaimedJob(job, now, p);
      && JobOk(after, now) && after.id == job.id
      && after.attempt == Some(job.attempt.value + 1) && after.claimedAt == Some(now)
      && after.maxAttempts == job.maxAttempts && after.delaySeconds == job.delaySeconds
      && after.leaseSeconds == job.leaseSeconds
      && (job.claimedAt.Some? ==> now >= job.claimedAt.value + Wait(job))
  {
  }

  lemma ReportedOk(job: Job, status: Status, t: Timed, now: int)
    requires JobOk(job, now) && now <= t.now && status != Queued && Reportable(status)
    ensures JobOk(ReportedJob(job, status, t.now, t.policy()), t.now)
    ensures SameClaims(job, ReportedJob(job, status, t.now, t.policy()))
  {
    RetryOk(job.(status := status, failedAt := Some(t.now)), t.now, t.policy());
  }

  lemma ResultOk(job: Job, jobs: seq<Job>, t: Timed, now: int)
    requires JobOk(job, now) && now <= t.now && t.event.ResultEvent? && t.event.status != Queued
    ensures JobOk(JobAfter(job, jobs, t), t.now) && SameClaims(job, JobAfter(job, jobs, t))
  {
  }

  lemma ClaimOk(job: Job, jobs: seq<Job>, t: Timed, now: int)
    requires JobOk(job, now) && now <= t.now && t.event.ClaimEvent?
    requires Claimed(jobs, t) == Some(job.id) ==> Ready(Settled(job, jobs, t), t.now)
    ensures JobOk(JobAfter(job, jobs, t), t.now)
    ensures Claimed(jobs, t) != Some(job.id) ==> SameClaims(job, JobAfter(job, jobs, t))
    ensures Claimed(jobs, t) == Some(job.id) ==> LeasedAgain(job, JobAfter(job, jobs, t), t.now)
  {
    SettledOk(job, jobs, t, now);
    if Claimed(jobs, t) == Some(job.id) { ClaimedOk(Settled(job, jobs, t), t.now, t.policy()); }
  }

  /** What one orderly step does to a job that is already in the list. */
  lemma JobStep(job: Job, jobs: seq<Job>, t: Timed, now: int)
    requires JobOk(job, now) && now <= t.now && Honest(t.event) && t.event != CreateEvent(job.id)
    requires Claimed(jobs, t) == Some(job.id) ==> Ready(Settled(job, jobs, t), t.now)
    ensures JobOk(JobAfter(job, jobs, t), t.now)
    ensures Claimed(jobs, t) != Some(job.id) ==> SameClaims(job, JobAfter(job, jobs, t))
    ensures Claimed(jobs, t) == Some(job.id) ==> LeasedAgain(job, JobAfter(job, jobs, t), t.now)
  {
    match t.event
    case ReportEvent(id, status) => if id == job.id && Reportable(status) { ReportedOk(job, status, t, now); }
    case ReconcileEvent => SettledOk(job, jobs, t, now);
    case ClaimEvent => ClaimOk(job, jobs, t, now);
    case ResultEvent(_, _, _) => ResultOk(job, jobs, t, now);
    case CreateEvent(_) =>
  }

  predicate LeasedAgain(job: Job, after: Job, now: int)
    requires Settings(job)
  {
    && after.id == job.id && after.attempt == Some(job.attempt.value + 1) && after.claimedAt == Some(now)
    && after.maxAttempts == job.maxAttempts && after.delaySeconds == job.delaySeconds
    && after.leaseSeconds == job.leaseSeconds
    && (job.claimedAt.Some? ==> now >= job.claimedAt.value + Wait(job))
  }

  lemma NewJobOk(id: string, t: Timed)
    requires id != ""
    ensures JobOk(NewJob(id, t.now, t.policy()), t.now)
  {
  }

  /** Every step of an orderly run keeps the invariant. */
  lemma StepKeepsJobsOk(jobs: seq<Job>, t: Timed, now: int, used: set<string>)
    requires JobsOk(jobs, now) && Known(jobs, used) && Orderly(now, used, [t])
    ensures JobsOk(Step(jobs, t), t.now) && Known(Step(jobs, t), UsedAfter(used, t))
  {
    StepGet(jobs, t, "");
    forall id
      ensures Get(Step(jobs, t), id).Some? ==>
        JobOk(Get(Step(jobs, t), id).value, t.now) && id in UsedAfter(used, t)
    {
      StepGet(jobs, t, id);
      var before := Get(jobs, id);
      if before.Some? {
        JobStep(before.value, jobs, t, now);
      } else if id != "" {
        NewJobOk(id, t);
      }
    }
  }

  // ---------------------------------------------------------------- claims over a run

  /** The instants at which a run leases the job, in order. */
  function ClaimTimes(jobs: seq<Job>, ts: seq<Timed>, id: string): seq<int>
    decreases |ts|
  {
    if ts == [] then []
    else (if Claimed(jobs, ts[0]) == Some(id) then [ts[0].now] else []) + ClaimTimes(Step(jobs, ts[0]), ts[1..], id)
  }

  /** How often the job can still be leased: a new job gets at most ten attempts, a dropped one none. */
  ghost function Budget(jobs: seq<Job>, used: set<string>, id: string): int {
    var job := Get(jobs, id);
    if job.Some? then (if Settings(job.value) then job.value.maxAttempts.value - job.value.attempt.value else 0)
    else if id in used then 0 else 10
  }

  /** A queued job, or one that waits to be queued again, has an attempt left. */
  predicate Within(job: Job) {
    Settings(job) && (job.status == Queued || job.state == RetryWait ==> job.attempt.value < job.maxAttempts.value)
  }

  ghost predicate AllWithin(jobs: seq<Job>) {
    Unique(jobs) && forall id :: Get(jobs, id).Some? ==> Within(Get(jobs, id).value)
  }

  predicate SendsBack(event: Event) {
    (event.ReportEvent? || event.ResultEvent?) && event.status == Queued
  }

  /** A subscriber hands a job back as queued only while the job has an attempt left. */
  predicate Spares(jobs: seq<Job>, event: Event) {
    SendsBack(event) && Get(jobs, event.id).Some? && Settings(Get(jobs, event.id).value) ==>
      Get(jobs, event.id).value.attempt.value < Get(jobs, event.id).value.maxAttempts.value
  }

  ghost predicate Sparing(jobs: seq<Job>, ts: seq<Timed>)
    decreases |ts|
  {
    ts == [] || (Spares(jobs, ts[0].event) && Sparing(Step(jobs, ts[0]), ts[1..]))
  }

  /** Created ids are new. */
  ghost predicate NewIds(used: set<string>, ts: seq<Timed>)
    decreases |ts|
  {
    ts == [] || (
      && (ts[0].event.CreateEvent? ==> ts[0].event.id != "" && ts[0].event.id !in used)
      && NewIds(UsedAfter(used, ts[0]), ts[1..]))
  }

  lemma RetryWithin(job: Job, now: int, p: Policy)
    requires Settings(job)
    ensures Within(ScheduleRetry(job, now, p)) && SameClaims(job, ScheduleRetry(job, now, p))
  {
  }

  lemma SettledWithin(job: Job, jobs: seq<Job>, t: Timed)
    requires Within(job)
    ensures Within(Settled(job, jobs, t)) && SameClaims(job, Settled(job, jobs, t))
  {
    ReconciledWithin(job, t.now, t.policy());
  }

  lemma ReconciledWithin(job: Job, now: int, p: Policy)
    requires Within(job)
    ensures Within(ReconcileJob(job, now, p).0) && SameClaims(job, ReconcileJob(job, now, p).0)
  {
    if job.status == Running {
      var timeout := if job.timeoutAt.Some? then job.timeoutAt.value
                     else if job.claimedAt.Some? then job.claimedAt.value + Lease(job, p) else now;
      RetryWithin(job.(timeoutAt := Some(timeout), timedOutAt := Some(now)), now, p);
    }
  }

  lemma ClaimedWithin(job: Job, now: int, p: Policy)
    requires Within(job) && job.status == Queued
    ensures var after := ClaimedJob(job, now, p);
      && Within(after) && after.id == job.id
      && after.maxAttempts == job.maxAttempts && after.attempt == Some(job.attempt.value + 1)
  {
  }

  lemma AnsweredWithin(job: Job, jobs: seq<Job>, t: Timed)
    requires Within(job) && (t.event.ReportEvent? || t.event.ResultEvent?) && t.event.id == job.id
    requires SendsBack(t.event) ==> job.attempt.value < job.maxAttempts.value
    ensures Within(JobAfter(job, jobs, t)) && SameClaims(job, JobAfter(job, jobs, t))
  {
    if t.event.ReportEvent? && t.event.status == Failed {
      RetryWithin(job.(status := Failed, failedAt := Some(t.now)), t.now, t.policy());
    }
  }

  /** What a step does to a job of the list, whatever the clock says and whatever else was answered before. */
  lemma WithinStep(job: Job, jobs: seq<Job>, t: Timed)
    requires Within(job) && t.event != CreateEvent(job.id)
    requires SendsBack(t.event) && t.event.id == job.id ==> job.attempt.value < job.maxAttempts.value
    requires Claimed(jobs, t) == Some(job.id) ==> Ready(Settled(job, jobs, t), t.now)
    ensures var after := JobAfter(job, jobs, t);
      && Within(after) && after.maxAttempts == job.maxAttempts
      && after.attempt == Some(job.attempt.value + if Claimed(jobs, t) == Some(job.id) then 1 else 0)
  {
    match t.event
    case ClaimEvent =>
      SettledWithin(job, jobs, t);
      if Claimed(jobs, t) == Some(job.id) { ClaimedWithin(Settled(job, jobs, t), t.now, t.policy()); }
    case ReconcileEvent => SettledWithin(job, jobs, t);
    case CreateEvent(_) =>
    case _ => if t.event.id == job.id { AnsweredWithin(job, jobs, t); }
  }

  lemma NewJobWithin(id: string, t: Timed)
    requires id != ""
    ensures Within(NewJob(id, t.now, t.policy())) && NewJob(id, t.now, t.policy()).maxAttempts.value <= 10
  {
  }

  lemma GetAfter(jobs: seq<Job>, t: Timed, id: string)
    requires AllWithin(jobs) && Spares(jobs, t.event) && t.event != CreateEvent("")
    ensures Get(Step(jobs, t), id).Some? ==> Within(Get(Step(jobs, t), id).value)
  {
    StepGet(jobs, t, id);
    var before := Get(jobs, id);
    if before.Some? && t.event != CreateEvent(id) {
      WithinStep(before.value, jobs, t);
    } else if id != "" {
      NewJobWithin(id, t);
    }
  }

  lemma StepKeepsWithin(jobs: seq<Job>, t: Timed)
    requires AllWithin(jobs) && Spares(jobs, t.event) && t.event != CreateEvent("")
    ensures AllWithin(Step(jobs, t))
  {
    StepGet(jobs, t, "");
    forall id ensures Get(Step(jobs, t), id).Some? ==> Within(Get(Step(jobs, t), id).value) { GetAfter(jobs, t, id); }
  }

  /** The attempt limit over runs: as long as no answer hands a job back as queued that has used its attempts,
   *  every job stays within its maximum, and a queued or waiting one has an attempt left, whatever the clock. */
  lemma {:induction false} QueuedReportKeepsBound(jobs: seq<Job>, ts: seq<Timed>)
    requires AllWithin(jobs) && Sparing(jobs, ts) && forall i :: 0 <= i < |ts| ==> ts[i].event != CreateEvent("")
    ensures AllWithin(Run(jobs, ts))
    decreases |ts|
  {
    if ts != [] {
      StepKeepsWithin(jobs, ts[0]);
      QueuedReportKeepsBound(Step(jobs, ts[0]), ts[1..]);
    }
  }

  lemma BudgetStep(jobs: seq<Job>, t: Timed, used: set<string>, id: string)
    requires AllWithin(jobs) && Known(jobs, used) && Spares(jobs, t.event) && NewIds(used, [t])
    ensures Budget(Step(jobs, t), UsedAfter(used, t), id) + (if Claimed(jobs, t) == Some(id) then 1 else 0)
         <= Budget(jobs, used, id)
  {
    StepGet(jobs, t, id);
    var before := Get(jobs, id);
    if before.Some? {
      WithinStep(before.value, jobs, t);
    } else if id != "" {
      NewJobWithin(id, t);
    }
  }

  lemma StepKeepsKnown(jobs: seq<Job>, t: Timed, used: set<string>)
    requires Unique(jobs) && Known(jobs, used) && t.event != CreateEvent("")
    ensures Known(Step(jobs, t), UsedAfter(used, t))
  {
    forall id ensures Get(Step(jobs, t), id).Some? ==> id in UsedAfter(used, t) { StepGet(jobs, t, id); }
  }

  lemma OrderlyHead(now: int, used: set<string>, ts: seq<Timed>)
    requires ts != [] && Orderly(now, used, ts)
    ensures Orderly(now, used, [ts[0]]) && Orderly(ts[0].now, UsedAfter(used, ts[0]), ts[1..])
  {
  }

  function EndOf(now: int, ts: seq<Timed>): int
    decreases |ts|
  {
    if ts == [] then now else EndOf(ts[0].now, ts[1..])
  }

  /** The invariant holds after every orderly run. */
  lemma {:induction false} RunKeepsJobsOk(jobs: seq<Job>, now: int, used: set<string>, ts: seq<Timed>)
    requires JobsOk(jobs, now) && Known(jobs, used) && Orderly(now, used, ts)
    ensures JobsOk(Run(jobs, ts), EndOf(now, ts))
    decreases |ts|
  {
    if ts != [] {
      OrderlyHead(now, used, ts);
      StepKeepsJobsOk(jobs, ts[0], now, used);
      RunKeepsJobsOk(Step(jobs, ts[0]), ts[0].now, UsedAfter(used, ts[0]), ts[1..]);
    }
  }

  lemma BudgetRange(jobs: seq<Job>, used: set<string>, id: string)
    requires AllWithin(jobs)
    ensures 0 <= Budget(jobs, used, id) <= 10
  {
    if Get(jobs, id).Some? { assert Within(Get(jobs, id).value); }
  }

  /** No job is leased more often than its attempts allow, on the same condition. */
  lemma {:induction false} AttemptBound(jobs: seq<Job>, used: set<string>, ts: seq<Timed>, id: string)
    requires AllWithin(jobs) && Known(jobs, used) && NewIds(used, ts) && Sparing(jobs, ts)
    ensures |ClaimTimes(jobs, ts, id)| <= Budget(jobs, used, id) <= 10
    decreases |ts|
  {
    BudgetRange(jobs, used, id);
    if ts != [] {
      assert NewIds(used, [ts[0]]);
      StepKeepsWithin(jobs, ts[0]);
      StepKeepsKnown(jobs, ts[0], used);
      BudgetStep(jobs, ts[0], used, id);
      AttemptBound(Step(jobs, ts[0]), UsedAfter(used, ts[0]), ts[1..], id);
    }
  }

  lemma JobsOkWithin(jobs: seq<Job>, now: int)
    requires JobsOk(jobs, now)
    ensures AllWithin(jobs)
  {
    forall id | Get(jobs, id).Some? ensures Within(Get(jobs, id).value) { assert JobOk(Get(jobs, id).value, now); }
  }

  /** Runs without an answer of status queued meet the condition. */
  lemma {:induction false} OrderlySpares(jobs: seq<Job>, now: int, used: set<string>, ts: seq<Timed>)
    requires Orderly(now, used, ts)
    ensures NewIds(used, ts) && Sparing(jobs, ts)
    decreases |ts|
  {
    if ts != [] { OrderlySpares(Step(jobs, ts[0]), ts[0].now, UsedAfter(used, ts[0]), ts[1..]); }
  }

  /** A run that starts without jobs: at most eight jobs, attempts within bounds, at most ten claims of each. */
  lemma {:induction false} FromNothing(now: int, ts: seq<Timed>, id: string)
    requires Orderly(now, {}, ts)
    ensures var jobs := Run([], ts); JobsOk(jobs, EndOf(now, ts)) && |ClaimTimes([], ts, id)| <= 10
  {
    RunKeepsJobsOk([], now, {}, ts);
    OrderlySpares([], now, {}, ts);
    AttemptBound([], {}, ts, id);
  }

  /** The list never grows past eight jobs and never holds an id twice, whatever is reported and whenever. */
  lemma {:induction false} ListStaysUnique(jobs: seq<Job>, ts: seq<Timed>)
    requires Unique(jobs) && |jobs| <= MAX_JOBS && forall i :: 0 <= i < |ts| ==> ts[i].event != CreateEvent("")
    ensures Unique(Run(jobs, ts)) && |Run(jobs, ts)| <= MAX_JOBS
    decreases |ts|
  {
    if ts != [] {
      StepGet(jobs, ts[0], "");
      ListStaysUnique(Step(jobs, ts[0]), ts[1..]);
    }
  }

  predicate SpacedBy(times: seq<int>, gap: int) {
    forall i :: 0 < i < |times| ==> times[i] >= times[i - 1] + gap
  }

  lemma SpacedCons(first: int, rest: seq<int>, gap: int)
    requires SpacedBy(rest, gap) && (rest != [] ==> rest[0] >= first + gap)
    ensures SpacedBy([first] + rest, gap)
  {
    var times := [first] + rest;
    forall i | 0 < i < |times| ensures times[i] >= times[i - 1] + gap {
      assert times[i] == rest[i - 1];
      if i > 1 { assert times[i - 1] == rest[i - 2]; }
    }
  }

  /** No retry delay of this job is shorter than the gap. */
  ghost predicate WaitsAtLeast(jobs: seq<Job>, used: set<string>, id: string, gap: int) {
    var job := Get(jobs, id);
    if job.Some? then Settings(job.value) && gap <= Wait(job.value) else id !in used ==> gap <= 5 * SECOND
  }

  ghost predicate NotBefore(jobs: seq<Job>, id: string, times: seq<int>, gap: int) {
    var job := Get(jobs, id);
    times != [] && job.Some? && job.value.claimedAt.Some? ==> times[0] >= job.value.claimedAt.value + gap
  }

  lemma SpacingStep(jobs: seq<Job>, t: Timed, now: int, used: set<string>, id: string, gap: int, rest: seq<int>)
    requires JobsOk(jobs, now) && Known(jobs, used) && Orderly(now, used, [t]) && WaitsAtLeast(jobs, used, id, gap)
    requires SpacedBy(rest, gap) && NotBefore(Step(jobs, t), id, rest, gap)
    requires Get(Step(jobs, t), id).None? && Get(jobs, id).Some? ==> rest == []
    ensures var times := (if Claimed(jobs, t) == Some(id) then [t.now] else []) + rest;
            SpacedBy(times, gap) && NotBefore(jobs, id, times, gap)
  {
    StepGet(jobs, t, id);
    var before := Get(jobs, id);
    if before.Some? { JobStep(before.value, jobs, t, now); }
    if Claimed(jobs, t) == Some(id) {
      SpacedCons(t.now, rest, gap);
    } else {
      assert [] + rest == rest;
    }
  }

  lemma WaitStep(jobs: seq<Job>, t: Timed, now: int, used: set<string>, id: string, gap: int)
    requires JobsOk(jobs, now) && Known(jobs, used) && Orderly(now, used, [t]) && WaitsAtLeast(jobs, used, id, gap)
    ensures WaitsAtLeast(Step(jobs, t), UsedAfter(used, t), id, gap)
  {
    StepGet(jobs, t, id);
    var before := Get(jobs, id);
    if before.Some? {
      JobStep(before.value, jobs, t, now);
    } else if id != "" {
      NewJobOk(id, t);
    }
  }

  /** Consecutive claims of a job are at least its retry delay apart, in every orderly run. */
  lemma {:induction false} ClaimsSpaced(jobs: seq<Job>, now: int, used: set<string>, ts: seq<Timed>, id: string,
                                        gap: int)
    requires JobsOk(jobs, now) && Known(jobs, used) && Orderly(now, used, ts) && WaitsAtLeast(jobs, used, id, gap)
    ensures SpacedBy(ClaimTimes(jobs, ts, id), gap) && NotBefore(jobs, id, ClaimTimes(jobs, ts, id), gap)
    decreases |ts|
  {
    if ts != [] {
      var t, next := ts[0], Step(jobs, ts[0]);
      OrderlyHead(now, used, ts);
      StepKeepsJobsOk(jobs, t, now, used);
      WaitStep(jobs, t, now, used, id, gap);
      ClaimsSpaced(next, t.now, UsedAfter(used, t), ts[1..], id, gap);
      if Get(next, id).None? && Get(jobs, id).Some? {
        JobsOkWithin(next, t.now);
        OrderlySpares(next, t.now, UsedAfter(used, t), ts[1..]);
        AttemptBound(next, UsedAfter(used, t), ts[1..], id);
      }
      SpacingStep(jobs, t, now, used, id, gap, ClaimTimes(next, ts[1..], id));
    }
  }

  // ---------------------------------------------------------------- a job nobody answers for

  function LeaseAndWait(job: Job): int
    requires Settings(job)
  {
    (job.leaseSeconds.value + job.delaySeconds.value) * SECOND
  }

  predicate Rested(job: Job)
    requires Settings(job)
  {
    && job.nextAttemptAt.Some?
    && (job.claimedAt.Some? ==> job.nextAttemptAt.value >= job.claimedAt.value + LeaseAndWait(job))
  }

  /** The shapes of a job whose leases only ever run out. */
  predicate Cycling(job: Job) {
    Settings(job) &&
    match job.status
    case Queued => job.state == QueuedState && job.attempt.value < job.maxAttempts.value && Rested(job)
    case Running =>
      && job.state == RunningState && job.claimedAt.Some? && job.attempt.value > 0
      && job.timeoutAt == Some(job.claimedAt.value + job.leaseSeconds.value * SECOND)
    case Failed =>
      || (job.state == RetryWait && job.attempt.value < job.maxAttempts.value && Rested(job))
      || (job.state == Exhausted && job.attempt == job.maxAttempts)
    case _ => false
  }

  /** Changes still ahead of such a job. */
  function Measure(job: Job): (n: nat)
    requires Cycling(job)
    ensures n == 0 <==> job.state == Exhausted
    ensures n <= 3 * job.maxAttempts.value + 1
  {
    var left := job.maxAttempts.value - job.attempt.value;
    match job.status
    case Queued => 3 * left - 1
    case Running => 3 * left + 1
    case Failed => if job.state == RetryWait then 3 * left else 0
  }

  lemma NewJobCycles(id: string, now: int, policy: Policy)
    requires id != ""
    ensures var job := NewJob(id, now, policy); Cycling(job) && Measure(job) == 3 * job.maxAttempts.value - 1
  {
  }

  /** From the moment it is leased, a job cycles until somebody answers for it. */
  lemma LeaseStartsCycle(job: Job, now: int, p: Policy)
    requires Settings(job) && job.attempt.value < job.maxAttempts.value
    ensures var after := ClaimedJob(job, now, p); Cycling(after) && after.claimedAt == Some(now)
  {
  }

  lemma ReconcileCycles(job: Job, now: int, p: Policy)
    requires Cycling(job)
    ensures var after := ReconcileJob(job, now, p).0;
      && Cycling(after) && SameClaims(job, after)
      && (after == job || Measure(after) < Measure(job))
      && (job.status == Running && now >= job.timeoutAt.value ==> after != job)
      && (job.state == RetryWait && now >= job.nextAttemptAt.value ==> after != job)
      && (after != job ==> ReconcileJob(job, now, p).1.changed)
  {
  }

  predicate Unanswered(t: Timed, id: string) {
    match t.event
    case CreateEvent(mine) => mine != id && mine != ""
    case ReportEvent(mine, _) => mine != id
    case ResultEvent(mine, _, _) => mine != id
    case _ => true
  }

  lemma CycleStep(job: Job, jobs: seq<Job>, t: Timed)
    requires Cycling(job) && Unanswered(t, job.id)
    requires Claimed(jobs, t) == Some(job.id) ==> Ready(Settled(job, jobs, t), t.now)
    ensures var after := JobAfter(job, jobs, t);
      && Cycling(after) && after.leaseSeconds == job.leaseSeconds && after.delaySeconds == job.delaySeconds
      && (after == job || Measure(after) < Measure(job))
      && (Claimed(jobs, t) != Some(job.id) ==> after.claimedAt == job.claimedAt)
      && (Claimed(jobs, t) == Some(job.id) ==> after.claimedAt == Some(t.now))
      && (Claimed(jobs, t) == Some(job.id) && job.claimedAt.Some? ==> t.now >= job.claimedAt.value + LeaseAndWait(job))
  {
    ReconcileCycles(job, t.now, t.policy());
    var settled := Settled(job, jobs, t);
    if Claimed(jobs, t) == Some(job.id) { LeaseStartsCycle(settled, t.now, t.policy()); }
  }

  /** Number of steps of a run that change the job. */
  function Changes(jobs: seq<Job>, ts: seq<Timed>, id: string): nat
    decreases |ts|
  {
    if ts == [] then 0
    else
      var next := Step(jobs, ts[0]);
      (if Get(next, id).Some? && Get(next, id) != Get(jobs, id) then 1 else 0) + Changes(next, ts[1..], id)
  }

  lemma {:induction false} GoneStaysGone(jobs: seq<Job>, ts: seq<Timed>, id: string)
    requires Unique(jobs) && Get(jobs, id).None? && forall i :: 0 <= i < |ts| ==> Unanswered(ts[i], id)
    ensures Changes(jobs, ts, id) == 0 && ClaimTimes(jobs, ts, id) == [] && Get(Run(jobs, ts), id).None?
    decreases |ts|
  {
    if ts != [] {
      StepGet(jobs, ts[0], id);
      GoneStaysGone(Step(jobs, ts[0]), ts[1..], id);
    }
  }

  ghost predicate StillCycling(jobs: seq<Job>, id: string) {
    Get(jobs, id).Some? && Cycling(Get(jobs, id).value)
  }

  /** What is left of the measure; nothing once the job was dropped from the list. */
  ghost function Left(jobs: seq<Job>, id: string): (n: nat)
    ensures n > 0 ==> StillCycling(jobs, id)
  {
    if StillCycling(jobs, id) then Measure(Get(jobs, id).value) else 0
  }

  lemma CycleGet(jobs: seq<Job>, t: Timed, id: string)
    requires Unique(jobs) && Unanswered(t, id) && StillCycling(jobs, id)
    ensures var next := Step(jobs, t);
      && Unique(next)
      && (Get(next, id).Some? ==> StillCycling(next, id))
      && Left(next, id) + (if Get(next, id).Some? && Get(next, id) != Get(jobs, id) then 1 else 0) <= Left(jobs, id)
  {
    StepGet(jobs, t, id);
    CycleStep(Get(jobs, id).value, jobs, t);
  }

  /** A job nobody answers for changes at most 3 * max_attempts - 1 times from its creation on: every change
   *  uses up the measure, and as long as the job is kept it is exhausted exactly when nothing is left. */
  lemma {:induction false} Exhaustion(jobs: seq<Job>, ts: seq<Timed>, id: string)
    requires Unique(jobs) && forall i :: 0 <= i < |ts| ==> Unanswered(ts[i], id)
    requires StillCycling(jobs, id)
    ensures Changes(jobs, ts, id) + Left(Run(jobs, ts), id) <= Left(jobs, id)
    ensures var end := Get(Run(jobs, ts), id); end.Some? ==>
      Cycling(end.value) && (Left(Run(jobs, ts), id) == 0 <==> end.value.state == Exhausted)
    decreases |ts|
  {
    if ts != [] {
      CycleGet(jobs, ts[0], id);
      if Get(Step(jobs, ts[0]), id).Some? {
        Exhaustion(Step(jobs, ts[0]), ts[1..], id);
      } else {
        GoneStaysGone(Step(jobs, ts[0]), ts[1..], id);
      }
    }
  }

  lemma RestStep(jobs: seq<Job>, t: Timed, id: string, gap: int, rest: seq<int>)
    requires Unique(jobs) && Unanswered(t, id) && StillCycling(jobs, id) && LeaseAndWait(Get(jobs, id).value) == gap
    requires SpacedBy(rest, gap) && NotBefore(Step(jobs, t), id, rest, gap)
    requires Get(Step(jobs, t), id).None? ==> rest == []
    ensures var times := (if Claimed(jobs, t) == Some(id) then [t.now] else []) + rest;
            SpacedBy(times, gap) && NotBefore(jobs, id, times, gap)
  {
    StepGet(jobs, t, id);
    CycleStep(Get(jobs, id).value, jobs, t);
    if Claimed(jobs, t) == Some(id) { SpacedCons(t.now, rest, gap); } else { assert [] + rest == rest; }
  }

  lemma SameRest(jobs: seq<Job>, t: Timed, id: string)
    requires Unique(jobs) && Unanswered(t, id) && StillCycling(jobs, id) && Get(Step(jobs, t), id).Some?
    ensures StillCycling(Step(jobs, t), id)
    ensures LeaseAndWait(Get(Step(jobs, t), id).value) == LeaseAndWait(Get(jobs, id).value)
  {
    StepGet(jobs, t, id);
    CycleStep(Get(jobs, id).value, jobs, t);
  }

  /** While nobody answers, claims of the job are at least a whole lease and a retry delay apart. */
  lemma {:induction false} UnansweredClaimsSpaced(jobs: seq<Job>, ts: seq<Timed>, id: string, gap: int)
    requires Unique(jobs) && forall i :: 0 <= i < |ts| ==> Unanswered(ts[i], id)
    requires StillCycling(jobs, id) && LeaseAndWait(Get(jobs, id).value) == gap
    ensures SpacedBy(ClaimTimes(jobs, ts, id), gap) && NotBefore(jobs, id, ClaimTimes(jobs, ts, id), gap)
    decreases |ts|
  {
    if ts != [] {
      var t, next := ts[0], Step(jobs, ts[0]);
      CycleGet(jobs, t, id);
      if Get(next, id).Some? {
        SameRest(jobs, t, id);
        UnansweredClaimsSpaced(next, ts[1..], id, gap);
      } else {
        GoneStaysGone(next, ts[1..], id);
      }
      RestStep(jobs, t, id, gap, ClaimTimes(next, ts[1..], id));
    }
  }

  /** No job is left behind: a claim or a reconcile at or after its deadline moves a running or waiting job on,
   *  and with it one change nearer to its end. */
  lemma Progress(jobs: seq<Job>, t: Timed, id: string)
    requires Unique(jobs) && Get(jobs, id).Some? && Cycling(Get(jobs, id).value)
    requires t.event.ClaimEvent? || t.event.ReconcileEvent?
    requires var job := Get(jobs, id).value;
      || (job.status == Running && t.now >= job.timeoutAt.value)
      || (job.state == RetryWait && t.now >= job.nextAttemptAt.value)
    ensures Get(Step(jobs, t), id) != Get(jobs, id)
    ensures |jobs| <= MAX_JOBS ==>
      StillCycling(Step(jobs, t), id) && Measure(Get(Step(jobs, t), id).value) < Measure(Get(jobs, id).value)
  {
    var job := Get(jobs, id).value;
    if |jobs| <= MAX_JOBS { OnlyCreateDrops(jobs, t, id); }
    StepGet(jobs, t, id);
    ReconcileCycles(job, t.now, t.policy());
    var i := GetMapped(jobs, jobs, id);
    OneChangeCounts(jobs, t.now, t.policy(), i);
    CycleStep(job, jobs, t);
  }

  /** Exhausted, completed and cancelled jobs stay as they are under claims and reconcile passes. */
  lemma Absorbing(jobs: seq<Job>, t: Timed, id: string)
    requires Unique(jobs) && Get(jobs, id).Some? && (t.event.ClaimEvent? || t.event.ReconcileEvent?)
    requires var job := Get(jobs, id).value;
      || job.status == Completed || job.status == Cancelled
      || (job.status == Failed && job.state != RetryWait)
    ensures Get(Step(jobs, t), id).None? || Get(Step(jobs, t), id) == Get(jobs, id)
    ensures |jobs| <= MAX_JOBS ==> Get(Step(jobs, t), id) == Get(jobs, id)
    ensures Claimed(jobs, t) != Some(id)
  {
    if |jobs| <= MAX_JOBS { OnlyCreateDrops(jobs, t, id); }
    StepGet(jobs, t, id);
  }

  // ---------------------------------------------------------------- reports of the status queued

  /** The job an answer hands back goes to the front of the list, with its attempts and its due instant. */
  lemma HandedBack(jobs: seq<Job>, back: Timed, id: string) returns (handed: Job)
    requires Unique(jobs) && Get(jobs, id).Some? && Settings(Get(jobs, id).value)
    requires SendsBack(back.event) && back.event.id == id
    ensures Unique(Step(jobs, back)) && Step(jobs, back) != [] && Step(jobs, back)[0] == handed
    ensures Get(Step(jobs, back), id) == Some(handed) && handed.status == Queued && handed.id == id
    ensures SameClaims(Get(jobs, id).value, handed) && handed.nextAttemptAt == Get(jobs, id).value.nextAttemptAt
  {
    var stored, mine, job := AnswerIs(jobs, back);
    handed := job;
    UpsertGet(jobs, job, id);
    IsQueuedNow(Get(jobs, id).value, jobs, back);
  }

  lemma IsQueuedNow(job: Job, jobs: seq<Job>, back: Timed)
    requires Settings(job) && SendsBack(back.event) && back.event.id == job.id
    ensures var handed := JobAfter(job, jobs, back);
      handed.status == Queued && SameClaims(job, handed) && handed.nextAttemptAt == job.nextAttemptAt
  {
  }

  lemma FrontIsLeased(jobs: seq<Job>, t: Timed)
    requires jobs != [] && t.event.ClaimEvent? && Ready(jobs[0], t.now)
    ensures Claimed(jobs, t) == Some(jobs[0].id)
  {
    var p := t.policy();
    ReconcileKeepsJobs(jobs, t.now, Normalize(p));
    var r := Reconcile(jobs, t.now, p).0;
    assert r[0] == jobs[0] || r[0] == WithDefaults(jobs[0], t.now, Normalize(p));
    assert Ready(r[0], t.now);
    assert NextDue(r, t.now) == 0;
  }

  /** A claim that leases a queued job counts one attempt more, whether one is left or not. */
  lemma LeasedOnceMore(jobs: seq<Job>, claim: Timed, handed: Job) returns (end: Job)
    requires Unique(jobs) && Get(jobs, handed.id) == Some(handed) && Settings(handed) && handed.status == Queued
    requires claim.event.ClaimEvent? && Claimed(jobs, claim) == Some(handed.id)
    ensures Get(Step(jobs, claim), handed.id) == Some(end)
    ensures end.attempt == Some(handed.attempt.value + 1) && end.maxAttempts == handed.maxAttempts
    ensures Settings(end) <==> handed.attempt.value < handed.maxAttempts.value
  {
    StepGet(jobs, claim, handed.id);
    end := JobAfter(handed, jobs, claim);
  }

  lemma LeasesHandedBack(jobs: seq<Job>, claim: Timed, handed: Job)
    requires jobs != [] && jobs[0] == handed && handed.status == Queued && claim.event.ClaimEvent?
    requires Claimed(jobs, claim) == Some(handed.id) || Due(handed, claim.now)
    ensures Claimed(jobs, claim) == Some(handed.id)
  {
    if Due(handed, claim.now) { FrontIsLeased(jobs, claim); }
  }

  /** And the condition is needed: hand a job back as queued, then claim it, and it is within its maximum exactly
   *  if it had an attempt left. The next claim does lease it when it is due. */
  lemma QueuedReportNeedsAttempt(jobs: seq<Job>, back: Timed, claim: Timed, id: string)
    returns (job: Job, next: seq<Job>, end: Job)
    requires Unique(jobs) && Get(jobs, id).Some? && Settings(Get(jobs, id).value)
    requires SendsBack(back.event) && back.event.id == id && claim.event.ClaimEvent?
    requires Claimed(Step(jobs, back), claim) == Some(id) || Due(Get(jobs, id).value, claim.now)
    ensures Get(jobs, id) == Some(job) && next == Step(jobs, back) && Get(Step(next, claim), id) == Some(end)
    ensures end.attempt == Some(job.attempt.value + 1) && end.maxAttempts == job.maxAttempts
    ensures Settings(end) <==> job.attempt.value < job.maxAttempts.value
    ensures Spares(jobs, back.event) <==> job.attempt.value < job.maxAttempts.value
  {
    job, next := Get(jobs, id).value, Step(jobs, back);
    var handed := HandedBack(jobs, back, id);
    LeasesHandedBack(next, claim, handed);
    end := LeasedOnceMore(next, claim, handed);
  }

  /** One job with one attempt, leased twice. */
  lemma QueuedReportBreaksBound(p: Policy) returns (ts: seq<Timed>)
    requires p == Policy(1, 30, 5)
    ensures var job := Get(Run([], ts), "bench");
      job.Some? && job.value.attempt == Some(2) && job.value.maxAttempts == Some(1)
    ensures ClaimTimes([], ts, "bench") == [0, 0]
  {
    var make, claim := Timed(CreateEvent("bench"), 0, p), Timed(ClaimEvent, 0, p);
    var back := Timed(ReportEvent("bench", Queued), 0, p);
    ts := [make, claim, back, claim];
    var j1 := NewJob("bench", 0, p);
    var j2 := ClaimedJob(j1, 0, p);
    var j3 := j2.(status := Queued);
    assert Step([], make) == [j1];
    LeaseOnly(j1, p);
    assert Step([j2], back) == [j3];
    LeaseOnly(j3, p);
    var end := Step([j3], claim);
    RunCons([j3], claim, [], "bench");
    RunCons([j2], back, [claim], "bench");
    RunCons([j1], claim, [back, claim], "bench");
    RunCons([], make, [claim, back, claim], "bench");
  }

  lemma LeaseOnly(job: Job, p: Policy)
    requires p == Policy(1, 30, 5) && job.id != "" && Settings(job) && job.state != NoState
    requires job.status == Queued && Due(job, 0)
    ensures var claim := Timed(ClaimEvent, 0, p);
      Step([job], claim) == [ClaimedJob(job, 0, p)] && Claimed([job], claim) == Some(job.id)
  {
    var t, one := ReconcileSnoc([], job, 0, p);
    assert [] + [job] == [job];
    assert Reconcile([job], 0, p).0 == [job] && NextDue([job], 0) == 0;
    var claimed := ClaimedJob(job, 0, p);
    assert Others([job], job.id) == Others([], job.id) == [];
    assert Upsert([job], claimed) == [claimed];
    assert Claim([job], 0, p) == ([claimed], Some(claimed));
  }

  lemma RunCons(jobs: seq<Job>, t: Timed, ts: seq<Timed>, id: string)
    ensures Run(jobs, [t] + ts) == Run(Step(jobs, t), ts)
    ensures ClaimTimes(jobs, [t] + ts, id)
         == (if Claimed(jobs, t) == Some(id) then [t.now] else []) + ClaimTimes(Step(jobs, t), ts, id)
  {
    assert ([t] + ts)[1..] == ts;
  }
}
