// Benchmark jobs of internal/httpapi/benchmark_jobs.go: leases, retries and exhaustion of the jobs a
// managed node is asked to run. A job is a map with optional entries in the program; here it is a
// record with optional fields. Times are instants in nanoseconds.
module BenchmarkSpec {
  import opened Common

  datatype Status = Queued | Running | Completed | Failed | Cancelled | ProbeOk | ProbeFailed | NoStatus

  datatype SchedulerState =
    | NoState | QueuedState | RunningState | RetryWait | Exhausted | Terminal | Named(status: Status)

  datatype Job = Job(
    id: string, status: Status, state: SchedulerState,
    attempt: Option<int>, maxAttempts: Option<int>, leaseSeconds: Option<int>, delaySeconds: Option<int>,
    claimedAt: Option<int>, timeoutAt: Option<int>, nextAttemptAt: Option<int>,
    timedOutAt: Option<int>, failedAt: Option<int>, completedAt: Option<int>)

  datatype Policy = Policy(maxAttempts: int, leaseSeconds: int, delaySeconds: int)

  const SECOND := 1_000_000_000
  const MAX_JOBS := 8

  // ---------------------------------------------------------------- normalized settings

  function BoundedInt(value: int, fallback: int, lo: int, hi: int): (r: int)
    ensures lo <= hi ==> lo <= r <= hi
    ensures lo <= value <= hi && value > 0 ==> r == value
    ensures lo <= fallback <= hi && value <= 0 ==> r == fallback
  {
    var v := if value <= 0 then fallback else value;
    if v < lo then lo else if v > hi then hi else v
  }

  predicate Normalized(p: Policy) {
    1 <= p.maxAttempts <= 10 && 30 <= p.leaseSeconds <= 3600 && 5 <= p.delaySeconds <= 1800
  }

  function Normalize(p: Policy): (r: Policy)
    ensures Normalized(r) && (Normalized(p) ==> r == p)
  {
    Policy(BoundedInt(p.maxAttempts, 3, 1, 10), BoundedInt(p.leaseSeconds, 600, 30, 3600),
           BoundedInt(p.delaySeconds, 60, 5, 1800))
  }

  function Or<T>(value: Option<T>, fallback: T): T { if value.Some? then value.value else fallback }

  function Lease(job: Job, p: Policy): (r: int)
    ensures 30 * SECOND <= r <= 3600 * SECOND
  {
    Normalize(p.(leaseSeconds := Or(job.leaseSeconds, p.leaseSeconds))).leaseSeconds * SECOND
  }

  function Delay(job: Job, p: Policy): (r: int)
    ensures 5 * SECOND <= r <= 1800 * SECOND
  {
    Normalize(p.(delaySeconds := Or(job.delaySeconds, p.delaySeconds))).delaySeconds * SECOND
  }

  predicate Due(job: Job, now: int) { job.nextAttemptAt.None? || now >= job.nextAttemptAt.value }

  function StateNamed(status: Status): SchedulerState {
    match status
    case Queued => QueuedState
    case Running => RunningState
    case other => Named(other)
  }

  /** The job's own settings win over the policy, and are normalized. */
  function WithDefaults(job: Job, now: int, policy: Policy): Job {
    var p := Normalize(policy);
    var own := Normalize(Policy(Or(job.maxAttempts, p.maxAttempts), Or(job.leaseSeconds, p.leaseSeconds),
                                Or(job.delaySeconds, p.delaySeconds)));
    job.(maxAttempts := Some(own.maxAttempts), leaseSeconds := Some(own.leaseSeconds),
         delaySeconds := Some(own.delaySeconds),
         state := if job.state == NoState then StateNamed(job.status) else job.state,
         nextAttemptAt := if job.nextAttemptAt.None? && job.status == Queued then Some(now) else job.nextAttemptAt)
  }

  /** After a failed attempt: wait and retry while attempts are left, else the job is exhausted. */
  function ScheduleRetry(job: Job, now: int, policy: Policy): Job {
    var j := WithDefaults(job, now, policy);
    if Or(j.attempt, 0) < Or(j.maxAttempts, policy.maxAttempts)
    then j.(status := Failed, state := RetryWait, nextAttemptAt := Some(now + Delay(j, policy)))
    else j.(status := Failed, state := Exhausted, completedAt := Some(now), nextAttemptAt := None)
  }

  function Retries(job: Job, now: int, policy: Policy): bool {
    var j := WithDefaults(job, now, policy);
    Or(j.attempt, 0) < Or(j.maxAttempts, policy.maxAttempts)
  }

  // ---------------------------------------------------------------- reconcile

  datatype Tally = Tally(changed: bool, timedOut: nat, retried: nat, exhausted: nat) {
    function Plus(t: Tally): Tally {
      Tally(changed || t.changed, timedOut + t.timedOut, retried + t.retried, exhausted + t.exhausted)
    }
  }

  function NoChange(): Tally { Tally(false, 0, 0, 0) }

  function ReconcileJob(job: Job, now: int, p: Policy): (Job, Tally) {
    match job.status
    case Running =>
      var timeout := if job.timeoutAt.Some? then job.timeoutAt.value
                     else if job.claimedAt.Some? then job.claimedAt.value + Lease(job, p) else now;
      var leased := if job.timeoutAt.Some? then job
                    else job.(timeoutAt := Some(timeout), leaseSeconds := Some(Or(job.leaseSeconds, p.leaseSeconds)));
      if now >= timeout then
        var late := leased.(timedOutAt := Some(now));
        if Retries(late, now, p) then (ScheduleRetry(late, now, p), Tally(true, 1, 1, 0))
        else (ScheduleRetry(late, now, p), Tally(true, 1, 0, 1))
      else (leased, Tally(job.timeoutAt.None?, 0, 0, 0))
    case Failed =>
      if job.state == RetryWait && Due(job, now)
      then (job.(status := Queued, state := QueuedState), Tally(true, 0, 1, 0))
      else (job, NoChange())
    case Queued => (WithDefaults(job, now, p), NoChange())
    case _ => (job, NoChange())
  }

  function ReconcileAll(jobs: seq<Job>, now: int, p: Policy): (r: (seq<Job>, Tally))
    ensures |r.0| == |jobs|
  {
    if jobs == [] then ([], NoChange())
    else
      var (rest, t) := ReconcileAll(jobs[..|jobs| - 1], now, p);
      var (j, one) := ReconcileJob(jobs[|jobs| - 1], now, p);
      (rest + [j], t.Plus(one))
  }

  /** The stored list is replaced only when something counted as a change. */
  function Reconcile(jobs: seq<Job>, now: int, policy: Policy): (seq<Job>, Tally) {
    var (updated, t) := ReconcileAll(jobs, now, Normalize(policy));
    (if t.changed then updated else jobs, t)
  }

  // ---------------------------------------------------------------- the job list

  function Others(jobs: seq<Job>, id: string): seq<Job> {
    if jobs == [] then []
    else if id != "" && jobs[0].id == id then Others(jobs[1..], id)
    else [jobs[0]] + Others(jobs[1..], id)
  }

  /** The job goes to the front; at most eight jobs are kept. */
  function Upsert(jobs: seq<Job>, job: Job): (r: seq<Job>)
    ensures |r| <= MAX_JOBS && r != [] && r[0] == job
  {
    var all := [job] + Others(jobs, job.id);
    if |all| > MAX_JOBS then all[..MAX_JOBS] else all
  }

  function FindJob(jobs: seq<Job>, id: string): (i: nat)
    ensures i <= |jobs|
    ensures i < |jobs| ==> jobs[i].id == id
    ensures forall j :: 0 <= j < i ==> jobs[j].id != id
  {
    if jobs == [] || jobs[0].id == id then 0 else 1 + FindJob(jobs[1..], id)
  }

  function NextDue(jobs: seq<Job>, now: int): (i: nat)
    ensures i <= |jobs|
    ensures i < |jobs| ==> jobs[i].status == Queued && Due(jobs[i], now)
    ensures forall j :: 0 <= j < i ==> !(jobs[j].status == Queued && Due(jobs[j], now))
  {
    if jobs == [] || (jobs[0].status == Queued && Due(jobs[0], now)) then 0 else 1 + NextDue(jobs[1..], now)
  }

  // ---------------------------------------------------------------- the steps

  function NewJob(id: string, now: int, policy: Policy): Job {
    var p := Normalize(policy);
    Job(id, Queued, QueuedState, Some(0), Some(p.maxAttempts), Some(p.leaseSeconds), Some(p.delaySeconds),
        None, None, Some(now), None, None, None)
  }

  function ClaimedJob(job: Job, now: int, p: Policy): Job {
    job.(status := Running, state := RunningState, attempt := Some(Or(job.attempt, 0) + 1),
         claimedAt := Some(now), timeoutAt := Some(now + Lease(job, p)),
         leaseSeconds := Some(Or(job.leaseSeconds, p.leaseSeconds)),
         delaySeconds := Some(Or(job.delaySeconds, p.delaySeconds)),
         maxAttempts := Some(Or(job.maxAttempts, p.maxAttempts)),
         completedAt := None, failedAt := None, timedOutAt := None, nextAttemptAt := None)
  }

  /** A subscriber asks for work: reconcile, then lease the first job that is due. */
  function Claim(jobs: seq<Job>, now: int, p: Policy): (seq<Job>, Option<Job>) {
    var ready := Reconcile(jobs, now, p).0;
    var i := NextDue(ready, now);
    if i == |ready| then (ready, None)
    else
      var job := ClaimedJob(ready[i], now, p);
      (Upsert(ready, job), Some(job))
  }

  function ReportedJob(job: Job, status: Status, now: int, p: Policy): Job {
    var j := job.(status := status);
    match status
    case Running =>
      j.(state := RunningState, timeoutAt := if j.timeoutAt.Some? then j.timeoutAt else Some(now + Lease(j, p)))
    case Failed => ScheduleRetry(j.(failedAt := Some(now)), now, p)
    case Cancelled => j.(state := Terminal, completedAt := Some(now))
    case Completed => j.(state := Terminal, completedAt := Some(now))
    case _ => j
  }

  predicate Reportable(status: Status) {
    status == Queued || status == Running || status == Completed || status == Failed || status == Cancelled
  }

  function Report(jobs: seq<Job>, id: string, status: Status, now: int, p: Policy): seq<Job> {
    var i := FindJob(jobs, id);
    if id == "" || !Reportable(status) || i == |jobs| then jobs
    else Upsert(jobs, ReportedJob(jobs[i], status, now, p))
  }

  /** A result without a status of its own completes the job; any other status is stored as it is. */
  function IngestResult(jobs: seq<Job>, id: string, status: Status, completedAt: Option<int>): seq<Job> {
    var i := FindJob(jobs, id);
    if id == "" || i == |jobs| then jobs
    else
      Upsert(jobs, jobs[i].(status := if status == NoStatus then Completed else status,
                            state := Terminal, completedAt := completedAt))
  }

  datatype Event =
    | CreateEvent(id: string)
    | ClaimEvent
    | ReportEvent(id: string, status: Status)
    | ResultEvent(id: string, status: Status, completedAt: Option<int>)
    | ReconcileEvent

  /** An event at an instant, under the policy configured then, which is normalized when it is read. */
  datatype Timed = Timed(event: Event, now: int, configured: Policy) {
    function policy(): (p: Policy) ensures Normalized(p) { Normalize(configured) }
  }

  function Step(jobs: seq<Job>, t: Timed): seq<Job> {
    match t.event
    case CreateEvent(id) => Upsert(jobs, NewJob(id, t.now, t.policy()))
    case ClaimEvent => Claim(jobs, t.now, t.policy()).0
    case ReportEvent(id, status) => Report(jobs, id, status, t.now, t.policy())
    case ResultEvent(id, status, completedAt) => IngestResult(jobs, id, status, completedAt)
    case ReconcileEvent => Reconcile(jobs, t.now, t.policy()).0
  }

  function Run(jobs: seq<Job>, ts: seq<Timed>): seq<Job>
    decreases |ts|
  {
    if ts == [] then jobs else Run(Step(jobs, ts[0]), ts[1..])
  }
}
