// What each call does to the jobs of the list, in the terms of its caller: which job a claim leases and until
// when, when a failed attempt is due again, what a report or a result stores, which jobs stay in the list.
module BenchmarkEffects {
  import opened Common
  import opened BenchmarkSpec
  import opened BenchmarkProtocol

  // ---------------------------------------------------------------- settings

  /** A configured number: the fallback unless it is positive, and otherwise the nearest one in range. */
  function Bounded(value: int, fallback: int, lo: int, hi: int): int {
    if value <= 0 then fallback else if value < lo then lo else if value > hi then hi else value
  }

  function Attempts(p: Policy): int { Bounded(p.maxAttempts, 3, 1, 10) }
  function LeaseTime(p: Policy): int { Bounded(p.leaseSeconds, 600, 30, 3600) }
  function RetryTime(p: Policy): int { Bounded(p.delaySeconds, 60, 5, 1800) }

  /** The settings that count for a job: its own, in range, or those of the policy. */
  function AttemptsOf(job: Job, p: Policy): int {
    if job.maxAttempts.Some? then Bounded(job.maxAttempts.value, 3, 1, 10) else Attempts(p)
  }

  function LeaseOf(job: Job, p: Policy): int {
    if job.leaseSeconds.Some? then Bounded(job.leaseSeconds.value, 600, 30, 3600) else LeaseTime(p)
  }

  function DelayOf(job: Job, p: Policy): int {
    if job.delaySeconds.Some? then Bounded(job.delaySeconds.value, 60, 5, 1800) else RetryTime(p)
  }

  function Used(job: Job): int { if job.attempt.Some? then job.attempt.value else 0 }

  function Nanoseconds(seconds: int): int { seconds * 1_000_000_000 }

  /** Three attempts, ten minutes of lease and a minute of delay unless something else is configured; at most ten
   *  attempts, between half a minute and an hour, between five seconds and half an hour. */
  lemma PolicyMeans(p: Policy)
    ensures Normalize(p) == Policy(Attempts(p), LeaseTime(p), RetryTime(p))
  {
  }

  lemma LeaseIs(job: Job, p: Policy)
    ensures Lease(job, p) == Nanoseconds(LeaseOf(job, p)) == Nanoseconds(LeaseOf(job, Normalize(p)))
  {
  }

  // ---------------------------------------------------------------- the list

  lemma {:induction false} OthersKeepAll(jobs: seq<Job>, id: string)
    requires forall i :: 0 <= i < |jobs| ==> jobs[i].id != id
    ensures Others(jobs, id) == jobs
  {
    if jobs != [] {
      OthersKeepAll(jobs[1..], id);
      assert jobs == [jobs[0]] + jobs[1..];
    }
  }

  lemma {:induction false} OthersLeaveOne(jobs: seq<Job>, id: string, k: nat)
    requires id != "" && k < |jobs| && jobs[k].id == id
    requires forall i :: 0 <= i < |jobs| && i != k ==> jobs[i].id != id
    ensures Others(jobs, id) == RemoveAt(jobs, k)
  {
    var rest := jobs[1..];
    if k == 0 {
      OthersKeepAll(rest, id);
      assert RemoveAt(jobs, 0) == rest;
    } else {
      OthersLeaveOne(rest, id, k - 1);
      assert RemoveAt(jobs, k) == [jobs[0]] + RemoveAt(rest, k - 1);
    }
  }

  /** A stored job comes to the front and every other one keeps its place behind it, those past the eighth place
   *  excepted. Here k is the place the job had in the list, or the length of the list if it is new. */
  lemma StoredInFront(jobs: seq<Job>, job: Job, k: nat)
    requires Unique(jobs) && job.id != "" && k <= |jobs|
    requires if k < |jobs| then jobs[k].id == job.id else forall i :: 0 <= i < |jobs| ==> jobs[i].id != job.id
    ensures var all := [job] + (if k < |jobs| then RemoveAt(jobs, k) else jobs);
      Upsert(jobs, job) == if |all| <= 8 then all else all[..8]
  {
    if k < |jobs| { OthersLeaveOne(jobs, job.id, k); } else { OthersKeepAll(jobs, job.id); }
  }

  /** A new job is put in front of all others: only a job in the eighth place or behind it is dropped for it. It is
   *  queued and due at once, and keeps the settings configured when it was created. */
  lemma CreationDropsTheEighth(jobs: seq<Job>, t: Timed) returns (next: seq<Job>)
    requires Unique(jobs) && t.event.CreateEvent? && t.event.id != "" && Get(jobs, t.event.id).None?
    ensures next == Step(jobs, t) && |next| == (if |jobs| < 8 then |jobs| + 1 else 8)
    ensures forall i :: 0 < i < |next| ==> next[i] == jobs[i - 1]
    ensures next[0].id == t.event.id && next[0].status == Queued && Used(next[0]) == 0 && next[0].claimedAt.None?
    ensures next[0].nextAttemptAt == Some(t.now)
    ensures next[0].maxAttempts == Some(Attempts(t.configured))
    ensures next[0].leaseSeconds == Some(LeaseTime(t.configured))
    ensures next[0].delaySeconds == Some(RetryTime(t.configured))
  {
    next := Step(jobs, t);
    StoredInFront(jobs, NewJob(t.event.id, t.now, t.policy()), |jobs|);
  }

  // ---------------------------------------------------------------- a failed attempt

  /** What a failed attempt makes of a job: with an attempt left it waits for exactly its retry delay, otherwise it
   *  is exhausted and never due again. */
  ghost predicate AttemptFailed(job: Job, after: Job, now: int, p: Policy) {
    && after.id == job.id && after.attempt == job.attempt && after.claimedAt == job.claimedAt
    && after.status == Failed
    && if Used(job) < AttemptsOf(job, p)
       then after.state == RetryWait && after.nextAttemptAt == Some(now + Nanoseconds(DelayOf(job, p)))
       else after.state == Exhausted && after.nextAttemptAt.None? && after.completedAt == Some(now)
  }

  lemma RetryMeans(job: Job, now: int, p: Policy)
    ensures AttemptFailed(job, ScheduleRetry(job, now, p), now, p)
    ensures Retries(job, now, p) <==> Used(job) < AttemptsOf(job, p)
  {
  }

  lemma SameSettings(job: Job, p: Policy)
    ensures AttemptsOf(job, Normalize(p)) == AttemptsOf(job, p) && LeaseOf(job, Normalize(p)) == LeaseOf(job, p)
    ensures DelayOf(job, Normalize(p)) == DelayOf(job, p)
  {
  }

  lemma RetryMeansUnder(job: Job, now: int, p: Policy)
    ensures AttemptFailed(job, ScheduleRetry(job, now, Normalize(p)), now, p)
    ensures Retries(job, now, Normalize(p)) <==> Used(job) < AttemptsOf(job, p)
  {
    RetryMeans(job, now, Normalize(p));
    SameSettings(job, p);
  }

  // ---------------------------------------------------------------- reports and results

  /** What a report stores. */
  ghost predicate Reported(job: Job, after: Job, status: Status, now: int, p: Policy) {
    match status
    case Queued => after == job.(status := Queued)
    case Running =>
      after == job.(status := Running, state := RunningState,
                    timeoutAt := if job.timeoutAt.Some? then job.timeoutAt
                                 else Some(now + Nanoseconds(LeaseOf(job, p))))
    case Completed => after == job.(status := Completed, state := Terminal, completedAt := Some(now))
    case Cancelled => after == job.(status := Cancelled, state := Terminal, completedAt := Some(now))
    case Failed => AttemptFailed(job, after, now, p) && after.failedAt == Some(now)
    case _ => false
  }

  lemma ReportStores(job: Job, status: Status, now: int, p: Policy)
    requires status in {Queued, Running, Completed, Cancelled, Failed}
    ensures Reported(job, ReportedJob(job, status, now, Normalize(p)), status, now, p)
  {
    LeaseIs(job, Normalize(p));
    SameSettings(job, p);
    RetryMeansUnder(job.(status := Failed, failedAt := Some(now)), now, p);
  }

  /** A report about a job of the list stores it in front, as the reported status says; a report about another job,
   *  or with a status that is none of the five, changes nothing. A report that the job still runs does not move its
   *  deadline. */
  lemma ReportTakes(jobs: seq<Job>, t: Timed, id: string, status: Status) returns (job: Option<Job>, after: Job)
    requires Unique(jobs) && t.event == ReportEvent(id, status)
    ensures job == Get(jobs, id)
    ensures job.Some? && status in {Queued, Running, Completed, Cancelled, Failed} ==>
      Step(jobs, t) != [] && Step(jobs, t)[0] == after && Get(Step(jobs, t), id) == Some(after)
      && Reported(job.value, after, status, t.now, t.configured)
    ensures job.None? || status !in {Queued, Running, Completed, Cancelled, Failed} ==> Step(jobs, t) == jobs
  {
    job := Get(jobs, id);
    var stored, mine, now := AnswerIs(jobs, t);
    after := now;
    if job.Some? && status in {Queued, Running, Completed, Cancelled, Failed} {
      UpsertGet(jobs, after, id);
      ReportStores(job.value, status, t.now, t.configured);
    }
  }

  /** A result ends its job: completed unless the result says otherwise. */
  lemma ResultTakes(jobs: seq<Job>, t: Timed, id: string, status: Status, at: Option<int>) returns (job: Option<Job>)
    requires Unique(jobs) && t.event == ResultEvent(id, status, at)
    ensures job == Get(jobs, id)
    ensures job.Some? ==>
      Get(Step(jobs, t), id)
        == Some(job.value.(status := if status == NoStatus then Completed else status, state := Terminal,
                           completedAt := at))
    ensures job.None? ==> Step(jobs, t) == jobs
  {
    job := Get(jobs, id);
    var stored, mine, now := AnswerIs(jobs, t);
    if job.Some? && stored { UpsertGet(jobs, now, id); }
  }

  // ---------------------------------------------------------------- a pass over the list

  /** When a running job is late: its own deadline, or a lease after it was claimed, or at once. */
  function Deadline(job: Job, now: int, p: Policy): int {
    if job.timeoutAt.Some? then job.timeoutAt.value
    else if job.claimedAt.Some? then job.claimedAt.value + Nanoseconds(LeaseOf(job, p))
    else now
  }

  predicate Late(job: Job, now: int, p: Policy) { job.status == Running && Deadline(job, now, p) <= now }

  /** A waiting job whose time has come. */
  predicate WaitOver(job: Job, now: int) {
    job.status == Failed && job.state == RetryWait && (job.nextAttemptAt.None? || job.nextAttemptAt.value <= now)
  }

  predicate Unlimited(job: Job) { job.status == Running && job.timeoutAt.None? }

  /** What a pass makes of one job. */
  ghost predicate Passed(job: Job, after: Job, now: int, p: Policy) {
    if Late(job, now, p) then AttemptFailed(job, after, now, p) && after.timedOutAt == Some(now)
    else if Unlimited(job) then
      after == job.(timeoutAt := Some(Deadline(job, now, p)),
                    leaseSeconds := if job.leaseSeconds.Some? then job.leaseSeconds else Some(LeaseTime(p)))
    else if WaitOver(job, now) then after == job.(status := Queued, state := QueuedState)
    else if job.status == Queued then FilledIn(job, after, now, p)
    else after == job
  }

  /** A queued job with everything filled in that it came without. */
  ghost predicate FilledIn(job: Job, after: Job, now: int, p: Policy) {
    after == job.(maxAttempts := Some(AttemptsOf(job, p)), leaseSeconds := Some(LeaseOf(job, p)),
                  delaySeconds := Some(DelayOf(job, p)),
                  state := if job.state == NoState then QueuedState else job.state,
                  nextAttemptAt := if job.nextAttemptAt.Some? then job.nextAttemptAt else Some(now))
  }

  predicate PutOff(job: Job, now: int, p: Policy) { Late(job, now, p) && Used(job) < AttemptsOf(job, p) }

  predicate GivenUp(job: Job, now: int, p: Policy) { Late(job, now, p) && Used(job) >= AttemptsOf(job, p) }

  /** What a pass counts for one job. */
  function TallyFor(job: Job, now: int, p: Policy): Tally {
    Tally(Late(job, now, p) || WaitOver(job, now) || Unlimited(job), if Late(job, now, p) then 1 else 0,
          if WaitOver(job, now) || PutOff(job, now, p) then 1 else 0, if GivenUp(job, now, p) then 1 else 0)
  }

  lemma RunningPass(job: Job, now: int, p: Policy)
    requires job.status == Running
    ensures var (after, t) := ReconcileJob(job, now, Normalize(p));
      Passed(job, after, now, p) && t == TallyFor(job, now, p)
  {
    var timeout := Deadline(job, now, p);
    var leased := if job.timeoutAt.Some? then job
                  else job.(timeoutAt := Some(timeout),
                            leaseSeconds := Some(Or(job.leaseSeconds, Normalize(p).leaseSeconds)));
    LeaseIs(job, Normalize(p));
    SameSettings(job, p);
    PolicyMeans(p);
    RetryMeansUnder(leased.(timedOutAt := Some(now)), now, p);
    assert Used(leased) == Used(job) && AttemptsOf(leased, p) == AttemptsOf(job, p);
  }

  lemma QueuedPass(job: Job, now: int, p: Policy)
    requires job.status == Queued
    ensures FilledIn(job, WithDefaults(job, now, Normalize(p)), now, p)
  {
  }

  lemma PassMeans(job: Job, now: int, p: Policy)
    ensures var (after, t) := ReconcileJob(job, now, Normalize(p));
      Passed(job, after, now, p) && t == TallyFor(job, now, p)
  {
    match job.status
    case Running => RunningPass(job, now, p);
    case Queued => QueuedPass(job, now, p);
    case _ =>
  }

  /** How many jobs of the list have this property. */
  function CountIf(jobs: seq<Job>, f: Job -> bool): nat {
    if jobs == [] then 0 else CountIf(jobs[..|jobs| - 1], f) + if f(jobs[|jobs| - 1]) then 1 else 0
  }

  ghost predicate SomethingToDo(jobs: seq<Job>, now: int, p: Policy) {
    exists job :: job in jobs && (Late(job, now, p) || WaitOver(job, now) || Unlimited(job))
  }

  function SumFor(jobs: seq<Job>, now: int, p: Policy): Tally {
    if jobs == [] then NoChange() else SumFor(jobs[..|jobs| - 1], now, p).Plus(TallyFor(jobs[|jobs| - 1], now, p))
  }

  lemma {:induction false} PassSum(jobs: seq<Job>, now: int, p: Policy)
    ensures ReconcileAll(jobs, now, Normalize(p)).1 == SumFor(jobs, now, p)
  {
    if |jobs| > 0 {
      var init, last := jobs[..|jobs| - 1], jobs[|jobs| - 1];
      assert jobs == init + [last];
      PassSum(init, now, p);
      PassMeans(last, now, p);
      var t, one := ReconcileSnoc(init, last, now, Normalize(p));
    }
  }

  lemma {:induction false} SumCounts(jobs: seq<Job>, now: int, p: Policy, late: Job -> bool, retried: Job -> bool,
                                     givenUp: Job -> bool)
    requires forall job :: late(job) == Late(job, now, p) && givenUp(job) == GivenUp(job, now, p)
    requires forall job :: retried(job) == (WaitOver(job, now) || PutOff(job, now, p))
    ensures var t := SumFor(jobs, now, p);
      t.timedOut == CountIf(jobs, late) && t.retried == CountIf(jobs, retried) && t.exhausted == CountIf(jobs, givenUp)
  {
    if |jobs| > 0 { SumCounts(jobs[..|jobs| - 1], now, p, late, retried, givenUp); }
  }

  lemma {:induction false} SumChanged(jobs: seq<Job>, now: int, p: Policy)
    ensures SumFor(jobs, now, p).changed <==> SomethingToDo(jobs, now, p)
  {
    if |jobs| > 0 {
      var init, last := jobs[..|jobs| - 1], jobs[|jobs| - 1];
      assert jobs == init + [last];
      SumChanged(init, now, p);
    }
  }

  /** The counters of a pass are the late jobs, those put off or taken up again, and those given up; it is a change
   *  exactly if a job is late, its wait is over, or it runs without a deadline. */
  lemma PassCounts(jobs: seq<Job>, now: int, p: Policy)
    ensures var t := Reconcile(jobs, now, p).1;
      && t.timedOut == CountIf(jobs, (job: Job) => Late(job, now, p))
      && t.retried == CountIf(jobs, (job: Job) => WaitOver(job, now) || PutOff(job, now, p))
      && t.exhausted == CountIf(jobs, (job: Job) => GivenUp(job, now, p))
      && (t.changed <==> SomethingToDo(jobs, now, p))
  {
    PassSum(jobs, now, p);
    SumCounts(jobs, now, p, (job: Job) => Late(job, now, p),
              (job: Job) => WaitOver(job, now) || PutOff(job, now, p), (job: Job) => GivenUp(job, now, p));
    SumChanged(jobs, now, p);
  }

  /** A pass keeps every job in its place. It is stored exactly if there was something to do; then each job of the
   *  list is as the pass makes it. */
  lemma SettledMeans(jobs: seq<Job>, t: Timed, k: nat)
    requires k < |jobs|
    ensures var after := Settled(jobs[k], jobs, t);
      if SomethingToDo(jobs, t.now, t.configured) then Passed(jobs[k], after, t.now, t.configured) else after == jobs[k]
    ensures |Reconcile(jobs, t.now, t.policy()).0| == |jobs|
    ensures Reconcile(jobs, t.now, t.policy()).0[k] == Settled(jobs[k], jobs, t)
  {
    PassMeans(jobs[k], t.now, t.configured);
    PassCounts(jobs, t.now, t.configured);
    ReconcileKeepsJobs(jobs, t.now, Normalize(t.policy()));
  }

  // ---------------------------------------------------------------- claims

  /** The deadline, the attempt and everything else a lease sets, and what it clears. */
  ghost predicate Leased(job: Job, after: Job, now: int, p: Policy) {
    && after.id == job.id && after.status == Running && after.state == RunningState
    && after.attempt == Some(Used(job) + 1) && after.claimedAt == Some(now)
    && after.timeoutAt == Some(now + Nanoseconds(LeaseOf(job, p)))
    && after.nextAttemptAt.None? && after.completedAt.None? && after.failedAt.None? && after.timedOutAt.None?
  }

  lemma LeaseMeans(job: Job, now: int, p: Policy)
    ensures Leased(job, ClaimedJob(job, now, Normalize(p)), now, p)
  {
    LeaseIs(job, Normalize(p));
    SameSettings(job, p);
  }

  predicate Takeable(job: Job, now: int) {
    job.status == Queued && (job.nextAttemptAt.None? || job.nextAttemptAt.value <= now)
  }

  lemma NextDueIs(jobs: seq<Job>, now: int, k: nat)
    requires k <= |jobs| && (forall i :: 0 <= i < k ==> !Takeable(jobs[i], now))
    requires k < |jobs| ==> Takeable(jobs[k], now)
    ensures NextDue(jobs, now) == k
  {
  }

  lemma SettledList(jobs: seq<Job>, t: Timed) returns (r: seq<Job>)
    ensures r == Reconcile(jobs, t.now, t.policy()).0 && |r| == |jobs|
    ensures forall i :: 0 <= i < |jobs| ==> r[i] == Settled(jobs[i], jobs, t) && r[i].id == jobs[i].id
  {
    r := Reconcile(jobs, t.now, t.policy()).0;
    ReconcileKeepsJobs(jobs, t.now, Normalize(t.policy()));
    ReconcileKeepsIds(jobs, t.now, Normalize(t.policy()));
  }

  lemma ClaimedAt(jobs: seq<Job>, t: Timed, r: seq<Job>, k: nat) returns (leased: Option<Job>)
    requires t.event.ClaimEvent? && r == Reconcile(jobs, t.now, t.policy()).0
    requires k <= |r| && NextDue(r, t.now) == k
    ensures leased == Claim(jobs, t.now, t.policy()).1 && (k == |r| ==> leased == None)
    ensures k < |r| ==>
      leased == Some(ClaimedJob(r[k], t.now, t.policy())) && Step(jobs, t) != [] && Step(jobs, t)[0] == leased.value
  {
    leased := Claim(jobs, t.now, t.policy()).1;
  }

  /** A claim leases the first job that is queued and due once the pass before it is done, and no other; it hands
   *  out the job it stored in front. Here k is the place of that job, or the length of the list if there is none. */
  lemma ClaimTakesFirst(jobs: seq<Job>, t: Timed, k: nat) returns (leased: Option<Job>)
    requires t.event.ClaimEvent? && k <= |jobs|
    requires forall i :: 0 <= i < k ==> !Takeable(Settled(jobs[i], jobs, t), t.now)
    requires k < |jobs| ==> Takeable(Settled(jobs[k], jobs, t), t.now)
    ensures leased == Claim(jobs, t.now, t.policy()).1
    ensures k == |jobs| ==> leased == None
    ensures k < |jobs| ==>
      leased.Some? && leased.value.id == jobs[k].id && Step(jobs, t) != [] && Step(jobs, t)[0] == leased.value
      && Leased(Settled(jobs[k], jobs, t), leased.value, t.now, t.configured)
  {
    var r := SettledList(jobs, t);
    NextDueIs(r, t.now, k);
    leased := ClaimedAt(jobs, t, r, k);
    if k < |jobs| { LeaseMeans(r[k], t.now, t.configured); }
  }

  // ---------------------------------------------------------------- how long a job stays

  /** The place of a job, or the length of the list. */
  lemma PlaceOf(jobs: seq<Job>, id: string) returns (m: nat)
    requires Unique(jobs)
    ensures m <= |jobs|
    ensures if m < |jobs| then jobs[m].id == id else forall i :: 0 <= i < |jobs| ==> jobs[i].id != id
  {
    m := FindJob(jobs, id);
  }

  /** Storing one job moves any other at most one place back, and not out of the first eight. */
  lemma UpsertMovesBackOne(jobs: seq<Job>, job: Job, k: nat) returns (k': nat)
    requires Unique(jobs) && job.id != "" && k < |jobs| && k < 7
    ensures k' <= k + 1 && k' < |Upsert(jobs, job)| && Upsert(jobs, job)[k'].id == jobs[k].id
  {
    var m := PlaceOf(jobs, job.id);
    StoredInFront(jobs, job, m);
    k' := if m == k then 0 else if m < k then k else k + 1;
    if m < |jobs| && m != k { assert RemoveAt(jobs, m)[if k < m then k else k - 1] == jobs[k]; }
  }

  lemma StepMovesBackOne(jobs: seq<Job>, t: Timed, k: nat) returns (k': nat)
    requires Unique(jobs) && k < |jobs| && k < 7 && t.event != CreateEvent("")
    ensures Unique(Step(jobs, t))
    ensures k' <= k + 1 && k' < |Step(jobs, t)| && Step(jobs, t)[k'].id == jobs[k].id
  {
    StepGet(jobs, t, "");
    k' := k;
    match t.event
    case CreateEvent(id) => k' := UpsertMovesBackOne(jobs, NewJob(id, t.now, t.policy()), k);
    case ReconcileEvent => var r := SettledList(jobs, t);
    case ClaimEvent =>
      var r, leased, mine, job, ready := ClaimIs(jobs, t);
      var all := SettledList(jobs, t);
      SettledGet(jobs, t, "");
      if leased { k' := UpsertMovesBackOne(r, job, k); }
    case _ =>
      var stored, mine, job := AnswerIs(jobs, t);
      if stored { k' := UpsertMovesBackOne(jobs, job, k); }
  }

  /** However full the list is, a job survives as many calls as there are places behind it among the first eight. */
  lemma {:induction false} StaysAWhile(jobs: seq<Job>, ts: seq<Timed>, k: nat)
    requires Unique(jobs) && k < |jobs| && k + |ts| <= 7
    requires forall i :: 0 <= i < |ts| ==> ts[i].event != CreateEvent("")
    ensures Get(Run(jobs, ts), jobs[k].id).Some?
    decreases |ts|
  {
    if ts == [] {
      GetAt(jobs, k);
    } else {
      var k' := StepMovesBackOne(jobs, ts[0], k);
      StaysAWhile(Step(jobs, ts[0]), ts[1..], k');
    }
  }
}
