// Single steps of the benchmark job protocol: the exact bookkeeping of a reconcile pass, and what a step of any
// kind makes of each job of the list.
module BenchmarkProtocol {
  import opened Common
  import opened BenchmarkSpec

  // ---------------------------------------------------------------- one job of a list

  function Get(jobs: seq<Job>, id: string): (r: Option<Job>)
    ensures r.Some? ==> r.value in jobs && r.value.id == id
    ensures r.None? ==> forall job :: job in jobs ==> job.id != id
  {
    if jobs == [] then None else if jobs[0].id == id then Some(jobs[0]) else Get(jobs[1..], id)
  }

  /** Every job has an id of its own. */
  ghost predicate Unique(jobs: seq<Job>) {
    && (forall i :: 0 <= i < |jobs| ==> jobs[i].id != "")
    && (forall i, j :: 0 <= i < j < |jobs| ==> jobs[i].id != jobs[j].id)
  }

  lemma {:induction false} GetAt(jobs: seq<Job>, i: nat)
    requires Unique(jobs) && i < |jobs|
    ensures Get(jobs, jobs[i].id) == Some(jobs[i])
  {
    if i > 0 { GetAt(jobs[1..], i - 1); }
  }

  lemma {:induction false} GetFound(jobs: seq<Job>, id: string)
    ensures var i := FindJob(jobs, id); Get(jobs, id) == (if i < |jobs| then Some(jobs[i]) else None)
  {
    if jobs != [] && jobs[0].id != id { GetFound(jobs[1..], id); }
  }

  lemma {:induction false} GetTake(jobs: seq<Job>, n: nat, id: string)
    requires n <= |jobs|
    ensures Get(jobs[..n], id).None? || Get(jobs[..n], id) == Get(jobs, id)
  {
    if n > 0 && jobs[0].id != id {
      assert jobs[..n][1..] == jobs[1..][..n - 1];
      GetTake(jobs[1..], n - 1, id);
    }
  }

  lemma {:induction false} GetOthers(jobs: seq<Job>, mine: string, id: string)
    ensures Get(Others(jobs, mine), id) == if mine != "" && mine == id then None else Get(jobs, id)
  {
    if jobs != [] { GetOthers(jobs[1..], mine, id); }
  }

  /** Upsert stores the job and touches no other one, except that the oldest may be dropped. */
  lemma GetUpsert(jobs: seq<Job>, job: Job, id: string)
    requires job.id != ""
    ensures id == job.id ==> Get(Upsert(jobs, job), id) == Some(job)
    ensures id != job.id ==> Get(Upsert(jobs, job), id).None? || Get(Upsert(jobs, job), id) == Get(jobs, id)
  {
    var all := [job] + Others(jobs, job.id);
    assert all[1..] == Others(jobs, job.id);
    GetOthers(jobs, job.id, id);
    if |all| > MAX_JOBS { GetTake(all, MAX_JOBS, id); }
  }

  lemma {:induction false} OthersUnique(jobs: seq<Job>, id: string)
    requires Unique(jobs)
    ensures Unique(Others(jobs, id))
    ensures forall job :: job in Others(jobs, id) ==> job in jobs && (id == "" || job.id != id)
  {
    if jobs != [] {
      var rest := Others(jobs[1..], id);
      OthersUnique(jobs[1..], id);
      forall j | 0 <= j < |rest| ensures rest[j].id != jobs[0].id { assert rest[j] in rest; }
    }
  }

  /** The list stays unique by id, and no longer than eight. */
  lemma UpsertUnique(jobs: seq<Job>, job: Job)
    requires Unique(jobs) && job.id != ""
    ensures Unique(Upsert(jobs, job)) && |Upsert(jobs, job)| <= MAX_JOBS
  {
    var rest := Others(jobs, job.id);
    OthersUnique(jobs, job.id);
    forall j | 0 <= j < |rest| ensures rest[j].id != job.id { assert rest[j] in rest; }
  }

  // ---------------------------------------------------------------- reconcile

  lemma ReconcileSnoc(jobs: seq<Job>, job: Job, now: int, p: Policy) returns (t: Tally, one: Tally)
    ensures t == ReconcileAll(jobs, now, p).1 && one == ReconcileJob(job, now, p).1
    ensures ReconcileAll(jobs + [job], now, p).0 == ReconcileAll(jobs, now, p).0 + [ReconcileJob(job, now, p).0]
    ensures ReconcileAll(jobs + [job], now, p).1 == t.Plus(one)
  {
    t, one := ReconcileAll(jobs, now, p).1, ReconcileJob(job, now, p).1;
    assert (jobs + [job])[..|jobs|] == jobs;
  }

  lemma {:induction false} ReconcileKeepsJobs(jobs: seq<Job>, now: int, p: Policy)
    ensures var r := ReconcileAll(jobs, now, p).0;
            |r| == |jobs| && forall i :: 0 <= i < |jobs| ==> r[i] == ReconcileJob(jobs[i], now, p).0
  {
    if |jobs| > 0 {
      var init, last := jobs[..|jobs| - 1], jobs[|jobs| - 1];
      assert jobs == init + [last];
      ReconcileKeepsJobs(init, now, p);
      var t, one := ReconcileSnoc(init, last, now, p);
    }
  }

  lemma ReconcileKeepsIds(jobs: seq<Job>, now: int, p: Policy)
    ensures var r := ReconcileAll(jobs, now, p).0; forall i :: 0 <= i < |jobs| ==> r[i].id == jobs[i].id
  {
    ReconcileKeepsJobs(jobs, now, p);
  }

  /** Looking a job up commutes with any change of the jobs that keeps their ids. */
  lemma {:induction false} GetMapped(jobs: seq<Job>, mapped: seq<Job>, id: string) returns (i: nat)
    requires |mapped| == |jobs| && forall k :: 0 <= k < |jobs| ==> mapped[k].id == jobs[k].id
    ensures Get(jobs, id).None? ==> Get(mapped, id).None?
    ensures Get(jobs, id).Some? ==> i < |jobs| && Get(jobs, id) == Some(jobs[i]) && Get(mapped, id) == Some(mapped[i])
  {
    i := 0;
    if |jobs| > 0 && jobs[0].id != id {
      i := GetMapped(jobs[1..], mapped[1..], id);
      i := i + 1;
    }
  }

  lemma GetReconciled(jobs: seq<Job>, now: int, p: Policy, id: string)
    ensures var before := Get(jobs, id); var after := Get(ReconcileAll(jobs, now, p).0, id);
            if before.None? then after.None? else after == Some(ReconcileJob(before.value, now, p).0)
  {
    ReconcileKeepsJobs(jobs, now, p);
    var i := GetMapped(jobs, ReconcileAll(jobs, now, p).0, id);
  }

  /** Number of jobs whose status differs between two lists. */
  function StatusChanges(before: seq<Job>, after: seq<Job>): nat
    requires |before| == |after|
  {
    if |before| == 0 then 0
    else
      var n := |before| - 1;
      StatusChanges(before[..n], after[..n]) + Moved(before[n], after[n])
  }

  function Moved(before: Job, after: Job): nat { if before.status == after.status then 0 else 1 }

  lemma StatusSnoc(before: seq<Job>, after: seq<Job>, x: Job, y: Job)
    requires |before| == |after|
    ensures StatusChanges(before + [x], after + [y]) == StatusChanges(before, after) + Moved(x, y)
  {
    assert (before + [x])[..|before|] == before && (after + [y])[..|after|] == after;
  }

  /** The counters of a pass in which n jobs changed status. */
  predicate TallyOf(t: Tally, n: nat) {
    t.retried + t.exhausted == n && t.timedOut <= n && (!t.changed ==> t == NoChange())
  }

  lemma JobTallyCounts(job: Job, now: int, p: Policy)
    ensures var (j, one) := ReconcileJob(job, now, p); TallyOf(one, Moved(job, j))
  {
  }

  lemma TallyPlus(a: Tally, b: Tally, m: nat, n: nat)
    requires TallyOf(a, m) && TallyOf(b, n)
    ensures TallyOf(a.Plus(b), m + n)
  {
  }

  lemma {:induction false} TallyCounts(jobs: seq<Job>, now: int, p: Policy) returns (n: nat)
    ensures TallyOf(ReconcileAll(jobs, now, p).1, n) && n == StatusChanges(jobs, ReconcileAll(jobs, now, p).0)
  {
    n := StatusChanges(jobs, ReconcileAll(jobs, now, p).0);
    if |jobs| > 0 {
      var init, last := jobs[..|jobs| - 1], jobs[|jobs| - 1];
      var rest, j := ReconcileAll(init, now, p).0, ReconcileJob(last, now, p).0;
      assert jobs == init + [last];
      var before := TallyCounts(init, now, p);
      JobTallyCounts(last, now, p);
      var t, one := ReconcileSnoc(init, last, now, p);
      StatusSnoc(init, rest, last, j);
      TallyPlus(t, one, before, Moved(last, j));
    }
  }

  lemma {:induction false} NoStatusChange(jobs: seq<Job>)
    ensures StatusChanges(jobs, jobs) == 0
  {
    if jobs != [] { NoStatusChange(jobs[..|jobs| - 1]); }
  }

  lemma {:induction false} ReconcileIs(jobs: seq<Job>, now: int, policy: Policy)
    returns (all: seq<Job>, t: Tally)
    ensures |all| == |jobs| && (forall i :: 0 <= i < |jobs| ==> all[i].id == jobs[i].id)
    ensures TallyOf(t, StatusChanges(jobs, all))
    ensures Reconcile(jobs, now, policy) == (if t.changed then all else jobs, t)
  {
    var r := ReconcileAll(jobs, now, Normalize(policy));
    all, t := r.0, r.1;
    ReconcileKeepsIds(jobs, now, Normalize(policy));
    var n := TallyCounts(jobs, now, Normalize(policy));
  }

  /** Ids and order are kept, and the counters are exactly the jobs whose stored status changed. */
  lemma {:induction false} ReconcileCounts(jobs: seq<Job>, now: int, policy: Policy)
    ensures |Reconcile(jobs, now, policy).0| == |jobs|
    ensures forall i :: 0 <= i < |jobs| ==> Reconcile(jobs, now, policy).0[i].id == jobs[i].id
    ensures TallyOf(Reconcile(jobs, now, policy).1, StatusChanges(jobs, Reconcile(jobs, now, policy).0))
  {
    var all, t := ReconcileIs(jobs, now, policy);
    NoStatusChange(jobs);
  }

  lemma {:induction false} OneChangeCounts(jobs: seq<Job>, now: int, p: Policy, i: nat)
    requires i < |jobs| && ReconcileJob(jobs[i], now, p).1.changed
    ensures ReconcileAll(jobs, now, p).1.changed
  {
    var init, last := jobs[..|jobs| - 1], jobs[|jobs| - 1];
    assert jobs == init + [last];
    if i < |init| { OneChangeCounts(init, now, p, i); }
    var t, one := ReconcileSnoc(init, last, now, p);
  }

  lemma SecondJobPass(job: Job, now: int, p: Policy)
    requires Normalized(p)
    ensures ReconcileJob(ReconcileJob(job, now, p).0, now, p).1 == NoChange()
  {
    assert Delay(job, p) > 0;
  }

  predicate Quiet(job: Job, now: int, p: Policy) { ReconcileJob(job, now, p).1 == NoChange() }

  lemma {:induction false} QuietPass(jobs: seq<Job>, now: int, p: Policy)
    requires forall i :: 0 <= i < |jobs| ==> Quiet(jobs[i], now, p)
    ensures ReconcileAll(jobs, now, p).1 == NoChange()
  {
    if |jobs| > 0 {
      var init, last := jobs[..|jobs| - 1], jobs[|jobs| - 1];
      QuietPass(init, now, p);
      assert jobs == init + [last] && Quiet(last, now, p);
      var t, one := ReconcileSnoc(init, last, now, p);
      PlusNothing(t, one);
    }
  }

  lemma PlusNothing(t: Tally, one: Tally)
    requires t == NoChange() && one == NoChange()
    ensures t.Plus(one) == NoChange()
  {
  }

  lemma SecondPass(jobs: seq<Job>, now: int, p: Policy) returns (once: seq<Job>)
    requires Normalized(p)
    ensures once == ReconcileAll(jobs, now, p).0
    ensures forall i :: 0 <= i < |once| ==> Quiet(once[i], now, p)
  {
    ReconcileKeepsJobs(jobs, now, p);
    once := ReconcileAll(jobs, now, p).0;
    forall i | 0 <= i < |once| ensures Quiet(once[i], now, p) { SecondJobPass(jobs[i], now, p); }
  }

  /** A second pass at the same instant changes nothing and reports a run with nothing in it. */
  lemma ReconcileIdempotent(jobs: seq<Job>, now: int, policy: Policy)
    ensures var once := Reconcile(jobs, now, policy).0; Reconcile(once, now, policy) == (once, NoChange())
  {
    var p := Normalize(policy);
    var once := SecondPass(jobs, now, p);
    QuietPass(once, now, p);
    var n := TallyCounts(jobs, now, p);
  }

  // ---------------------------------------------------------------- one step, seen by one job

  /** The job a step leases. */
  function Claimed(jobs: seq<Job>, t: Timed): Option<string> {
    if !t.event.ClaimEvent? then None
    else var c := Claim(jobs, t.now, t.policy()).1; if c.Some? then Some(c.value.id) else None
  }

  /** The job as a reconcile pass leaves it; the pass is stored only when it changed something. */
  function Settled(job: Job, jobs: seq<Job>, t: Timed): Job {
    if Reconcile(jobs, t.now, t.policy()).1.changed then ReconcileJob(job, t.now, t.policy()).0 else job
  }

  predicate Ready(job: Job, now: int) { job.status == Queued && Due(job, now) }

  /** What a step makes of one job of the list. */
  function JobAfter(job: Job, jobs: seq<Job>, t: Timed): Job {
    match t.event
    case CreateEvent(id) => if id == job.id then NewJob(id, t.now, t.policy()) else job
    case ClaimEvent =>
      var settled := Settled(job, jobs, t);
      if Claimed(jobs, t) == Some(job.id) then ClaimedJob(settled, t.now, t.policy()) else settled
    case ReportEvent(id, status) =>
      if id == job.id && Reportable(status) then ReportedJob(job, status, t.now, t.policy()) else job
    case ResultEvent(id, status, completedAt) =>
      if id == job.id
      then
        job.(status := if status == NoStatus then Completed else status, state := Terminal, completedAt := completedAt)
      else job
    case ReconcileEvent => Settled(job, jobs, t)
  }

  lemma SettledGet(jobs: seq<Job>, t: Timed, id: string)
    requires Unique(jobs)
    ensures var r := Reconcile(jobs, t.now, t.policy()).0; var before := Get(jobs, id);
      Unique(r) && |r| == |jobs| && Get(r, id) == if before.None? then None else Some(Settled(before.value, jobs, t))
  {
    var p := t.policy();
    GetReconciled(jobs, t.now, Normalize(p), id);
    ReconcileKeepsIds(jobs, t.now, Normalize(p));
  }

  lemma UpsertGet(jobs: seq<Job>, job: Job, id: string)
    requires Unique(jobs) && job.id != ""
    ensures var next := Upsert(jobs, job);
      && Unique(next) && |next| <= MAX_JOBS
      && (id == job.id ==> Get(next, id) == Some(job))
      && (id != job.id ==> Get(next, id).None? || Get(next, id) == Get(jobs, id))
  {
    UpsertUnique(jobs, job);
    GetUpsert(jobs, job, id);
  }

  /** A claim reconciles, then stores anew the ready job it leases, if there is one. */
  lemma ClaimIs(jobs: seq<Job>, t: Timed) returns (r: seq<Job>, leased: bool, mine: string, job: Job, ready: Job)
    requires Unique(jobs) && t.event.ClaimEvent?
    ensures r == Reconcile(jobs, t.now, t.policy()).0
    ensures !leased ==> Step(jobs, t) == r && Claimed(jobs, t) == None
    ensures leased ==> Step(jobs, t) == Upsert(r, job) && Claimed(jobs, t) == Some(mine) && job.id == mine != ""
    ensures leased ==> Get(r, mine) == Some(ready) && Ready(ready, t.now) && job == ClaimedJob(ready, t.now, t.policy())
  {
    r := Reconcile(jobs, t.now, t.policy()).0;
    SettledGet(jobs, t, "");
    var i := NextDue(r, t.now);
    leased := i < |r|;
    ready := if leased then r[i] else NewJob("", 0, t.policy());
    job := ClaimedJob(ready, t.now, t.policy());
    mine := job.id;
    if leased { GetAt(r, i); }
  }

  lemma ClaimGet(jobs: seq<Job>, t: Timed, id: string)
    requires Unique(jobs) && t.event.ClaimEvent?
    ensures var before := Get(jobs, id); var after := Get(Step(jobs, t), id);
      && Unique(Step(jobs, t)) && (|jobs| <= MAX_JOBS ==> |Step(jobs, t)| <= MAX_JOBS)
      && (after.Some? ==> before.Some? && after.value == JobAfter(before.value, jobs, t))
      && (Claimed(jobs, t) == Some(id) ==> before.Some? && after.Some? && Ready(Settled(before.value, jobs, t), t.now))
  {
    var r, leased, mine, job, ready := ClaimIs(jobs, t);
    SettledGet(jobs, t, id);
    if leased { UpsertGet(r, job, id); }
  }

  /** An answer for a job stores that job anew; any other answer changes nothing. */
  lemma AnswerIs(jobs: seq<Job>, t: Timed) returns (stored: bool, mine: string, job: Job)
    requires t.event.ReportEvent? || t.event.ResultEvent?
    ensures mine == t.event.id
    ensures stored ==> mine != "" && job.id == mine && Step(jobs, t) == Upsert(jobs, job)
    ensures stored ==> Get(jobs, mine).Some? && job == JobAfter(Get(jobs, mine).value, jobs, t)
    ensures !stored ==> Step(jobs, t) == jobs && (mine == "" || Get(jobs, mine).None? || !Reportable(t.event.status))
    ensures !stored && t.event.ResultEvent? ==> mine == "" || Get(jobs, mine).None?
  {
    mine := t.event.id;
    var i := FindJob(jobs, mine);
    GetFound(jobs, mine);
    stored := mine != "" && i < |jobs| && (t.event.ReportEvent? ==> Reportable(t.event.status));
    job := if i < |jobs| then JobAfter(jobs[i], jobs, t) else NewJob(mine, t.now, t.policy());
  }

  lemma NotMine(job: Job, jobs: seq<Job>, t: Timed)
    requires t.event.ReportEvent? || t.event.ResultEvent?
    requires t.event.id != job.id || (t.event.ReportEvent? && !Reportable(t.event.status))
    ensures JobAfter(job, jobs, t) == job
  {
  }

  lemma AnswerGet(jobs: seq<Job>, t: Timed, id: string)
    requires Unique(jobs) && (t.event.ReportEvent? || t.event.ResultEvent?)
    ensures var before := Get(jobs, id); var after := Get(Step(jobs, t), id);
      && Unique(Step(jobs, t)) && (|jobs| <= MAX_JOBS ==> |Step(jobs, t)| <= MAX_JOBS)
      && (after.Some? ==> before.Some? && after.value == JobAfter(before.value, jobs, t))
  {
    var stored, mine, job := AnswerIs(jobs, t);
    var before := Get(jobs, id);
    if stored { UpsertGet(jobs, job, id); }
    if before.Some? && (!stored || id != mine) { NotMine(before.value, jobs, t); }
  }

  /** A step makes of each job what JobAfter says, or drops it from the end of the list; only Create adds one. */
  lemma StepGet(jobs: seq<Job>, t: Timed, id: string)
    requires Unique(jobs) && t.event != CreateEvent("")
    ensures var before := Get(jobs, id); var after := Get(Step(jobs, t), id);
      && Unique(Step(jobs, t))
      && (|jobs| <= MAX_JOBS ==> |Step(jobs, t)| <= MAX_JOBS)
      && (after.Some? && before.Some? ==> after.value == JobAfter(before.value, jobs, t))
      && (after.Some? && before.None? ==> t.event == CreateEvent(id) && after.value == NewJob(id, t.now, t.policy()))
      && (Claimed(jobs, t) == Some(id) ==> before.Some? && after.Some? && Ready(Settled(before.value, jobs, t), t.now))
  {
    match t.event
    case CreateEvent(mine) => UpsertGet(jobs, NewJob(mine, t.now, t.policy()), id);
    case ClaimEvent => ClaimGet(jobs, t, id);
    case ReconcileEvent => SettledGet(jobs, t, id);
    case _ => AnswerGet(jobs, t, id);
  }

  // ---------------------------------------------------------------- jobs are not lost

  lemma {:induction false} OthersNoMore(jobs: seq<Job>, id: string)
    ensures |Others(jobs, id)| <= |jobs|
  {
    if jobs != [] { OthersNoMore(jobs[1..], id); }
  }

  lemma {:induction false} OthersFewer(jobs: seq<Job>, id: string)
    requires id != "" && Get(jobs, id).Some?
    ensures |Others(jobs, id)| < |jobs|
  {
    if jobs[0].id == id { OthersNoMore(jobs[1..], id); } else { OthersFewer(jobs[1..], id); }
  }

  /** Storing a job that is in the list already drops no other one. */
  lemma UpsertKeeps(jobs: seq<Job>, job: Job, id: string)
    requires job.id != "" && Get(jobs, job.id).Some? && |jobs| <= MAX_JOBS
    ensures Get(Upsert(jobs, job), id) == if id == job.id then Some(job) else Get(jobs, id)
  {
    OthersFewer(jobs, job.id);
    GetOthers(jobs, job.id, id);
    assert ([job] + Others(jobs, job.id))[1..] == Others(jobs, job.id);
  }

  /** Only the creation of another job drops one from the list. */
  lemma OnlyCreateDrops(jobs: seq<Job>, t: Timed, id: string)
    requires Unique(jobs) && |jobs| <= MAX_JOBS && !t.event.CreateEvent?
    ensures Get(Step(jobs, t), id).Some? <==> Get(jobs, id).Some?
  {
    match t.event
    case ClaimEvent =>
      var r, leased, mine, job, ready := ClaimIs(jobs, t);
      SettledGet(jobs, t, id);
      if leased { UpsertKeeps(r, job, id); }
    case ReconcileEvent =>
      SettledGet(jobs, t, id);
    case _ =>
      var stored, mine, job := AnswerIs(jobs, t);
      if stored { UpsertKeeps(jobs, job, id); }
  }
}
