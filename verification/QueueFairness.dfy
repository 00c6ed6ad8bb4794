// What the scheduler promises over whole runs: slot conservation, one fate per request, arrival
// order within a class, a starvation bound, and exact proportional share.
module QueueFairness {
  import opened Common
  import opened QueueSpec

  // ---------------------------------------------------------------- safety of single steps

  /** No step raises the number of used slots above the capacity in force after it; a state that is
      over capacity only shrinks. */
  lemma {:induction false} DispatchRespectsCapacity(s: State)
    requires CursorOk(s)
    ensures var r := Dispatch(s);
      && r.capacity == s.capacity
      && s.active <= r.active
      && (r.active > s.active ==> r.active <= r.capacity)
    decreases |s.waiting|
  {
    if CanPick(s) {
      DispatchRespectsCapacity(Pick(s));
    }
  }

  lemma StepRespectsCapacity(s: State, e: Event)
    requires Inv(s)
    ensures var r := Step(s, e);
      && (r.active > s.active ==> r.active <= r.capacity)
      && (s.active <= r.capacity ==> r.active <= r.capacity)
  {
    if Dispatches(e) {
      DispatchRespectsCapacity(BeforeDispatch(s, e));
    }
  }

  /** Histories only grow. */
  lemma {:induction false} DispatchExtends(s: State)
    requires CursorOk(s)
    ensures var r := Dispatch(s);
      && s.granted <= r.granted && r.cancelled == s.cancelled && r.log == s.log
      && r.released == s.released && r.policy == s.policy && r.weights == s.weights
    decreases |s.waiting|
  {
    if CanPick(s) {
      DispatchExtends(Pick(s));
    }
  }

  lemma StepExtends(s: State, e: Event)
    requires CursorOk(s)
    ensures var r := Step(s, e);
      s.granted <= r.granted && s.cancelled <= r.cancelled && s.log <= r.log && s.released <= r.released
  {
    if Dispatches(e) {
      DispatchExtends(BeforeDispatch(s, e));
    }
  }

  lemma {:induction false} RunExtends(s: State, es: seq<Event>)
    requires CursorOk(s)
    ensures var r := Run(s, es);
      s.granted <= r.granted && s.cancelled <= r.cancelled && s.log <= r.log && s.released <= r.released
    decreases |es|
  {
    if es != [] {
      StepExtends(s, es[0]);
      RunExtends(Step(s, es[0]), es[1..]);
    }
  }

  // ---------------------------------------------------------------- conservation over runs

  function Releases(es: seq<Event>): nat {
    if es == [] then 0 else (if es[0].ReleaseEvent? then 1 else 0) + Releases(es[1..])
  }

  /** Every release gives back a slot that some granted request still holds. */
  ghost predicate Matched(s: State, es: seq<Event>)
    requires CursorOk(s)
    decreases |es|
  {
    es == [] || ((es[0].ReleaseEvent? ==> s.released < |s.granted|) && Matched(Step(s, es[0]), es[1..]))
  }

  lemma {:induction false} MatchedReleases(s: State, es: seq<Event>)
    requires Inv(s) && Matched(s, es)
    ensures Run(s, es).released == s.released + Releases(es)
    decreases |es|
  {
    if es != [] {
      StepKeepsInv(s, es[0]);
      if Dispatches(es[0]) {
        DispatchExtends(BeforeDispatch(s, es[0]));
      }
      MatchedReleases(Step(s, es[0]), es[1..]);
    }
  }

  /** With matched releases, used slots are grants minus releases, after every run. */
  lemma SlotConservation(capacity: int, policy: Policy, weights: Weights, es: seq<Event>)
    requires Matched(Init(capacity, policy, weights), es)
    ensures var r := Run(Init(capacity, policy, weights), es);
      r.active == |r.granted| - Releases(es) && (r.waiting != [] ==> r.active >= r.capacity)
  {
    var s := Init(capacity, policy, weights);
    InitInv(capacity, policy, weights);
    RunKeepsInv(s, es);
    MatchedReleases(s, es);
  }

  /** Each request has exactly one fate: granted once, cancelled once, or waiting once. */
  lemma OneFate(capacity: int, policy: Policy, weights: Weights, es: seq<Event>, w: Waiter)
    ensures var r := Run(Init(capacity, policy, weights), es);
      multiset(r.granted)[w] + multiset(r.cancelled)[w] + multiset(r.waiting)[w] == (if w in r.log then 1 else 0)
  {
    var r := Run(Init(capacity, policy, weights), es);
    InitInv(capacity, policy, weights);
    RunKeepsInv(Init(capacity, policy, weights), es);
    OnceInLog(r.log, w);
    assert multiset(r.log)[w] == multiset(r.granted)[w] + multiset(r.cancelled)[w] + multiset(r.waiting)[w];
  }

  lemma {:induction false} OnceInLog(log: seq<Waiter>, w: Waiter)
    requires forall i :: 0 <= i < |log| ==> log[i].arrival == i
    ensures multiset(log)[w] == if w in log then 1 else 0
  {
    if log != [] {
      var rest := log[..|log| - 1];
      assert log == rest + [log[|log| - 1]];
      OnceInLog(rest, w);
    }
  }

  /** Requests of one class are granted in arrival order, whatever happens to policy, weights,
      capacity and other requests; and no request granted so far arrived after one of its class
      that still waits. */
  lemma OrderPreserved(capacity: int, policy: Policy, weights: Weights, es: seq<Event>)
    ensures var r := Run(Init(capacity, policy, weights), es);
      && (forall i, j :: 0 <= i < j < |r.granted| && r.granted[i].priority == r.granted[j].priority
            ==> r.granted[i].arrival < r.granted[j].arrival)
      && (forall g, w :: g in r.granted && w in r.waiting && g.priority == w.priority
            ==> g.arrival < w.arrival)
  {
    InitInv(capacity, policy, weights);
    RunKeepsInv(Init(capacity, policy, weights), es);
  }

  // ---------------------------------------------------------------- the cyclic schedule

  function Next(sch: seq<Priority>, c: nat): (r: nat)
    requires c < |sch|
    ensures r < |sch|
  {
    if c + 1 == |sch| then 0 else c + 1
  }

  /** The cursor after n slots of the endlessly repeated schedule. */
  function Jump(sch: seq<Priority>, c: nat, n: nat): (r: nat)
    requires c < |sch|
    ensures r < |sch|
    decreases n
  {
    if n == 0 then c else Jump(sch, Next(sch, c), n - 1)
  }

  /** How many of the n slots from cursor c on belong to class p. */
  function SlotsOf(sch: seq<Priority>, p: Priority, c: nat, n: nat): (r: nat)
    requires c < |sch|
    ensures r <= n
    decreases n
  {
    if n == 0 then 0 else (if sch[c] == p then 1 else 0) + SlotsOf(sch, p, Next(sch, c), n - 1)
  }

  lemma {:induction false} SlotsSplit(sch: seq<Priority>, p: Priority, c: nat, a: nat, b: nat)
    requires c < |sch|
    ensures Jump(sch, c, a + b) == Jump(sch, Jump(sch, c, a), b)
    ensures SlotsOf(sch, p, c, a + b) == SlotsOf(sch, p, c, a) + SlotsOf(sch, p, Jump(sch, c, a), b)
    decreases a
  {
    if a > 0 {
      SlotsSplit(sch, p, Next(sch, c), a - 1, b);
      assert (a - 1) + b == a + b - 1;
    }
  }

  lemma {:induction false} SlotsInSlice(sch: seq<Priority>, p: Priority, c: nat, n: nat)
    requires c < |sch| && c + n <= |sch|
    ensures SlotsOf(sch, p, c, n) == multiset(sch[c..c + n])[p]
    ensures Jump(sch, c, n) == if c + n == |sch| then 0 else c + n
    decreases n
  {
    if n == 1 {
      assert sch[c..c + n] == [sch[c]];
      assert SlotsOf(sch, p, Next(sch, c), 0) == 0;
      assert Jump(sch, Next(sch, c), 0) == Next(sch, c);
    } else if n > 1 {
      SlotsInSlice(sch, p, c + 1, n - 1);
      assert sch[c..c + n] == [sch[c]] + sch[c + 1..c + n];
    }
  }

  /** A whole period, from wherever it starts, returns to its start and sees every slot once. */
  lemma SlotsOfPeriod(sch: seq<Priority>, p: Priority, c: nat)
    requires c < |sch|
    ensures SlotsOf(sch, p, c, |sch|) == multiset(sch)[p]
    ensures Jump(sch, c, |sch|) == c
  {
    var n := |sch| - c;
    SlotsInSlice(sch, p, c, n);
    SlotsInSlice(sch, p, 0, c);
    SlotsSplit(sch, p, c, n, c);
    SliceCounts(sch, p, c);
    assert c + n == |sch| && n + c == |sch|;
  }

  lemma SliceCounts(sch: seq<Priority>, p: Priority, c: nat)
    requires c <= |sch|
    ensures multiset(sch)[p] == multiset(sch[0..c])[p] + multiset(sch[c..|sch|])[p]
  {
    assert sch == sch[0..c] + sch[c..|sch|];
  }

  lemma OneMore(m: nat, x: nat)
    requires m > 0
    ensures m * x == x + (m - 1) * x && (m - 1) * x >= 0
  {
  }

  lemma {:induction false} SlotsOfPeriods(sch: seq<Priority>, p: Priority, c: nat, m: nat, n: nat)
    requires c < |sch| && n == m * |sch|
    ensures SlotsOf(sch, p, c, n) == m * multiset(sch)[p]
    decreases m
  {
    if m > 0 {
      OneMore(m, |sch|);
      OneMore(m, multiset(sch)[p]);
      SlotsOfPeriods(sch, p, c, m - 1, n - |sch|);
      SlotsSplit(sch, p, c, |sch|, n - |sch|);
      SlotsOfPeriod(sch, p, c);
    }
  }

  lemma {:induction false} Replicated(p: Priority, n: nat)
    ensures multiset(seq(n, _ => p)) == multiset{}[p := n]
  {
    if n > 0 {
      Replicated(p, n - 1);
      assert seq(n, _ => p) == seq(n - 1, _ => p) + [p];
    }
  }

  /** The schedule holds each class as often as its weight says. */
  lemma ScheduleCounts(w: Weights, p: Priority)
    requires w.Positive()
    ensures multiset(Schedule(w))[p] == w.Of(p)
  {
    Replicated(High, w.high);
    Replicated(Normal, w.normal);
    Replicated(Low, w.low);
    assert multiset(Schedule(w)) ==
      multiset(seq(w.high, _ => High)) + multiset(seq(w.normal, _ => Normal)) + multiset(seq(w.low, _ => Low));
  }

  // ---------------------------------------------------------------- what one pick costs

  /** No class with a waiter owns any of the n slots from cursor c on. */
  ghost predicate NoneWaiting(sch: seq<Priority>, ws: seq<Waiter>, c: nat, n: nat)
    requires c < |sch|
    decreases n
  {
    n == 0 || (FirstOf(ws, sch[c]) == |ws| && NoneWaiting(sch, ws, Next(sch, c), n - 1))
  }

  lemma {:induction false} NoneWaitingSkipsClass(sch: seq<Priority>, ws: seq<Waiter>, c: nat, n: nat, p: Priority)
    requires c < |sch| && NoneWaiting(sch, ws, c, n) && FirstOf(ws, p) < |ws|
    ensures SlotsOf(sch, p, c, n) == 0
    decreases n
  {
    if n > 0 {
      NoneWaitingSkipsClass(sch, ws, Next(sch, c), n - 1, p);
    }
  }

  /** The scan passes d slots nobody waits for, stops on the slot of a class that waits, and takes
      the first waiter of that class. */
  ghost predicate ScanStops(sch: seq<Priority>, ws: seq<Waiter>, c: nat, d: nat, r: (nat, nat))
    requires c < |sch|
  {
    && NoneWaiting(sch, ws, c, d)
    && r.0 == FirstOf(ws, sch[Jump(sch, c, d)]) < |ws|
    && r.1 == Jump(sch, c, d + 1)
  }

  lemma WrapIsModulo(sch: seq<Priority>, c: nat)
    requires c < |sch|
    ensures (c + 1) % |sch| == Next(sch, c)
  {
    if c + 1 == |sch| {
      assert |sch| % |sch| == 0;
    }
  }

  lemma {:induction false} ScanCost(sch: seq<Priority>, ws: seq<Waiter>, c: nat, tries: nat, m: nat) returns (d: nat)
    requires c < |sch| && ws != []
    requires tries + m < |sch| && FirstOf(ws, sch[Jump(sch, c, m)]) < |ws|
    ensures d <= m && ScanStops(sch, ws, c, d, Scan(sch, ws, c, tries))
    decreases m
  {
    WrapIsModulo(sch, c);
    if FirstOf(ws, sch[c]) < |ws| {
      d := 0;
      assert Jump(sch, c, 1) == Jump(sch, Next(sch, c), 0);
    } else {
      d := ScanCost(sch, ws, Next(sch, c), tries + 1, m - 1);
      d := d + 1;
    }
  }

  /** Every slot is less than a period away from every other. */
  lemma JumpTo(sch: seq<Priority>, c: nat, target: nat) returns (m: nat)
    requires c < |sch| && target < |sch|
    ensures m < |sch| && Jump(sch, c, m) == target
  {
    if c <= target {
      m := target - c;
      SlotsInSlice(sch, High, c, m);
    } else {
      m := |sch| - c + target;
      SlotsInSlice(sch, High, c, |sch| - c);
      SlotsInSlice(sch, High, 0, target);
      SlotsSplit(sch, High, c, |sch| - c, target);
    }
  }

  lemma EveryClassScheduled(w: Weights, p: Priority) returns (i: nat)
    ensures i < |Schedule(w)| && Schedule(w)[i] == p
  {
    var n := NormalizeWeights(w);
    i := match p case High => 0 case Normal => n.high case Low => n.high + n.normal;
  }

  /** Under weighted priority with a waiter present the scan always ends on a slot whose class
      waits: the fallback to the head of the list is never taken. */
  lemma PickScans(s: State) returns (d: nat)
    requires CursorOk(s) && s.waiting != [] && s.policy == WeightedPriority
    ensures d < |Schedule(s.weights)|
    ensures ScanStops(Schedule(s.weights), s.waiting, s.cursor, d, NextWaiter(s))
  {
    var i := EveryClassScheduled(s.weights, s.waiting[0].priority);
    var m := JumpTo(Schedule(s.weights), s.cursor, i);
    d := ScanCost(Schedule(s.weights), s.waiting, s.cursor, 0, m);
  }

  // ---------------------------------------------------------------- no starvation

  /** How many waiters of t's class arrived before t and still wait. */
  function Ahead(ws: seq<Waiter>, t: Waiter): nat {
    if ws == [] then 0 else Blocks(ws[0], t) + Ahead(ws[1..], t)
  }

  function Blocks(w: Waiter, t: Waiter): nat {
    if w.priority == t.priority && w.arrival < t.arrival then 1 else 0
  }

  lemma {:induction false} AheadConcat(a: seq<Waiter>, b: seq<Waiter>, t: Waiter)
    ensures Ahead(a + b, t) == Ahead(a, t) + Ahead(b, t)
  {
    if a == [] {
      assert a + b == b;
    } else {
      AheadConcat(a[1..], b, t);
      assert a + b == [a[0]] + (a[1..] + b);
    }
  }

  lemma AheadRemoveAt(ws: seq<Waiter>, i: nat, t: Waiter)
    requires i < |ws|
    ensures Ahead(ws, t) == Ahead(RemoveAt(ws, i), t) + Blocks(ws[i], t)
  {
    AheadConcat(ws[..i], ws[i + 1..], t);
    AheadConcat(ws[..i], ws[i..], t);
    assert ws == ws[..i] + ws[i..];
  }

  /** The slots a pick passes hold at most one of any waiting class: the one it stops on. */
  lemma PickCost(s: State, p: Priority) returns (d: nat)
    requires CursorOk(s) && s.waiting != [] && s.policy == WeightedPriority && FirstOf(s.waiting, p) < |s.waiting|
    ensures d >= 1 && Pick(s).cursor == Jump(Schedule(s.weights), s.cursor, d)
    ensures NextWaiter(s).0 == FirstOf(s.waiting, s.waiting[NextWaiter(s).0].priority)
    ensures SlotsOf(Schedule(s.weights), p, s.cursor, d) == if s.waiting[NextWaiter(s).0].priority == p then 1 else 0
  {
    var sch := Schedule(s.weights);
    var skipped := PickScans(s);
    d := skipped + 1;
    NoneWaitingSkipsClass(sch, s.waiting, s.cursor, skipped, p);
    SlotsSplit(sch, p, s.cursor, skipped, 1);
    assert SlotsOf(sch, p, Next(sch, Jump(sch, s.cursor, skipped)), 0) == 0;
  }

  /** Taking the first waiter of some class: either t itself, or one that counts as ahead of t just if it
   *  is of t's class. */
  lemma TakeFirst(ws: seq<Waiter>, i: nat, t: Waiter)
    requires Sorted(ws) && t in ws && i < |ws| && i == FirstOf(ws, ws[i].priority)
    ensures t == ws[i] <==> t !in RemoveAt(ws, i)
    ensures t != ws[i] ==> Ahead(RemoveAt(ws, i), t) + (if ws[i].priority == t.priority then 1 else 0) == Ahead(ws, t)
  {
    var j :| 0 <= j < |ws| && ws[j] == t;
    if i != j {
      AheadRemoveAt(ws, i, t);
      assert RemoveAt(ws, i)[if j < i then j else j - 1] == t;
    } else {
      forall k | 0 <= k < |ws| - 1 ensures RemoveAt(ws, i)[k] != t {
        assert RemoveAt(ws, i)[k] == ws[if k < i then k else k + 1];
      }
    }
  }

  /** One pick either grants t, or moves the cursor past slots that brought t that much closer. */
  lemma PickProgress(s: State, t: Waiter) returns (d: nat)
    requires Core(s) && s.policy == WeightedPriority && t in s.waiting
    ensures d >= 1 && Pick(s).cursor == Jump(Schedule(s.weights), s.cursor, d)
    ensures t !in Pick(s).waiting ==> Pick(s).granted == s.granted + [t]
    ensures t in Pick(s).waiting ==>
      Ahead(Pick(s).waiting, t) + SlotsOf(Schedule(s.weights), t.priority, s.cursor, d) == Ahead(s.waiting, t)
  {
    d := PickCost(s, t.priority);
    TakeFirst(s.waiting, NextWaiter(s).0, t);
  }

  /** While t waits: how many slots the cursor has passed since s0, and what they did for t. */
  ghost predicate Track(s0: State, t: Waiter, s: State, n: nat)
    requires CursorOk(s0)
  {
    && t in s.waiting && s.policy == WeightedPriority && s.weights == s0.weights
    && s.cursor == Jump(Schedule(s0.weights), s0.cursor, n)
    && |s0.granted| <= |s.granted| <= |s0.granted| + n
    && Ahead(s.waiting, t) + SlotsOf(Schedule(s0.weights), t.priority, s0.cursor, n) <= Ahead(s0.waiting, t)
  }

  /** ceil((k+1)/w) periods, for k waiters of t's class ahead of t and w the weight of that class. */
  function Bound(s: State, t: Waiter): (r: int)
    requires s.weights.Positive()
  {
    var w := s.weights.Of(t.priority);
    ((Ahead(s.waiting, t) + w) / w) * |Schedule(s.weights)|
  }

  lemma RoundUp(k: nat, w: int)
    requires w > 0
    ensures (k + w) / w >= 0 && ((k + w) / w) * w >= k + 1
  {
    var m := (k + w) / w;
    assert k + w == w * m + (k + w) % w;
  }

  lemma NatProduct(m: nat, t: nat)
    ensures m * t >= 0
  {
  }

  lemma TrackBound(s0: State, t: Waiter, s: State, n: nat)
    requires Configured(s0) && Track(s0, t, s, n)
    ensures |s.granted| - |s0.granted| < Bound(s0, t)
  {
    var sch, p, w := Schedule(s0.weights), t.priority, s0.weights.Of(t.priority);
    var m := (Ahead(s0.waiting, t) + w) / w;
    RoundUp(Ahead(s0.waiting, t), w);
    NatProduct(m, |sch|);
    var all: nat := m * |sch|;
    if n >= all {
      SlotsOfPeriods(sch, p, s0.cursor, m, all);
      ScheduleCounts(s0.weights, p);
      SlotsSplit(sch, p, s0.cursor, all, n - all);
    }
  }

  ghost predicate GrantedWithin(s: State, t: Waiter, from: nat, bound: int) {
    exists g :: from <= g < |s.granted| && g < from + bound && s.granted[g] == t
  }

  ghost predicate Served(s0: State, t: Waiter, s: State)
    requires s0.weights.Positive()
  {
    t in s.cancelled || GrantedWithin(s, t, |s0.granted|, Bound(s0, t))
  }

  lemma TrackPick(s0: State, t: Waiter, s: State, n: nat) returns (n': nat)
    requires Configured(s0) && Core(s) && Track(s0, t, s, n)
    ensures Track(s0, t, Pick(s), n') || Served(s0, t, Pick(s))
  {
    var d := PickProgress(s, t);
    n' := n + d;
    SlotsSplit(Schedule(s0.weights), t.priority, s0.cursor, n, d);
    TrackBound(s0, t, s, n);
    if t !in Pick(s).waiting {
      assert Pick(s).granted[|s.granted|] == t;
    }
  }

  lemma {:induction false} TrackDispatch(s0: State, t: Waiter, s: State, n: nat) returns (n': nat)
    requires Configured(s0) && Core(s) && Track(s0, t, s, n)
    ensures Track(s0, t, Dispatch(s), n') || Served(s0, t, Dispatch(s))
    decreases |s.waiting|
  {
    n' := n;
    if CanPick(s) {
      PickKeepsCore(s);
      n' := TrackPick(s0, t, s, n);
      if t in Pick(s).waiting && Track(s0, t, Pick(s), n') {
        n' := TrackDispatch(s0, t, Pick(s), n');
      } else {
        DispatchExtends(Pick(s));
      }
    }
  }

  ghost predicate KeepsWeights(e: Event, w: Weights) {
    e.ConfigureEvent? ==> e.policy == WeightedPriority && NormalizeWeights(e.weights) == w
  }

  lemma TrackAcquire(s0: State, t: Waiter, s: State, n: nat, p: Priority)
    requires CursorOk(s0) && Below(s.waiting, |s.log|) && Track(s0, t, s, n)
    ensures Track(s0, t, Acquire(s, p), n)
  {
    var w := Waiter(|s.log|, p);
    AheadConcat(s.waiting, [w], t);
    assert Ahead([w], t) == Blocks(w, t) + Ahead([], t);
  }

  lemma TrackCancel(s0: State, t: Waiter, s: State, n: nat, a: nat)
    requires Configured(s0) && Track(s0, t, s, n)
    ensures Track(s0, t, Cancel(s, a), n) || t in Cancel(s, a).cancelled
  {
    var i := IndexOf(s.waiting, a);
    if i < |s.waiting| {
      AheadRemoveAt(s.waiting, i, t);
      var j :| 0 <= j < |s.waiting| && s.waiting[j] == t;
      assert j != i ==> RemoveAt(s.waiting, i)[if j < i then j else j - 1] == t;
    }
  }

  lemma TrackStep(s0: State, t: Waiter, s: State, n: nat, e: Event) returns (n': nat)
    requires Configured(s0) && Inv(s) && Track(s0, t, s, n) && KeepsWeights(e, s0.weights)
    ensures Track(s0, t, Step(s, e), n') || Served(s0, t, Step(s, e))
  {
    n' := n;
    BeforeDispatchKeepsCore(s, e);
    match e {
      case AcquireEvent(p) => TrackAcquire(s0, t, s, n, p);
      case CancelEvent(a) => TrackCancel(s0, t, s, n, a);
      case _ => n' := TrackDispatch(s0, t, BeforeDispatch(s, e), n);
    }
  }

  lemma {:induction false} TrackRun(s0: State, t: Waiter, s: State, n: nat, es: seq<Event>) returns (n': nat)
    requires Configured(s0) && Inv(s) && Track(s0, t, s, n)
    requires forall e :: e in es ==> KeepsWeights(e, s0.weights)
    ensures Track(s0, t, Run(s, es), n') || Served(s0, t, Run(s, es))
    decreases |es|
  {
    n' := n;
    if es != [] {
      n' := TrackStep(s0, t, s, n, es[0]);
      StepKeepsInv(s, es[0]);
      if Track(s0, t, Step(s, es[0]), n') {
        n' := TrackRun(s0, t, Step(s, es[0]), n', es[1..]);
      } else {
        RunExtends(Step(s, es[0]), es[1..]);
      }
    }
  }

  /** No starvation: with weighted priority and fixed weights, a waiter with k waiters of its class
      ahead is granted among the next ceil((k+1)/w)*T grants, or cancelled, or fewer grants than
      that have happened; whatever else arrives, is cancelled, or happens to the capacity. */
  lemma NoStarvation(s: State, t: Waiter, es: seq<Event>)
    requires Inv(s) && s.policy == WeightedPriority && t in s.waiting
    requires forall e :: e in es ==> KeepsWeights(e, s.weights)
    ensures var r := Run(s, es);
      || t in r.cancelled
      || GrantedWithin(r, t, |s.granted|, Bound(s, t))
      || (t in r.waiting && |r.granted| - |s.granted| < Bound(s, t))
  {
    assert Track(s, t, s, 0) by {
      assert Jump(Schedule(s.weights), s.cursor, 0) == s.cursor;
      assert SlotsOf(Schedule(s.weights), t.priority, s.cursor, 0) == 0;
    }
    var n := TrackRun(s, t, s, 0, es);
    if Track(s, t, Run(s, es), n) {
      TrackBound(s, t, Run(s, es), n);
    }
  }

  // ---------------------------------------------------------------- exact proportional share

  ghost predicate AllClassesWait(s: State) {
    forall p :: FirstOf(s.waiting, p) < |s.waiting|
  }

  /** Every pick of this dispatch finds waiters of all three classes. */
  ghost predicate BusyDispatch(s: State)
    requires CursorOk(s)
    decreases |s.waiting|
  {
    CanPick(s) ==> AllClassesWait(s) && BusyDispatch(Pick(s))
  }

  ghost predicate BusyRun(s: State, es: seq<Event>)
    requires CursorOk(s)
    decreases |es|
  {
    && s.waiting != []
    && (es != [] ==>
          && (Dispatches(es[0]) ==> BusyDispatch(BeforeDispatch(s, es[0])))
          && BusyRun(Step(s, es[0]), es[1..]))
  }

  /** The classes of the grants since `from` are the schedule, slot by slot, from cursor c on. */
  ghost predicate FollowsSchedule(granted: seq<Waiter>, from: nat, sch: seq<Priority>, c: nat)
    requires c < |sch| && from <= |granted|
  {
    forall i {:trigger granted[i]} :: from <= i < |granted| ==> granted[i].priority == sch[Jump(sch, c, i - from)]
  }

  ghost predicate InStep(s0: State, s: State)
    requires CursorOk(s0)
  {
    && |s0.granted| <= |s.granted| && s.policy == WeightedPriority && s.weights == s0.weights
    && s.cursor == Jump(Schedule(s0.weights), s0.cursor, |s.granted| - |s0.granted|)
    && FollowsSchedule(s.granted, |s0.granted|, Schedule(s0.weights), s0.cursor)
  }

  lemma InStepPick(s0: State, s: State)
    requires CursorOk(s0) && CursorOk(s) && s.waiting != [] && AllClassesWait(s) && InStep(s0, s)
    ensures InStep(s0, Pick(s))
  {
    var sch := Schedule(s0.weights);
    var n := |s.granted| - |s0.granted|;
    var d := PickScans(s);
    assert FirstOf(s.waiting, sch[s.cursor]) < |s.waiting|;
    assert d == 0;
    SlotsSplit(sch, High, s0.cursor, n, 1);
  }

  lemma {:induction false} InStepDispatch(s0: State, s: State)
    requires CursorOk(s0) && CursorOk(s) && BusyDispatch(s) && InStep(s0, s)
    ensures InStep(s0, Dispatch(s))
    decreases |s.waiting|
  {
    if CanPick(s) {
      InStepPick(s0, s);
      InStepDispatch(s0, Pick(s));
    }
  }

  lemma InStepBeforeDispatch(s0: State, s: State, e: Event)
    requires CursorOk(s0) && Inv(s) && s.waiting != [] && InStep(s0, s) && KeepsWeights(e, s0.weights)
    ensures InStep(s0, BeforeDispatch(s, e))
  {
  }

  lemma InStepStep(s0: State, s: State, e: Event)
    requires CursorOk(s0) && Inv(s) && s.waiting != [] && InStep(s0, s) && KeepsWeights(e, s0.weights)
    requires Dispatches(e) ==> BusyDispatch(BeforeDispatch(s, e))
    ensures InStep(s0, Step(s, e))
  {
    InStepBeforeDispatch(s0, s, e);
    if Dispatches(e) {
      InStepDispatch(s0, BeforeDispatch(s, e));
    }
  }

  lemma {:induction false} InStepRun(s0: State, s: State, es: seq<Event>)
    requires CursorOk(s0) && Inv(s) && BusyRun(s, es) && InStep(s0, s)
    requires forall e :: e in es ==> KeepsWeights(e, s0.weights)
    ensures InStep(s0, Run(s, es))
    decreases |es|
  {
    if es != [] {
      InStepStep(s0, s, es[0]);
      StepKeepsInv(s, es[0]);
      InStepRun(s0, Step(s, es[0]), es[1..]);
    }
  }

  function ClassCount(ws: seq<Waiter>, p: Priority): nat {
    if ws == [] then 0 else (if ws[0].priority == p then 1 else 0) + ClassCount(ws[1..], p)
  }

  lemma {:induction false} ClassCountFollows(granted: seq<Waiter>, from: nat, sch: seq<Priority>, c: nat, p: Priority)
    requires c < |sch| && from <= |granted| && FollowsSchedule(granted, from, sch, c)
    ensures ClassCount(granted[from..], p) == SlotsOf(sch, p, c, |granted| - from)
    decreases |granted| - from
  {
    if from < |granted| {
      assert granted[from].priority == sch[Jump(sch, c, 0)];
      assert FollowsSchedule(granted, from + 1, sch, Next(sch, c)) by {
        forall i {:trigger granted[i]} | from + 1 <= i < |granted|
          ensures granted[i].priority == sch[Jump(sch, Next(sch, c), i - (from + 1))]
        {
          assert Jump(sch, c, i - from) == Jump(sch, Next(sch, c), i - from - 1);
        }
      }
      ClassCountFollows(granted, from + 1, sch, Next(sch, c), p);
      assert granted[from..][1..] == granted[from + 1..];
    }
  }

  lemma FollowsFromLater(granted: seq<Waiter>, from: nat, sch: seq<Priority>, c: nat, a: nat, b: nat)
    requires c < |sch| && from <= a <= b <= |granted| && FollowsSchedule(granted, from, sch, c)
    ensures FollowsSchedule(granted[..b], a, sch, Jump(sch, c, a - from))
  {
    var window := granted[..b];
    forall i {:trigger window[i]} | a <= i < b
      ensures window[i].priority == sch[Jump(sch, Jump(sch, c, a - from), i - a)]
    {
      assert window[i] == granted[i];
      SlotsSplit(sch, High, c, a - from, i - a);
      assert (a - from) + (i - a) == i - from;
    }
  }

  lemma WindowShare(granted: seq<Waiter>, from: nat, sch: seq<Priority>, c: nat, a: nat, p: Priority)
    requires c < |sch| && from <= a && a + |sch| <= |granted| && FollowsSchedule(granted, from, sch, c)
    ensures ClassCount(granted[a..a + |sch|], p) == multiset(sch)[p]
  {
    var b, at := a + |sch|, Jump(sch, c, a - from);
    FollowsFromLater(granted, from, sch, c, a, b);
    ClassCountFollows(granted[..b], a, sch, at, p);
    SlotsOfPeriod(sch, p, at);
    assert granted[..b][a..] == granted[a..b];
  }

  /** Exact proportional share: while every class keeps waiters and the weights stay, any
      consecutive T grants serve each class exactly as often as its weight says. */
  lemma ProportionalShare(s: State, es: seq<Event>, a: nat, p: Priority)
    requires Inv(s) && s.policy == WeightedPriority && BusyRun(s, es)
    requires forall e :: e in es ==> KeepsWeights(e, s.weights)
    requires |s.granted| <= a && a + |Schedule(s.weights)| <= |Run(s, es).granted|
    ensures ClassCount(Run(s, es).granted[a..a + |Schedule(s.weights)|], p) == s.weights.Of(p)
  {
    assert InStep(s, s) by {
      assert Jump(Schedule(s.weights), s.cursor, 0) == s.cursor;
    }
    InStepRun(s, s, es);
    WindowShare(Run(s, es).granted, |s.granted|, Schedule(s.weights), s.cursor, a, p);
    ScheduleCounts(s.weights, p);
  }

  // ---------------------------------------------------------------- the fifo policy

  ghost predicate PrecedeAll(earlier: seq<Waiter>, later: seq<Waiter>) {
    forall i, j :: 0 <= i < |earlier| && 0 <= j < |later| ==> earlier[i].arrival < later[j].arrival
  }

  ghost predicate FifoSince(s: State, from: nat) {
    from <= |s.granted| && s.policy == Fifo && Sorted(s.granted[from..]) && PrecedeAll(s.granted[from..], s.waiting)
  }

  lemma FifoPick(s: State, from: nat)
    requires Core(s) && s.waiting != [] && FifoSince(s, from)
    ensures FifoSince(Pick(s), from)
  {
    RemoveAtKeepsOrder([], s.waiting, |s.log|, 0);
    assert Pick(s).granted[from..] == s.granted[from..] + [s.waiting[0]];
  }

  lemma {:induction false} FifoDispatch(s: State, from: nat)
    requires Core(s) && FifoSince(s, from)
    ensures FifoSince(Dispatch(s), from)
    decreases |s.waiting|
  {
    if CanPick(s) {
      FifoPick(s, from);
      PickKeepsCore(s);
      FifoDispatch(Pick(s), from);
    }
  }

  lemma FifoBeforeDispatch(s: State, from: nat, e: Event)
    requires Inv(s) && FifoSince(s, from) && (e.ConfigureEvent? ==> e.policy == Fifo)
    ensures FifoSince(BeforeDispatch(s, e), from)
  {
    match e {
      case AcquireEvent(p) =>
        var r := Acquire(s, p);
        if s.active < s.capacity && s.waiting == [] {
          assert r.granted[from..] == s.granted[from..] + [Waiter(|s.log|, p)];
        }
      case CancelEvent(a) =>
        var i := IndexOf(s.waiting, a);
        if i < |s.waiting| {
          RemoveAtKeepsOrder([], s.waiting, |s.log|, i);
        }
      case _ =>
    }
  }

  /** Under fifo, the classes do not matter: grants follow arrival order across all of them. */
  lemma {:induction false} FifoOrder(s: State, from: nat, es: seq<Event>)
    requires Inv(s) && FifoSince(s, from)
    requires forall e :: e in es && e.ConfigureEvent? ==> e.policy == Fifo
    ensures FifoSince(Run(s, es), from)
    decreases |es|
  {
    if es != [] {
      FifoBeforeDispatch(s, from, es[0]);
      BeforeDispatchKeepsCore(s, es[0]);
      if Dispatches(es[0]) {
        FifoDispatch(BeforeDispatch(s, es[0]), from);
      }
      StepKeepsInv(s, es[0]);
      FifoOrder(Step(s, es[0]), from, es[1..]);
    }
  }
}
