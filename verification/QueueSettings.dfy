// What the scheduler owes to the numbers it was configured with and to the requests as they were made: the
// settings in force are the last ones passed, every request is logged with its class, and a free slot is given
// at once.
module QueueSettings {
  import opened Common
  import opened QueueSpec
  import opened QueueFairness

  // ---------------------------------------------------------------- settings in force

  /** Settings as a caller passes them. */
  datatype Settings = Settings(capacity: int, policy: Policy, weights: Weights)

  /** The last settings passed in a run that started with the first ones. */
  function LastSettings(first: Settings, es: seq<Event>): Settings
    decreases |es|
  {
    if es == [] then first else LastSettings(NewSettings(first, es[0]), es[1..])
  }

  function NewSettings(c: Settings, e: Event): Settings {
    if e.ConfigureEvent? then Settings(e.capacity, e.policy, e.weights) else c
  }

  /** Number of slots these settings ask for. */
  function Slots(c: Settings): int { if c.capacity > 0 then c.capacity else 1 }

  /** The state works by these settings: what is positive counts as it was passed; otherwise there is one slot, and
   *  the weights are three, two and one. */
  ghost predicate InForce(s: State, c: Settings) {
    && s.policy == c.policy && s.capacity == Slots(c)
    && s.weights.high == (if c.weights.high > 0 then c.weights.high else 3)
    && s.weights.normal == (if c.weights.normal > 0 then c.weights.normal else 2)
    && s.weights.low == (if c.weights.low > 0 then c.weights.low else 1)
  }

  /** New settings are in force at once, whatever the state was. */
  lemma ConfiguredInForce(s: State, c: Settings)
    requires CursorOk(s)
    ensures InForce(Step(s, ConfigureEvent(c.capacity, c.policy, c.weights)), c)
  {
    var next := BeforeDispatch(s, ConfigureEvent(c.capacity, c.policy, c.weights));
    DispatchExtends(next);
    DispatchRespectsCapacity(next);
  }

  lemma StepInForce(s: State, e: Event, c: Settings)
    requires CursorOk(s) && InForce(s, c)
    ensures InForce(Step(s, e), NewSettings(c, e))
  {
    if e.ConfigureEvent? {
      ConfiguredInForce(s, NewSettings(c, e));
    } else if e.ReleaseEvent? {
      DispatchExtends(FreeSlot(s));
      DispatchRespectsCapacity(FreeSlot(s));
    }
  }

  lemma {:induction false} RunInForce(s: State, es: seq<Event>, c: Settings)
    requires CursorOk(s) && InForce(s, c)
    ensures InForce(Run(s, es), LastSettings(c, es))
    decreases |es|
  {
    if es != [] {
      StepInForce(s, es[0], c);
      RunInForce(Step(s, es[0]), es[1..], NewSettings(c, es[0]));
    }
  }

  /** Over every run the settings in force are the last ones that were passed. */
  lemma SettingsInForce(first: Settings, es: seq<Event>)
    ensures InForce(Run(Init(first.capacity, first.policy, first.weights), es), LastSettings(first, es))
  {
    RunInForce(Init(first.capacity, first.policy, first.weights), es, first);
  }

  // ---------------------------------------------------------------- requests as they were made

  /** The requests of a run, numbered from n on in the order they come. */
  function Arrivals(n: nat, es: seq<Event>): seq<Waiter>
    decreases |es|
  {
    if es == [] then []
    else if es[0].AcquireEvent? then [Waiter(n, es[0].priority)] + Arrivals(n + 1, es[1..])
    else Arrivals(n, es[1..])
  }

  lemma {:induction false} RunLogs(s: State, es: seq<Event>)
    requires CursorOk(s)
    ensures Run(s, es).log == s.log + Arrivals(|s.log|, es)
    decreases |es|
  {
    if es != [] {
      var e, rest := es[0], Arrivals(|Step(s, es[0]).log|, es[1..]);
      if Dispatches(e) { DispatchExtends(BeforeDispatch(s, e)); }
      RunLogs(Step(s, e), es[1..]);
      if e.AcquireEvent? { Regroup(s.log, [Waiter(|s.log|, e.priority)], rest); }
    }
  }

  /** The log is exactly the requests that were made, each with its class, in order. */
  lemma LogIsArrivals(first: Settings, es: seq<Event>)
    ensures Run(Init(first.capacity, first.policy, first.weights), es).log == Arrivals(0, es)
  {
    RunLogs(Init(first.capacity, first.policy, first.weights), es);
    assert [] + Arrivals(0, es) == Arrivals(0, es);
  }

  // ---------------------------------------------------------------- what one call does

  /** While fewer slots are used than were last asked for, nobody waits and the next request is granted at once;
   *  otherwise it queues up behind everybody else. Used slots are the grants not given back. */
  lemma FreeSlotIsGiven(first: Settings, es: seq<Event>, p: Priority)
    requires Matched(Init(first.capacity, first.policy, first.weights), es)
    ensures var s := Run(Init(first.capacity, first.policy, first.weights), es);
      var r, w := Step(s, AcquireEvent(p)), Waiter(|Arrivals(0, es)|, p);
      if |s.granted| - Releases(es) < Slots(LastSettings(first, es))
      then s.waiting == [] && r.waiting == [] && r.granted == s.granted + [w]
      else r.waiting == s.waiting + [w] && r.granted == s.granted
  {
    SlotConservation(first.capacity, first.policy, first.weights, es);
    SettingsInForce(first, es);
    LogIsArrivals(first, es);
  }

  /** A request that ends while it waits leaves the list, and nothing else changes; any other one changes nothing. */
  lemma CancelTakesOne(s: State, arrival: nat, i: nat)
    requires Inv(s)
    ensures i < |s.waiting| && s.waiting[i].arrival == arrival ==>
      Step(s, CancelEvent(arrival))
        == s.(waiting := s.waiting[..i] + s.waiting[i + 1..], cancelled := s.cancelled + [s.waiting[i]])
    ensures (forall w :: w in s.waiting ==> w.arrival != arrival) ==> Step(s, CancelEvent(arrival)) == s
  {
    var k := IndexOf(s.waiting, arrival);
    if i < |s.waiting| && s.waiting[i].arrival == arrival {
      assert k == i by { assert Sorted(s.waiting); }
    }
    if k < |s.waiting| { assert s.waiting[k] in s.waiting; }
  }

  /** Giving back a slot nobody holds changes nothing. */
  lemma SpareReleaseIsHarmless(s: State)
    requires Inv(s) && s.active == 0
    ensures Step(s, ReleaseEvent) == s
  {
  }

  /** New settings leave the cursor where it is if the new schedule reaches that far, else back at its start. */
  lemma CursorSurvives(s: State, c: Settings)
    requires CursorOk(s) && s.waiting == []
    ensures var r := Step(s, ConfigureEvent(c.capacity, c.policy, c.weights));
      r.cursor == if s.cursor < r.weights.high + r.weights.normal + r.weights.low then s.cursor else 0
  {
  }

  // ---------------------------------------------------------------- the order of classes

  lemma {:induction false} JumpPeriods(sch: seq<Priority>, c: nat, m: nat, n: nat)
    requires c < |sch| && n == m * |sch|
    ensures Jump(sch, c, n) == c
    decreases m
  {
    if m > 0 {
      OneMore(m, |sch|);
      JumpPeriods(sch, c, m - 1, n - |sch|);
      SlotsSplit(sch, High, c, |sch|, n - |sch|);
      SlotsOfPeriod(sch, High, c);
    }
  }

  lemma {:induction false} CursorStaysAtStart(s: State, es: seq<Event>)
    requires CursorOk(s) && s.cursor == 0 && forall e :: e in es ==> !Dispatches(e)
    ensures Run(s, es).cursor == 0
    decreases |es|
  {
    if es != [] { CursorStaysAtStart(Step(s, es[0]), es[1..]); }
  }

  /** Place k of a period: the high class first, then the normal one, then the low one. */
  function Turn(w: Weights, k: nat): Priority {
    if k < w.high then High else if k < w.high + w.normal then Normal else Low
  }

  lemma SlotIsTurn(w: Weights, k: nat)
    requires w.Positive() && k < w.high + w.normal + w.low
    ensures |Schedule(w)| == w.high + w.normal + w.low && Schedule(w)[k] == Turn(w, k)
  {
  }

  lemma JumpInto(sch: seq<Priority>, n: nat, m: nat, k: nat)
    requires k < |sch| && n == m * |sch| + k
    ensures Jump(sch, 0, n) == k
  {
    NatProduct(m, |sch|);
    SlotsSplit(sch, High, 0, n - k, k);
    JumpPeriods(sch, 0, m, n - k);
    SlotsInSlice(sch, High, 0, k);
  }

  lemma TurnAt(w: Weights, n: nat, m: nat, k: nat)
    requires w.Positive() && k < w.high + w.normal + w.low && n == m * (w.high + w.normal + w.low) + k
    ensures Schedule(w)[Jump(Schedule(w), 0, n)] == Turn(w, k)
  {
    SlotIsTurn(w, k);
    JumpInto(Schedule(w), n, m, k);
  }

  lemma {:induction false} BusyGrant(s: State, es: seq<Event>, i: nat)
    requires Inv(s) && s.policy == WeightedPriority && BusyRun(s, es)
    requires (forall e :: e in es ==> KeepsWeights(e, s.weights)) && |s.granted| + i < |Run(s, es).granted|
    ensures var sch := Schedule(s.weights);
      Run(s, es).granted[|s.granted| + i].priority == sch[Jump(sch, s.cursor, i)]
  {
    assert InStep(s, s) by { assert Jump(Schedule(s.weights), s.cursor, 0) == s.cursor; }
    InStepRun(s, s, es);
    assert (|s.granted| + i) - |s.granted| == i;
  }

  /** From the first dispatch on, while every class keeps waiters: each period serves its share of the high class,
   *  then that of the normal class, then that of the low class. */
  lemma ServedInTurn(first: Settings, before: seq<Event>, es: seq<Event>, i: nat, m: nat, k: nat)
    requires first.policy == WeightedPriority && forall e :: e in before ==> !Dispatches(e)
    requires var s := Run(Init(first.capacity, first.policy, first.weights), before);
      && BusyRun(s, es) && (forall e :: e in es ==> KeepsWeights(e, s.weights))
      && |s.granted| + i < |Run(s, es).granted|
      && i == m * (s.weights.high + s.weights.normal + s.weights.low) + k
      && k < s.weights.high + s.weights.normal + s.weights.low
    ensures var s := Run(Init(first.capacity, first.policy, first.weights), before);
      Run(s, es).granted[|s.granted| + i].priority == Turn(s.weights, k)
  {
    var s0 := Init(first.capacity, first.policy, first.weights);
    var s := Run(s0, before);
    InitInv(first.capacity, first.policy, first.weights);
    RunKeepsInv(s0, before);
    CursorStaysAtStart(s0, before);
    RunInForce(s0, before, first);
    NoNewSettings(first, before);
    BusyGrant(s, es, i);
    TurnAt(s.weights, i, m, k);
  }

  lemma {:induction false} NoNewSettings(c: Settings, es: seq<Event>)
    requires forall e :: e in es ==> !Dispatches(e)
    ensures LastSettings(c, es) == c
    decreases |es|
  {
    if es != [] {
      assert !Dispatches(es[0]);
      NoNewSettings(c, es[1..]);
    }
  }
}
