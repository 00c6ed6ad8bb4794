// The weighted queue scheduler of internal/httpapi/queue.go as a state machine over values.
//
// Every lock-protected section of the scheduler is one step. `State` holds the fields the lock
// protects and, beside them, the history that properties of whole runs speak about: every arrival
// in order, every grant in order, every cancellation, and how many slots were given back.
module QueueSpec {
  import opened Common

  datatype Priority = High | Normal | Low

  datatype Policy = WeightedPriority | Fifo

  datatype Weights = Weights(high: int, normal: int, low: int) {
    function Of(p: Priority): int {
      match p
      case High => high
      case Normal => normal
      case Low => low
    }

    predicate Positive() { high > 0 && normal > 0 && low > 0 }
  }

  /** A request that asked for a slot. `arrival` numbers the requests in the order they took the lock. */
  datatype Waiter = Waiter(arrival: nat, priority: Priority)

  datatype State = State(
    capacity: int, active: int, policy: Policy, weights: Weights, cursor: nat, waiting: seq<Waiter>,
    log: seq<Waiter>, granted: seq<Waiter>, cancelled: seq<Waiter>, released: nat)

  // ---------------------------------------------------------------- configuration

  function NormalizeCapacity(capacity: int): (r: int)
    ensures r >= 1
  {
    if capacity <= 0 then 1 else capacity
  }

  function NormalizeWeights(w: Weights): (r: Weights)
    ensures r.Positive() && (w.Positive() ==> r == w)
  {
    Weights(if w.high <= 0 then 3 else w.high,
            if w.normal <= 0 then 2 else w.normal,
            if w.low <= 0 then 1 else w.low)
  }

  function Schedule(w: Weights): (r: seq<Priority>)
    ensures |r| >= 3
  {
    var n := NormalizeWeights(w);
    seq(n.high, _ => High) + seq(n.normal, _ => Normal) + seq(n.low, _ => Low)
  }

  // ---------------------------------------------------------------- choosing a waiter

  /** Position of the first waiter of class p, or |ws| when there is none. */
  function FirstOf(ws: seq<Waiter>, p: Priority): (r: nat)
    ensures r <= |ws|
    ensures r < |ws| ==> ws[r].priority == p
    ensures forall i :: 0 <= i < r ==> ws[i].priority != p
  {
    if ws == [] || ws[0].priority == p then 0 else 1 + FirstOf(ws[1..], p)
  }

  /** Position of the waiter with this arrival number, or |ws| when it no longer waits. */
  function IndexOf(ws: seq<Waiter>, arrival: nat): (r: nat)
    ensures r <= |ws|
    ensures r < |ws| ==> ws[r].arrival == arrival
    ensures forall i :: 0 <= i < r ==> ws[i].arrival != arrival
  {
    if ws == [] || ws[0].arrival == arrival then 0 else 1 + IndexOf(ws[1..], arrival)
  }

  /** The cyclic scan: from `cursor`, the first schedule slot whose class has a waiter. */
  function Scan(schedule: seq<Priority>, ws: seq<Waiter>, cursor: nat, tries: nat): (r: (nat, nat))
    requires ws != [] && tries <= |schedule| && cursor < |schedule|
    ensures r.0 < |ws| && r.1 < |schedule|
    ensures forall j :: 0 <= j < r.0 ==> ws[j].priority != ws[r.0].priority
    decreases |schedule| - tries
  {
    if tries == |schedule| then (0, cursor)
    else
      var first := FirstOf(ws, schedule[cursor]);
      var next := (cursor + 1) % |schedule|;
      if first < |ws| then (first, next) else Scan(schedule, ws, next, tries + 1)
  }

  predicate CursorOk(s: State) { s.cursor < |Schedule(s.weights)| }

  function NextWaiter(s: State): (r: (nat, nat))
    requires s.waiting != [] && CursorOk(s)
    ensures r.0 < |s.waiting| && r.1 < |Schedule(s.weights)|
    ensures forall j :: 0 <= j < r.0 ==> s.waiting[j].priority != s.waiting[r.0].priority
  {
    if s.policy == Fifo then (0, s.cursor) else Scan(Schedule(s.weights), s.waiting, s.cursor, 0)
  }

  // ---------------------------------------------------------------- steps

  predicate CanPick(s: State) { s.active < s.capacity && s.waiting != [] }

  /** One iteration of the dispatch loop: grant one waiter. */
  function Pick(s: State): (r: State)
    requires CursorOk(s) && s.waiting != []
    ensures CursorOk(r) && |r.waiting| == |s.waiting| - 1
  {
    var (i, cursor) := NextWaiter(s);
    s.(waiting := RemoveAt(s.waiting, i), cursor := cursor, active := s.active + 1,
       granted := s.granted + [s.waiting[i]])
  }

  function Dispatch(s: State): (r: State)
    requires CursorOk(s)
    ensures CursorOk(r) && !CanPick(r)
    decreases |s.waiting|
  {
    if CanPick(s) then Dispatch(Pick(s)) else s
  }

  function Init(capacity: int, policy: Policy, weights: Weights): (r: State)
    ensures CursorOk(r)
  {
    State(NormalizeCapacity(capacity), 0, policy, NormalizeWeights(weights), 0, [], [], [], [], 0)
  }

  function Acquire(s: State, p: Priority): State {
    var w := Waiter(|s.log|, p);
    if s.active < s.capacity && s.waiting == []
    then s.(active := s.active + 1, log := s.log + [w], granted := s.granted + [w])
    else s.(waiting := s.waiting + [w], log := s.log + [w])
  }

  /** The context of request `arrival` ends: only a request that still waits is cancelled. */
  function Cancel(s: State, arrival: nat): State {
    var i := IndexOf(s.waiting, arrival);
    if i < |s.waiting|
    then s.(waiting := RemoveAt(s.waiting, i), cancelled := s.cancelled + [s.waiting[i]])
    else s
  }

  /** A slot comes back; giving back a slot nobody holds changes nothing but may dispatch. */
  function FreeSlot(s: State): State {
    if s.active > 0 then s.(active := s.active - 1, released := s.released + 1) else s
  }

  function Reconfigure(s: State, capacity: int, policy: Policy, weights: Weights): (r: State)
    ensures CursorOk(r)
  {
    var w := NormalizeWeights(weights);
    s.(capacity := NormalizeCapacity(capacity), policy := policy, weights := w,
       cursor := if s.cursor >= |Schedule(w)| then 0 else s.cursor)
  }

  datatype Event =
    | AcquireEvent(priority: Priority)
    | CancelEvent(arrival: nat)
    | ReleaseEvent
    | ConfigureEvent(capacity: int, policy: Policy, weights: Weights)

  /** The state in which the dispatch loop of this event, if it has one, starts. */
  function BeforeDispatch(s: State, e: Event): (r: State)
    requires CursorOk(s)
    ensures CursorOk(r)
  {
    match e
    case AcquireEvent(p) => Acquire(s, p)
    case CancelEvent(a) => Cancel(s, a)
    case ReleaseEvent => FreeSlot(s)
    case ConfigureEvent(c, policy, w) => Reconfigure(s, c, policy, w)
  }

  predicate Dispatches(e: Event) { e.ReleaseEvent? || e.ConfigureEvent? }

  function Step(s: State, e: Event): (r: State)
    requires CursorOk(s)
    ensures CursorOk(r)
  {
    if Dispatches(e) then Dispatch(BeforeDispatch(s, e)) else BeforeDispatch(s, e)
  }

  function Run(s: State, es: seq<Event>): (r: State)
    requires CursorOk(s)
    ensures CursorOk(r)
    decreases |es|
  {
    if es == [] then s else Run(Step(s, es[0]), es[1..])
  }

  // ---------------------------------------------------------------- the invariant

  ghost predicate Configured(s: State) {
    s.capacity >= 1 && s.active >= 0 && s.weights.Positive() && CursorOk(s)
  }

  /** Every arrival is granted once, cancelled once, or still waiting, and never two of these. */
  ghost predicate Accounted(s: State) {
    && (forall i :: 0 <= i < |s.log| ==> s.log[i].arrival == i)
    && multiset(s.granted) + multiset(s.cancelled) + multiset(s.waiting) == multiset(s.log)
  }

  ghost predicate Sorted(ws: seq<Waiter>) {
    forall i, j :: 0 <= i < j < |ws| ==> ws[i].arrival < ws[j].arrival
  }

  ghost predicate SortedByClass(ws: seq<Waiter>) {
    forall i, j :: 0 <= i < j < |ws| && ws[i].priority == ws[j].priority ==> ws[i].arrival < ws[j].arrival
  }

  ghost predicate PrecedeByClass(earlier: seq<Waiter>, later: seq<Waiter>) {
    forall i, j :: 0 <= i < |earlier| && 0 <= j < |later| && earlier[i].priority == later[j].priority
      ==> earlier[i].arrival < later[j].arrival
  }

  ghost predicate Below(ws: seq<Waiter>, n: nat) {
    forall i :: 0 <= i < |ws| ==> ws[i].arrival < n
  }

  /** Waiters of one class were and will be granted in the order they arrived. */
  ghost predicate Ordered(s: State) {
    && Sorted(s.waiting)
    && SortedByClass(s.granted)
    && PrecedeByClass(s.granted, s.waiting)
    && Below(s.waiting, |s.log|) && Below(s.granted, |s.log|)
  }

  /** Slots in use are exactly the grants not yet given back. */
  ghost predicate SlotsConserved(s: State) { s.active + s.released == |s.granted| }

  ghost predicate Core(s: State) {
    Configured(s) && Accounted(s) && Ordered(s) && SlotsConserved(s)
  }

  /** What holds whenever the lock is free: nobody waits while a slot is free. */
  ghost predicate Inv(s: State) { Core(s) && !CanPick(s) }

  lemma InitInv(capacity: int, policy: Policy, weights: Weights)
    ensures Inv(Init(capacity, policy, weights))
  {
  }

  lemma RemoveAtKeepsOrder(granted: seq<Waiter>, waiting: seq<Waiter>, n: nat, i: nat)
    requires i < |waiting|
    requires Sorted(waiting) && PrecedeByClass(granted, waiting) && Below(waiting, n)
    ensures var rest := RemoveAt(waiting, i);
      Sorted(rest) && PrecedeByClass(granted, rest) && Below(rest, n)
    ensures forall j :: 0 <= j < |waiting| - 1 ==> RemoveAt(waiting, i)[j] == waiting[if j < i then j else j + 1]
  {
  }

  lemma PickKeepsOrder(s: State)
    requires Configured(s) && Ordered(s) && s.waiting != []
    ensures Ordered(Pick(s))
  {
    var (i, _) := NextWaiter(s);
    RemoveAtKeepsOrder(s.granted, s.waiting, |s.log|, i);
    assert PrecedeByClass([s.waiting[i]], Pick(s).waiting);
  }

  lemma PickKeepsCore(s: State)
    requires Core(s) && s.waiting != []
    ensures Core(Pick(s))
  {
    PickKeepsOrder(s);
    RemoveAtMultiset(s.waiting, NextWaiter(s).0);
  }

  lemma DispatchKeepsCore(s: State)
    requires Core(s)
    ensures Inv(Dispatch(s))
    decreases |s.waiting|
  {
    if CanPick(s) {
      PickKeepsCore(s);
      DispatchKeepsCore(Pick(s));
    }
  }

  lemma AppendKeepsOrder(granted: seq<Waiter>, waiting: seq<Waiter>, w: Waiter)
    requires Below(granted, w.arrival) && Below(waiting, w.arrival) && PrecedeByClass(granted, waiting)
    ensures SortedByClass(granted) ==> SortedByClass(granted + [w])
    ensures Sorted(waiting) ==> Sorted(waiting + [w])
    ensures PrecedeByClass(granted, waiting + [w]) && PrecedeByClass(granted + [w], [])
    ensures Below(granted + [w], w.arrival + 1) && Below(waiting + [w], w.arrival + 1)
  {
  }

  lemma AcquireKeepsOrder(s: State, p: Priority)
    requires Ordered(s)
    ensures Ordered(Acquire(s, p))
  {
    AppendKeepsOrder(s.granted, s.waiting, Waiter(|s.log|, p));
  }

  lemma AcquireAccounts(s: State, p: Priority)
    requires Accounted(s)
    ensures Accounted(Acquire(s, p))
  {
    var w, r := Waiter(|s.log|, p), Acquire(s, p);
    assert multiset(r.log) == multiset(s.log) + multiset{w};
    assert multiset(r.granted) + multiset(r.waiting) == multiset(s.granted) + multiset(s.waiting) + multiset{w};
  }

  lemma AcquireKeepsInv(s: State, p: Priority)
    requires Inv(s)
    ensures Inv(Acquire(s, p))
  {
    AcquireKeepsOrder(s, p);
    AcquireAccounts(s, p);
  }

  lemma CancelKeepsInv(s: State, arrival: nat)
    requires Inv(s)
    ensures Inv(Cancel(s, arrival))
  {
    var i := IndexOf(s.waiting, arrival);
    if i < |s.waiting| {
      RemoveAtMultiset(s.waiting, i);
      RemoveAtKeepsOrder(s.granted, s.waiting, |s.log|, i);
    }
  }

  lemma BeforeDispatchKeepsCore(s: State, e: Event)
    requires Inv(s)
    ensures Core(BeforeDispatch(s, e))
    ensures !Dispatches(e) ==> Inv(BeforeDispatch(s, e))
  {
    match e
    case AcquireEvent(p) => AcquireKeepsInv(s, p);
    case CancelEvent(a) => CancelKeepsInv(s, a);
    case ReleaseEvent =>
    case ConfigureEvent(_, _, _) =>
  }

  lemma StepKeepsInv(s: State, e: Event)
    requires Inv(s)
    ensures Inv(Step(s, e))
  {
    BeforeDispatchKeepsCore(s, e);
    if Dispatches(e) {
      DispatchKeepsCore(BeforeDispatch(s, e));
    }
  }

  /** Main invariant: it holds after every run of every mix of events from a new scheduler. */
  lemma {:induction false} RunKeepsInv(s: State, es: seq<Event>)
    requires Inv(s)
    ensures Inv(Run(s, es))
    decreases |es|
  {
    if es != [] {
      StepKeepsInv(s, es[0]);
      RunKeepsInv(Step(s, es[0]), es[1..]);
    }
  }
}
