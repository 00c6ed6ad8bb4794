// The scheduler object itself: fields behind a lock, updated in place, proved against QueueSpec.
module QueueScheduler {
  import opened Common
  import opened QueueSpec
  import opened QueueSettings

  /** One blocked request. `ready` stands for the channel whose closing wakes it. */
  class QueueWaiter {
    const requestID: string
    const priority: Priority
    ghost const arrival: nat
    var dispatched: bool
    var ready: bool

    constructor (requestID: string, priority: Priority, ghost arrival: nat)
      ensures this.requestID == requestID && this.priority == priority && this.arrival == arrival
      ensures !dispatched && !ready
    {
      this.requestID, this.priority, this.arrival := requestID, priority, arrival;
      dispatched, ready := false, false;
    }

    ghost function Value(): Waiter { Waiter(arrival, priority) }
  }

  class Scheduler {
    var capacity: int
    var active: int
    var policy: Policy
    var weights: Weights
    var schedule: seq<Priority>
    var cursor: int
    var waiting: seq<QueueWaiter>
    // The state of the specification these fields stand for, and every request ever queued here.
    ghost var model: State
    ghost var blocked: set<QueueWaiter>

    ghost predicate Represents()
      reads this
    {
      && capacity == model.capacity && active == model.active && policy == model.policy
      && weights == model.weights && schedule == Schedule(weights) && cursor == model.cursor
      && SameWaiters()
    }

    ghost predicate SameWaiters()
      reads this
    {
      && |waiting| == |model.waiting|
      && (forall i :: 0 <= i < |waiting| ==> waiting[i].Value() == model.waiting[i])
    }

    /** A blocked request is marked dispatched exactly when it was granted a slot; the ones that
        wait are distinct and not yet dispatched. */
    ghost predicate FatesRecorded()
      reads this, blocked
    {
      && Marked(blocked, model) && OneEach(blocked)
      && (forall i :: 0 <= i < |waiting| ==> waiting[i] in blocked && !waiting[i].dispatched)
      && (forall i, j :: 0 <= i < j < |waiting| ==> waiting[i] != waiting[j])
      && Below(model.granted, |model.log|)
    }

    static ghost predicate Marked(blocked: set<QueueWaiter>, model: State)
      reads blocked
    {
      forall w :: w in blocked ==> w.dispatched == w.ready == (w.Value() in model.granted) && w.arrival < |model.log|
    }

    static ghost predicate OneEach(blocked: set<QueueWaiter>) {
      forall v, w :: v in blocked && w in blocked && v.arrival == w.arrival ==> v == w
    }

    /** The object invariant. That `model` also keeps `Inv` over every run of these methods is
        StepKeepsInv and RunKeepsInv of QueueSpec. */
    ghost predicate Valid()
      reads this, blocked
    {
      Represents() && FatesRecorded() && CursorOk(model)
    }

    constructor (capacity: int, policy: Policy, weights: Weights)
      ensures Valid() && model == Init(capacity, policy, weights) && blocked == {}
      ensures InForce(model, Settings(capacity, policy, weights))
    {
      this.capacity := NormalizeCapacity(capacity);
      this.policy, this.weights := policy, NormalizeWeights(weights);
      this.schedule := Schedule(NormalizeWeights(weights));
      active, cursor, waiting := 0, 0, [];
      model, blocked := Init(capacity, policy, weights), {};
    }

    /** The inner search of the scan. */
    method FindClass(priority: Priority) returns (i: nat)
      requires SameWaiters()
      ensures i == FirstOf(model.waiting, priority)
    {
      i := 0;
      while i < |waiting| && waiting[i].priority != priority
        invariant 0 <= i <= |waiting|
        invariant forall j :: 0 <= j < i ==> model.waiting[j].priority != priority
      {
        assert waiting[i].Value() == model.waiting[i];
        i := i + 1;
      }
      assert i < |waiting| ==> waiting[i].Value() == model.waiting[i];
      FirstOfIs(model.waiting, priority, i);
    }

    lemma FirstOfIs(ws: seq<Waiter>, p: Priority, i: nat)
      requires i <= |ws| && (i < |ws| ==> ws[i].priority == p)
      requires forall j :: 0 <= j < i ==> ws[j].priority != p
      ensures i == FirstOf(ws, p)
    {
    }

    /** Chooses the next waiter and moves the cursor; the waiter list is searched, not changed. */
    method NextWaiterIndex() returns (index: nat)
      requires Represents() && CursorOk(model) && waiting != []
      modifies this`cursor
      ensures (index, cursor) == NextWaiter(model)
    {
      if policy == Fifo || |schedule| == 0 {
        return 0;
      }
      index := ScanSchedule();
    }

    method ScanSchedule() returns (index: nat)
      requires SameWaiters() && waiting != [] && 0 <= cursor < |schedule|
      modifies this`cursor
      ensures (index, cursor) == Scan(schedule, model.waiting, old(cursor), 0)
    {
      var tries := 0;
      while tries < |schedule|
        invariant 0 <= tries <= |schedule| && 0 <= cursor < |schedule|
        invariant Scan(schedule, model.waiting, cursor, tries) == Scan(schedule, model.waiting, old(cursor), 0)
      {
        CursorInRange(cursor, |schedule|);
        var priority := schedule[cursor % |schedule|];
        index := FindClass(priority);
        cursor := (cursor + 1) % |schedule|;
        if index < |waiting| {
          return index;
        }
        tries := tries + 1;
      }
      return 0;
    }

    lemma CursorInRange(c: nat, n: nat)
      requires c < n
      ensures c % n == c && 0 <= (c + 1) % n < n
    {
    }

    /** Takes the waiter at this index off the list and wakes it with a slot. */
    method GrantAt(index: nat)
      requires SameWaiters() && FatesRecorded() && index < |waiting|
      modifies this`active, this`waiting, this`model, blocked
      ensures SameWaiters() && FatesRecorded() && active == old(active) + 1
      ensures model == old(model).(waiting := RemoveAt(old(model).waiting, index), active := old(model).active + 1,
                                   granted := old(model).granted + [old(model).waiting[index]])
    {
      var waiter := waiting[index];
      waiting := waiting[..index] + waiting[index + 1..];
      waiter.dispatched := true;
      active := active + 1;
      waiter.ready := true;
      model := model.(waiting := RemoveAt(model.waiting, index), active := model.active + 1,
                      granted := model.granted + [model.waiting[index]]);
    }

    /** One iteration of the dispatch loop. */
    method DispatchOne()
      requires Valid() && waiting != []
      modifies this`active, this`cursor, this`waiting, this`model, blocked
      ensures Valid() && model == Pick(old(model))
    {
      var index := NextWaiterIndex();
      GrantAt(index);
      model := model.(cursor := cursor);
    }

    method DispatchLocked()
      requires Valid()
      modifies this`active, this`cursor, this`waiting, this`model, blocked
      ensures Valid() && model == Dispatch(old(model))
    {
      while active < capacity && |waiting| > 0
        invariant Valid() && Dispatch(model) == Dispatch(old(model))
        invariant blocked == old(blocked) && capacity == old(capacity)
        decreases |waiting|
      {
        DispatchOne();
      }
    }

    /** The new settings, with the cursor kept inside the new schedule. */
    method ApplySettings(capacity: int, policy: Policy, weights: Weights)
      requires Valid()
      modifies this`capacity, this`policy, this`weights, this`schedule, this`cursor, this`model
      ensures Valid() && model == Reconfigure(old(model), capacity, policy, weights)
    {
      this.capacity := NormalizeCapacity(capacity);
      this.policy := policy;
      this.weights := NormalizeWeights(weights);
      this.schedule := Schedule(this.weights);
      if cursor >= |schedule| {
        cursor := 0;
      }
      model := Reconfigure(model, capacity, policy, weights);
    }

    method Configure(capacity: int, policy: Policy, weights: Weights)
      requires Valid()
      modifies this, blocked
      ensures Valid() && blocked == old(blocked)
      ensures model == Step(old(model), ConfigureEvent(capacity, policy, weights))
      ensures InForce(model, Settings(capacity, policy, weights))
    {
      ghost var before := model;
      ApplySettings(capacity, policy, weights);
      DispatchLocked();
      ConfiguredInForce(before, Settings(capacity, policy, weights));
    }

    method Release()
      requires Valid()
      modifies this`active, this`cursor, this`waiting, this`model, blocked
      ensures Valid() && model == Step(old(model), ReleaseEvent)
    {
      if active > 0 {
        active := active - 1;
      }
      model := FreeSlot(model);
      DispatchLocked();
    }

    method TakeSlot(priority: Priority)
      requires Valid() && active < capacity && waiting == []
      modifies this`active, this`model
      ensures Valid() && model == QueueSpec.Acquire(old(model), priority)
    {
      active := active + 1;
      model := QueueSpec.Acquire(model, priority);
    }

    method Enqueue(waiter: QueueWaiter)
      requires Valid() && !(active < capacity && waiting == [])
      requires waiter !in blocked && !waiter.dispatched && !waiter.ready && waiter.arrival == |model.log|
      modifies this`waiting, this`model, this`blocked
      ensures Valid() && model == QueueSpec.Acquire(old(model), waiter.priority)
      ensures waiting == old(waiting) + [waiter] && blocked == old(blocked) + {waiter}
    {
      waiting := waiting + [waiter];
      model := QueueSpec.Acquire(model, waiter.priority);
      blocked := blocked + {waiter};
    }

    /** First half of acquire: take a free slot when nobody waits, or queue up. */
    method Acquire(requestID: string, priority: Priority) returns (acquired: bool, waiter: QueueWaiter)
      requires Valid()
      modifies this`active, this`waiting, this`model, this`blocked
      ensures Valid() && model == Step(old(model), AcquireEvent(priority))
      ensures fresh(waiter) && waiter.Value() == Waiter(|old(model.log)|, priority)
      ensures acquired == (old(active) < capacity && old(waiting) == [])
      ensures acquired ==> model.granted == old(model.granted) + [waiter.Value()] && blocked == old(blocked)
      ensures !acquired ==> waiting == old(waiting) + [waiter] && blocked == old(blocked) + {waiter}
    {
      waiter := new QueueWaiter(requestID, priority, |model.log|);
      acquired := active < capacity && |waiting| == 0;
      if acquired {
        TakeSlot(priority);
      } else {
        Enqueue(waiter);
      }
    }

    /** Second half of acquire when the context ends first. Whether the wake-up or the cancellation
        won the race, the answer is true exactly when the request holds a slot. */
    method CancelWait(waiter: QueueWaiter) returns (acquired: bool)
      requires Valid() && waiter in blocked
      modifies this`waiting, this`model
      ensures Valid() && model == Step(old(model), CancelEvent(waiter.arrival))
      ensures acquired == waiter.dispatched == (waiter.Value() in model.granted)
      ensures waiter.Value() in old(model.waiting) ==> !acquired && waiter.Value() in model.cancelled
    {
      if waiter.dispatched {
        return true;
      }
      var i := 0;
      while i < |waiting| && waiting[i] != waiter
        invariant 0 <= i <= |waiting|
        invariant forall j :: 0 <= j < i ==> waiting[j] != waiter
      {
        i := i + 1;
      }
      if i < |waiting| {
        waiting := waiting[..i] + waiting[i + 1..];
      }
      model := Cancel(model, waiter.arrival);
      return false;
    }
  }
}
