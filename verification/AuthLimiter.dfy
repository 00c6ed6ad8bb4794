// The authentication failure limiter of internal/httpapi/auth_limiter.go. It keeps one fixed window
// per key, yet bounds what it lets through in every sliding window.
module AuthLimiter {
  import opened Common

  datatype Config = Config(max: int, window: int, cooldown: int) {
    predicate Positive() { max > 0 && window > 0 && cooldown > 0 }
  }

  datatype Attempt = Attempt(count: nat, firstSeen: int, blockedUntil: Option<int>)

  datatype Answer = NotBlocked | Blocked(retryAfter: int)

  const SECOND := 1_000_000_000
  const DEFAULT_LIMIT := 5
  const DEFAULT_WINDOW := 60 * SECOND
  const DEFAULT_COOLDOWN := 30 * SECOND

  function Normalize(c: Config): (r: Config)
    ensures r.Positive() && (c.Positive() ==> r == c)
  {
    Config(if c.max <= 0 then DEFAULT_LIMIT else c.max,
           if c.window <= 0 then DEFAULT_WINDOW else c.window,
           if c.cooldown <= 0 then DEFAULT_COOLDOWN else c.cooldown)
  }

  /** One failure of a key whose record is a. */
  function Register(c: Config, a: Option<Attempt>, now: int): (Attempt, Answer) {
    if a.Some? && a.value.blockedUntil.Some? && now < a.value.blockedUntil.value then
      (a.value, Blocked(a.value.blockedUntil.value - now))
    else
      var current := if a.None? || now - a.value.firstSeen > c.window then Attempt(0, now, None) else a.value;
      var counted := current.(count := current.count + 1);
      if counted.count >= c.max
      then (counted.(blockedUntil := Some(now + c.cooldown)), Blocked(c.cooldown))
      else (counted, NotBlocked)
  }

  datatype Op = Failure(key: string, now: int) | Reset(key: string)

  function Lookup(m: map<string, Attempt>, key: string): Option<Attempt> {
    if key in m then Some(m[key]) else None
  }

  function Step(c: Config, m: map<string, Attempt>, op: Op): map<string, Attempt> {
    match op
    case Failure(key, now) => m[key := Register(c, Lookup(m, key), now).0]
    case Reset(key) => m - {key}
  }

  /** How many failures of `key` between lo and hi, both included, a run answers with "not blocked". */
  function LetThrough(c: Config, m: map<string, Attempt>, ops: seq<Op>, key: string, lo: int, hi: int): nat
    decreases |ops|
  {
    if ops == [] then 0
    else
      var op := ops[0];
      (if op.Failure? && op.key == key && lo <= op.now <= hi && Register(c, Lookup(m, key), op.now).1 == NotBlocked
       then 1 else 0)
      + LetThrough(c, Step(c, m, op), ops[1..], key, lo, hi)
  }

  // ---------------------------------------------------------------- the limiter object

  class Limiter {
    var attempts: map<string, Attempt>
    const config: Config

    constructor (max: int, window: int, cooldown: int)
      ensures attempts == map[] && config == Normalize(Config(max, window, cooldown))
      ensures config.max == if max > 0 then max else 5
      ensures config.window == if window > 0 then window else 60_000_000_000
      ensures config.cooldown == if cooldown > 0 then cooldown else 30_000_000_000
    {
      attempts := map[];
      config := Normalize(Config(max, window, cooldown));
    }

    method RegisterFailure(key: string, now: int) returns (answer: Answer)
      modifies this
      ensures attempts == Step(config, old(attempts), Failure(key, now))
      ensures answer == Register(config, Lookup(old(attempts), key), now).1
    {
      var attempt: Attempt;
      if key in attempts {
        attempt := attempts[key];
        if attempt.blockedUntil.Some? && now < attempt.blockedUntil.value {
          assert attempts[key := attempt] == attempts;
          return Blocked(attempt.blockedUntil.value - now);
        }
      }
      if key !in attempts || now - attempts[key].firstSeen > config.window {
        attempt := Attempt(0, now, None);
      } else {
        attempt := attempts[key];
      }
      attempt := attempt.(count := attempt.count + 1);
      if attempt.count >= config.max {
        attempt := attempt.(blockedUntil := Some(now + config.cooldown));
        attempts := attempts[key := attempt];
        return Blocked(config.cooldown);
      }
      attempts := attempts[key := attempt];
      return NotBlocked;
    }

    method ResetKey(key: string)
      modifies this
      ensures attempts == Step(config, old(attempts), Reset(key))
    {
      attempts := attempts - {key};
    }
  }

  // ---------------------------------------------------------------- one key at a time

  function Times(ops: seq<Op>, key: string): seq<int> {
    if ops == [] then []
    else (if ops[0].Failure? && ops[0].key == key then [ops[0].now] else []) + Times(ops[1..], key)
  }

  function Count(c: Config, a: Option<Attempt>, times: seq<int>, lo: int, hi: int): nat
    decreases |times|
  {
    if times == [] then 0
    else
      var (next, answer) := Register(c, a, times[0]);
      (if lo <= times[0] <= hi && answer == NotBlocked then 1 else 0) + Count(c, Some(next), times[1..], lo, hi)
  }

  predicate NeverReset(ops: seq<Op>, key: string) {
    forall i :: 0 <= i < |ops| ==> ops[i] != Reset(key)
  }

  /** Other keys do not matter, and neither do their resets. */
  lemma {:induction false} OneKey(c: Config, m: map<string, Attempt>, ops: seq<Op>, key: string, lo: int, hi: int)
    requires NeverReset(ops, key)
    ensures LetThrough(c, m, ops, key, lo, hi) == Count(c, Lookup(m, key), Times(ops, key), lo, hi)
    decreases |ops|
  {
    if ops != [] {
      var op := ops[0];
      assert NeverReset(ops[1..], key) by {
        forall i | 0 <= i < |ops[1..]| ensures ops[1..][i] != Reset(key) {
          assert ops[1..][i] == ops[i + 1];
        }
      }
      OneKey(c, Step(c, m, op), ops[1..], key, lo, hi);
      if op.Failure? && op.key == key {
        assert Times(ops, key) == [op.now] + Times(ops[1..], key);
      } else {
        assert op != Reset(key);
        assert Lookup(Step(c, m, op), key) == Lookup(m, key);
        assert Times(ops, key) == Times(ops[1..], key);
      }
    }
  }

  // ---------------------------------------------------------------- the sliding-window bound

  ghost predicate NonDecreasing(times: seq<int>) {
    forall i, j :: 0 <= i < j < |times| ==> times[i] <= times[j]
  }

  /** The clock never runs backwards. */
  ghost predicate ClockOk(ops: seq<Op>) {
    forall i, j :: 0 <= i < j < |ops| && ops[i].Failure? && ops[j].Failure? ==> ops[i].now <= ops[j].now
  }

  lemma {:induction false} TimesNonDecreasing(ops: seq<Op>, key: string)
    requires ClockOk(ops)
    ensures NonDecreasing(Times(ops, key))
    ensures forall t :: t in Times(ops, key) ==> Failure(key, t) in ops
  {
    if ops != [] {
      TimesNonDecreasing(ops[1..], key);
      if ops[0].Failure? {
        forall t | t in Times(ops[1..], key) ensures ops[0].now <= t {
          var i :| 0 <= i < |ops[1..]| && ops[1..][i] == Failure(key, t);
          assert ops[i + 1] == Failure(key, t);
        }
      }
      var rest := Times(ops[1..], key);
      assert Times(ops, key) == if ops[0].Failure? && ops[0].key == key then [ops[0].now] + rest else rest;
      forall i | 0 <= i < |rest| && ops[0].Failure? ensures ops[0].now <= rest[i] {
        assert rest[i] in rest;
      }
    }
  }

  /** The record is one this limiter made, before time `now`. */
  ghost predicate RecordOk(a: Option<Attempt>, now: int) {
    a.Some? ==> a.value.count >= 1 && a.value.firstSeen <= now
  }

  function AtLeastZero(x: int): nat { if x < 0 then 0 else x }

  /** What the current record can still let through, and what a window opened after it can. */
  function Budget(c: Config, a: Option<Attempt>, lo: int): nat
    requires c.Positive()
  {
    if a.None? then c.max - 1
    else AtLeastZero(c.max - 1 - a.value.count) + (if a.value.firstSeen < lo then c.max - 1 else 0)
  }

  lemma {:induction false} NothingAfter(c: Config, a: Option<Attempt>, times: seq<int>, lo: int, hi: int)
    requires NonDecreasing(times) && (times != [] ==> times[0] > hi)
    ensures Count(c, a, times, lo, hi) == 0
    decreases |times|
  {
    if times != [] {
      NothingAfter(c, Some(Register(c, a, times[0]).0), times[1..], lo, hi);
    }
  }

  lemma {:induction false} InsideInterval(c: Config, a: Option<Attempt>, times: seq<int>, lo: int)
    requires c.Positive() && NonDecreasing(times)
    requires times != [] ==> lo <= times[0] && RecordOk(a, times[0])
    ensures Count(c, a, times, lo, lo + c.window) <= Budget(c, a, lo)
    decreases |times|
  {
    if times != [] {
      var next := Register(c, a, times[0]).0;
      if times[0] > lo + c.window {
        NothingAfter(c, a, times, lo, lo + c.window);
      } else {
        InsideInterval(c, Some(next), times[1..], lo);
      }
    }
  }

  /** The largest number of failures an interval as long as the window lets through. */
  function Limit(c: Config): nat
    requires c.Positive()
  {
    if c.max == 1 then 0 else 2 * c.max - 3
  }

  lemma {:induction false} AnyInterval(c: Config, a: Option<Attempt>, times: seq<int>, lo: int)
    requires c.Positive() && NonDecreasing(times)
    requires times != [] ==> RecordOk(a, times[0])
    ensures Count(c, a, times, lo, lo + c.window) <= Limit(c)
    decreases |times|
  {
    if times != [] {
      if times[0] < lo {
        AnyInterval(c, Some(Register(c, a, times[0]).0), times[1..], lo);
      } else {
        InsideInterval(c, a, times, lo);
      }
    }
  }

  /** Sliding-window bound: with a clock that never runs backwards and from a fresh key on, every
      closed interval as long as the window contains at most 2*max - 3 failures let through, and
      none at all when max is 1. */
  lemma SlidingWindow(c: Config, m: map<string, Attempt>, ops: seq<Op>, key: string, lo: int)
    requires c.Positive() && ClockOk(ops) && key !in m
    requires NeverReset(ops, key)
    ensures LetThrough(c, m, ops, key, lo, lo + c.window) <= Limit(c)
  {
    OneKey(c, m, ops, key, lo, lo + c.window);
    TimesNonDecreasing(ops, key);
    AnyInterval(c, None, Times(ops, key), lo);
  }

  // ---------------------------------------------------------------- the bound is reached

  function Burst(key: string, n: nat, t: int): seq<Op> { seq(n, _ => Failure(key, t)) }

  lemma {:induction false} BurstPasses(c: Config, m: map<string, Attempt>, key: string, n: nat, t: int, rest: seq<Op>,
                                       lo: int, hi: int)
    requires key in m && m[key].blockedUntil == None && m[key].count + n < c.max
    requires m[key].firstSeen <= t && t - m[key].firstSeen <= c.window && lo <= t <= hi
    ensures LetThrough(c, m, Burst(key, n, t) + rest, key, lo, hi)
         == n + LetThrough(c, m[key := m[key].(count := m[key].count + n)], rest, key, lo, hi)
    decreases n
  {
    var ops := Burst(key, n, t) + rest;
    if n == 0 {
      assert ops == rest;
      assert m[key := m[key].(count := m[key].count)] == m;
    } else {
      var m' := Step(c, m, Failure(key, t));
      assert ops[0] == Failure(key, t) && ops[1..] == Burst(key, n - 1, t) + rest;
      BurstPasses(c, m', key, n - 1, t, rest, lo, hi);
      assert m'[key := m'[key].(count := m'[key].count + (n - 1))] == m[key := m[key].(count := m[key].count + n)];
    }
  }

  lemma FirstOp(c: Config, m: map<string, Attempt>, op: Op, rest: seq<Op>, key: string, lo: int, hi: int)
    requires op.Failure? && op.key == key
    ensures LetThrough(c, m, [op] + rest, key, lo, hi)
         == (if lo <= op.now <= hi && Register(c, Lookup(m, key), op.now).1 == NotBlocked then 1 else 0)
            + LetThrough(c, Step(c, m, op), rest, key, lo, hi)
  {
    assert ([op] + rest)[1..] == rest;
  }

  /** One failure that opens the record, max - 2 more at the end of its window, then a new record at once
   *  after it, filled in the same instant. */
  function TightRun(c: Config, key: string): seq<Op>
    requires c.max > 1
  {
    [Failure(key, 0)] + (Burst(key, c.max - 2, c.window) + LateHalf(c, key))
  }

  function LateHalf(c: Config, key: string): seq<Op>
    requires c.max > 1
  {
    [Failure(key, c.window + 1)] + Burst(key, c.max - 2, c.window + 1)
  }

  lemma TightRunIsOrderly(c: Config, key: string)
    requires c.Positive() && c.max > 1
    ensures ClockOk(TightRun(c, key)) && NeverReset(TightRun(c, key), key)
  {
  }

  lemma LateHalfPasses(c: Config, key: string)
    requires c.Positive() && c.max > 1
    ensures LetThrough(c, map[key := Attempt(c.max - 1, 0, None)], LateHalf(c, key), key, c.window, 2 * c.window)
         == c.max - 1
  {
    var m2, m3 := map[key := Attempt(c.max - 1, 0, None)], map[key := Attempt(1, c.window + 1, None)];
    var last := Burst(key, c.max - 2, c.window + 1);
    FirstOp(c, m2, Failure(key, c.window + 1), last, key, c.window, 2 * c.window);
    assert Step(c, m2, Failure(key, c.window + 1)) == m3;
    assert last + [] == last;
    BurstPasses(c, m3, key, c.max - 2, c.window + 1, [], c.window, 2 * c.window);
  }

  lemma EarlyHalfPasses(c: Config, key: string)
    requires c.Positive() && c.max > 1
    ensures LetThrough(c, map[], TightRun(c, key), key, c.window, 2 * c.window) == c.max - 2
      + LetThrough(c, map[key := Attempt(c.max - 1, 0, None)], LateHalf(c, key), key, c.window, 2 * c.window)
  {
    var m1 := map[key := Attempt(1, 0, None)];
    var middle, late := Burst(key, c.max - 2, c.window), LateHalf(c, key);
    FirstOp(c, map[], Failure(key, 0), middle + late, key, c.window, 2 * c.window);
    BurstPasses(c, m1, key, c.max - 2, c.window, late, c.window, 2 * c.window);
    assert m1[key := m1[key].(count := m1[key].count + (c.max - 2))] == map[key := Attempt(c.max - 1, 0, None)];
  }

  /** The bound is exact: a run reaches it, for every configuration with max above 1. */
  lemma SlidingWindowIsTight(c: Config, key: string) returns (ops: seq<Op>)
    requires c.Positive() && c.max > 1
    ensures ClockOk(ops) && NeverReset(ops, key)
    ensures LetThrough(c, map[], ops, key, c.window, 2 * c.window) == Limit(c)
  {
    ops := TightRun(c, key);
    TightRunIsOrderly(c, key);
    EarlyHalfPasses(c, key);
    LateHalfPasses(c, key);
  }

  // ---------------------------------------------------------------- the cooldown

  function Run(c: Config, m: map<string, Attempt>, ops: seq<Op>): map<string, Attempt>
    decreases |ops|
  {
    if ops == [] then m else Run(c, Step(c, m, ops[0]), ops[1..])
  }

  /** Once a key is blocked until some moment, no run of failures before that moment lets anything
      through or moves the moment, and each is told exactly the time that is left. */
  lemma {:induction false} CooldownHolds(c: Config, m: map<string, Attempt>, ops: seq<Op>, key: string, until: int,
                                         lo: int, hi: int)
    requires key in m && m[key].blockedUntil == Some(until)
    requires NeverReset(ops, key)
    requires forall i :: 0 <= i < |ops| && ops[i].Failure? && ops[i].key == key ==> ops[i].now < until
    ensures LetThrough(c, m, ops, key, lo, hi) == 0
    ensures key in Run(c, m, ops) && Run(c, m, ops)[key] == m[key]
    ensures forall t :: t < until ==> Register(c, Lookup(Run(c, m, ops), key), t).1 == Blocked(until - t)
    decreases |ops|
  {
    if ops != [] {
      assert ops[0] != Reset(key);
      var m' := Step(c, m, ops[0]);
      assert key in m' && m'[key] == m[key];
      assert forall i :: 0 <= i < |ops[1..]| ==> ops[1..][i] == ops[i + 1];
      CooldownHolds(c, m', ops[1..], key, until, lo, hi);
    }
  }

  // ---------------------------------------------------------------- what is let through

  /** The record of one key after failures at these times. */
  function RecordAfter(c: Config, a: Option<Attempt>, times: seq<int>): Option<Attempt>
    decreases |times|
  {
    if times == [] then a else RecordAfter(c, Some(Register(c, a, times[0]).0), times[1..])
  }

  lemma {:induction false} RunOneKey(c: Config, m: map<string, Attempt>, ops: seq<Op>, key: string)
    requires NeverReset(ops, key)
    ensures Lookup(Run(c, m, ops), key) == RecordAfter(c, Lookup(m, key), Times(ops, key))
    decreases |ops|
  {
    if ops != [] {
      var op := ops[0];
      assert op != Reset(key) && forall i :: 0 <= i < |ops[1..]| ==> ops[1..][i] == ops[i + 1];
      RunOneKey(c, Step(c, m, op), ops[1..], key);
      if op.Failure? && op.key == key {
        assert Times(ops, key) == [op.now] + Times(ops[1..], key);
      } else {
        assert Times(ops, key) == Times(ops[1..], key);
      }
    }
  }

  /** In its record nothing is younger than the last failure, and no block reaches further than a cooldown after it. */
  ghost predicate NotAfter(c: Config, a: Option<Attempt>, last: int) {
    a.Some? ==>
      a.value.firstSeen <= last
      && (a.value.blockedUntil.Some? ==> a.value.blockedUntil.value <= last + c.cooldown)
  }

  lemma {:induction false} RecordNotAfter(c: Config, a: Option<Attempt>, times: seq<int>, last: int)
    requires c.Positive() && NotAfter(c, a, last) && forall i :: 0 <= i < |times| ==> times[i] <= last
    ensures NotAfter(c, RecordAfter(c, a, times), last)
    decreases |times|
  {
    if times != [] { RecordNotAfter(c, Some(Register(c, a, times[0]).0), times[1..], last); }
  }

  /** Forgiven: once a window and a cooldown have passed since a key last failed, its past does not matter. The next
      failure opens a new record and is let through, unless a single failure is one too many. */
  lemma OldFailuresAreForgiven(c: Config, m: map<string, Attempt>, ops: seq<Op>, key: string, now: int)
    requires c.Positive() && key !in m && NeverReset(ops, key)
    requires forall t :: t in Times(ops, key) ==> now - t > c.window && now - t >= c.cooldown
    ensures Register(c, Lookup(Run(c, m, ops), key), now)
         == if c.max == 1 then (Attempt(1, now, Some(now + c.cooldown)), Blocked(c.cooldown))
            else (Attempt(1, now, None), NotBlocked)
  {
    var times := Times(ops, key);
    RunOneKey(c, m, ops, key);
    var last := now - (if c.window + 1 > c.cooldown then c.window + 1 else c.cooldown);
    forall i | 0 <= i < |times| ensures times[i] <= last { assert times[i] in times; }
    RecordNotAfter(c, None, times, last);
  }

  function Lesser(a: int, b: int): int { if a < b then a else b }

  /** These instants lie within a window of the first failure. */
  predicate WithinWindow(c: Config, first: int, times: seq<int>) {
    forall i :: 0 <= i < |times| ==> first <= times[i] <= first + c.window
  }

  lemma {:induction false} RestOfWindow(c: Config, a: Attempt, times: seq<int>, lo: int, hi: int)
    requires c.Positive() && WithinWindow(c, a.firstSeen, times) && (a.count < c.max ==> a.blockedUntil.None?)
    requires forall i :: 0 <= i < |times| ==> lo <= times[i] <= hi
    ensures Count(c, Some(a), times, lo, hi) == if a.count >= c.max then 0 else Lesser(|times|, c.max - 1 - a.count)
    decreases |times|
  {
    if times != [] { RestOfWindow(c, Register(c, Some(a), times[0]).0, times[1..], lo, hi); }
  }

  /** Within a window of its first failure exactly the first max - 1 failures of a key are let through, however
      often it fails and whatever cooldowns end meanwhile. */
  lemma FirstFailuresPass(c: Config, m: map<string, Attempt>, ops: seq<Op>, key: string, lo: int, hi: int)
    requires c.Positive() && key !in m && NeverReset(ops, key) && Times(ops, key) != []
    requires WithinWindow(c, Times(ops, key)[0], Times(ops, key))
    requires forall t :: t in Times(ops, key) ==> lo <= t <= hi
    ensures LetThrough(c, m, ops, key, lo, hi) == Lesser(|Times(ops, key)|, c.max - 1)
  {
    var times := Times(ops, key);
    OneKey(c, m, ops, key, lo, hi);
    var first := Register(c, None, times[0]).0;
    forall i | 0 <= i < |times[1..]| ensures lo <= times[1..][i] <= hi { assert times[i + 1] in times; }
    assert times[0] in times;
    RestOfWindow(c, first, times[1..], lo, hi);
  }

  /** The failure that is one too many starts a cooldown: the key is told to wait that long, and is blocked for it. */
  lemma OneTooManyBlocks(c: Config, a: Option<Attempt>, now: int)
    requires c.Positive() && Register(c, a, now).1.Blocked?
    requires a.Some? && a.value.blockedUntil.Some? ==> a.value.blockedUntil.value <= now
    ensures Register(c, a, now).1 == Blocked(c.cooldown)
    ensures Register(c, a, now).0.blockedUntil == Some(now + c.cooldown)
  {
  }

  /** A reset gives a key a clean record: from then on it is treated like one that never failed. */
  lemma ResetForgives(c: Config, m: map<string, Attempt>, ops: seq<Op>, key: string, lo: int, hi: int)
    requires NeverReset(ops, key)
    ensures LetThrough(c, Step(c, m, Reset(key)), ops, key, lo, hi) == LetThrough(c, map[], ops, key, lo, hi)
  {
    OneKey(c, Step(c, m, Reset(key)), ops, key, lo, hi);
    OneKey(c, map[], ops, key, lo, hi);
  }
}
