/**
 The per-key token bucket, over real numbers. Times and durations are seconds; the clock reading
 is an argument. `Sweep` forgets idle buckets, which should not be observable: the theorems say
 exactly when it is not.
 */
module RateLimit {

  datatype Config = Config(rate: real, capacity: real, idleAfter: real)

  predicate Positive(c: Config) {
    c.rate > 0.0 && c.capacity > 0.0 && c.idleAfter > 0.0
  }

  /** What the algorithm needs of its configuration: the tokens earned in a time, and the time
      needed to earn an amount. */
  datatype Meter = Meter(capacity: real, idleAfter: real, earn: real -> real, wait: real -> real)

  function MeterOf(c: Config): Meter
    requires c.rate != 0.0
  {
    Meter(c.capacity, c.idleAfter, (time: real) => time * c.rate, (amount: real) => amount / c.rate)
  }

  predicate Adds(c: Meter, x: real, y: real) {
    c.earn(x + y) == c.earn(x) + c.earn(y)
  }

  predicate Increases(c: Meter, x: real, y: real) {
    x < y ==> c.earn(x) < c.earn(y)
  }

  predicate Inverts(c: Meter, amount: real, time: real) {
    amount <= c.earn(time) <==> c.wait(amount) <= time
  }

  /** Earning is additive and increasing, and `wait` inverts it. */
  ghost predicate Fair(c: Meter) {
    && c.capacity > 0.0 && c.idleAfter > 0.0 && c.earn(0.0) == 0.0
    && (forall x, y :: Adds(c, x, y))
    && (forall x, y :: Increases(c, x, y))
    && (forall amount, time :: Inverts(c, amount, time))
  }

  datatype Bucket = Bucket(tokens: real, lastFill: real, lastSeen: real, refused: int)

  type Buckets = map<string, Bucket>

  datatype Decision = Decision(allowed: bool, retryAfter: real, remaining: real, limit: real)

  function Min(a: real, b: real): real {
    if a <= b then a else b
  }

  // ---- One call ----

  /** A bucket brought up to date: what it earned since it was last filled, as far as it fits. */
  function Refilled(c: Meter, b: Bucket, now: real): Bucket {
    var elapsed := now - b.lastFill;
    var f := if elapsed > 0.0 then b.(tokens := Min(c.capacity, b.tokens + c.earn(elapsed)), lastFill := now) else b;
    f.(lastSeen := now)
  }

  function Found(c: Meter, m: Buckets, key: string, now: real): Bucket {
    if key in m then m[key] else Bucket(c.capacity, now, now, 0)
  }

  function Taken(c: Meter, b: Bucket, n: real): (r: (Bucket, Decision))
  {
    if b.tokens >= n then
      (b.(tokens := b.tokens - n), Decision(true, 0.0, b.tokens - n, c.capacity))
    else
      (b.(refused := b.refused + 1), Decision(false, c.wait(n - b.tokens), 0.0, c.capacity))
  }

  function AfterAllow(c: Meter, m: Buckets, key: string, n: real, now: real): (Buckets, Decision)
  {
    var r := Taken(c, Refilled(c, Found(c, m, key, now), now), n);
    (m[key := r.0], r.1)
  }

  predicate Idle(idleAfter: real, b: Bucket, now: real) {
    b.lastSeen < now - idleAfter
  }

  function AfterSweep(idleAfter: real, m: Buckets, now: real): Buckets {
    map k | k in m && !Idle(idleAfter, m[k], now) :: m[k]
  }

  class Limiter {
    var buckets: Buckets
    const config: Config

    /** Non-positive options fall back to the defaults. */
    constructor (perSecond: real, burst: real, idleAfter: real)
      ensures buckets == map[] && Positive(config)
      ensures config.rate == if perSecond > 0.0 then perSecond else 1000.0
      ensures config.capacity == if burst > 0.0 then burst else config.rate * 2.0
      ensures config.idleAfter == if idleAfter > 0.0 then idleAfter else 600.0
      ensures burst <= 0.0 && idleAfter <= 0.0 ==> Patient(MeterOf(config))
    {
      var rate := if perSecond <= 0.0 then 1000.0 else perSecond;
      var capacity := if burst <= 0.0 then rate * 2.0 else burst;
      buckets := map[];
      config := Config(rate, capacity, if idleAfter <= 0.0 then 600.0 else idleAfter);
    }

    method AllowN(key: string, n: real, now: real) returns (d: Decision)
      requires config.rate != 0.0
      modifies this`buckets
      ensures (buckets, d) == AfterAllow(MeterOf(config), old(buckets), key, n, now)
    {
      if key !in buckets {
        buckets := buckets[key := Bucket(config.capacity, now, now, 0)];
      }
      var b := buckets[key];
      var elapsed := now - b.lastFill;
      if elapsed > 0.0 {
        b := b.(tokens := Min(config.capacity, b.tokens + elapsed * config.rate), lastFill := now);
      }
      b := b.(lastSeen := now);
      assert b == Refilled(MeterOf(config), Found(MeterOf(config), old(buckets), key, now), now);
      if b.tokens >= n {
        b := b.(tokens := b.tokens - n);
        assert buckets[key := b] == old(buckets)[key := b];
        buckets := buckets[key := b];
        return Decision(true, 0.0, b.tokens, config.capacity);
      }
      var deficit := n - b.tokens;
      b := b.(refused := b.refused + 1);
      assert buckets[key := b] == old(buckets)[key := b];
      buckets := buckets[key := b];
      return Decision(false, deficit / config.rate, 0.0, config.capacity);
    }

    method Sweep(now: real) returns (removed: nat)
      modifies this`buckets
      ensures buckets == AfterSweep(config.idleAfter, old(buckets), now)
      ensures removed == |old(buckets)| - |buckets|
    {
      removed := 0;
      var todo := buckets.Keys;
      ghost var before := buckets;
      while todo != {}
        invariant todo <= buckets.Keys <= before.Keys
        invariant forall k :: k in buckets ==> buckets[k] == before[k]
        invariant forall k :: k in before && k !in todo ==> (k in buckets <==> !Idle(config.idleAfter, before[k], now))
        invariant removed == |before| - |buckets|
        decreases todo
      {
        var k :| k in todo;
        if Idle(config.idleAfter, buckets[k], now) {
          assert buckets == (buckets - {k})[k := buckets[k]];
          buckets := buckets - {k};
          removed := removed + 1;
        }
        todo := todo - {k};
      }
    }
  }

  // ---- What a key can take ----

  /** The tokens `key` would find at time `t`; a forgotten key finds a full bucket. */
  function Level(c: Meter, m: Buckets, key: string, t: real): real {
    if key in m then Min(c.capacity, m[key].tokens + c.earn(t - m[key].lastFill)) else c.capacity
  }

  /** Every bucket holds between none and all of its tokens, and was filled when last seen. */
  predicate Sound(c: Meter, m: Buckets, now: real) {
    forall k :: k in m ==> 0.0 <= m[k].tokens <= c.capacity && m[k].lastFill == m[k].lastSeen <= now
  }

  /** An idle bucket has had time to fill up. */
  predicate Patient(c: Meter) {
    c.earn(c.idleAfter) >= c.capacity
  }

  /** The bucket a call finds has exactly its level. */
  lemma FindsLevel(c: Meter, m: Buckets, key: string, now: real)
    requires Fair(c) && Sound(c, m, now)
    ensures var b := Refilled(c, Found(c, m, key, now), now);
            b.tokens == Level(c, m, key, now) && b.lastFill == b.lastSeen == now
    ensures 0.0 <= Level(c, m, key, now) <= c.capacity
  {
    if key in m {
      assert Increases(c, 0.0, now - m[key].lastFill);
    }
  }

  lemma AllowKeepsSound(c: Meter, m: Buckets, key: string, n: real, now: real)
    requires Fair(c) && Sound(c, m, now) && n >= 0.0
    ensures Sound(c, AfterAllow(c, m, key, n, now).0, now)
  {
    FindsLevel(c, m, key, now);
  }

  /** The decision on `n` at a given level. */
  function Verdict(c: Meter, level: real, n: real): Decision
  {
    if n <= level then Decision(true, 0.0, level - n, c.capacity) else Decision(false, c.wait(n - level), 0.0, c.capacity)
  }

  /** The level `wait` seconds after `n` was asked for at `level`. */
  function Left(c: Meter, level: real, n: real, wait: real): real {
    Min(c.capacity, (if n <= level then level - n else level) + c.earn(wait))
  }

  /** A call is granted if and only if the level covers it, and takes exactly what it grants. */
  lemma AllowTakesFromLevel(c: Meter, m: Buckets, key: string, n: real, now: real, k: string, t: real)
    requires Fair(c) && Sound(c, m, now)
    ensures AfterAllow(c, m, key, n, now).1 == Verdict(c, Level(c, m, key, now), n)
    ensures Level(c, AfterAllow(c, m, key, n, now).0, k, t)
         == if k == key then Left(c, Level(c, m, key, now), n, t - now) else Level(c, m, k, t)
  {
  }

  /** A refusal is counted against its key, and nothing else is. */
  lemma RefusalsAreCounted(c: Meter, m: Buckets, key: string, n: real, now: real)
    requires Fair(c) && Sound(c, m, now)
    ensures AfterAllow(c, m, key, n, now).0[key].refused
         == (if key in m then m[key].refused else 0) + if n <= Level(c, m, key, now) then 0 else 1
  {
    FindsLevel(c, m, key, now);
  }

  /** Time adds at most what it earns, and never takes away. */
  lemma LevelGrows(c: Meter, m: Buckets, key: string, t: real, u: real)
    requires Fair(c) && t <= u
    ensures Level(c, m, key, t) <= Level(c, m, key, u) <= Level(c, m, key, t) + c.earn(u - t)
  {
    assert Increases(c, 0.0, u - t);
    if key in m {
      var b := m[key];
      assert Adds(c, t - b.lastFill, u - t);
      assert (t - b.lastFill) + (u - t) == u - b.lastFill;
    }
  }

  /** With patient sweeping, a forgotten bucket was already full. */
  lemma SweepKeepsLevel(c: Meter, m: Buckets, now: real, key: string, t: real)
    requires Fair(c) && Patient(c) && Sound(c, m, now) && now <= t
    ensures Level(c, AfterSweep(c.idleAfter, m, now), key, t) == Level(c, m, key, t)
  {
    if key in m && Idle(c.idleAfter, m[key], now) {
      assert Increases(c, c.idleAfter, t - m[key].lastFill);
    }
  }

  /** `RetryAfter` is exact: with nothing else taken, the same request is granted from that
      moment on and not before. A request above the capacity is never granted. */
  lemma RetryAfterIsExact(c: Meter, m: Buckets, key: string, n: real, now: real, t: real)
    requires Fair(c) && Sound(c, m, now) && 0.0 <= n && now <= t
    requires !AfterAllow(c, m, key, n, now).1.allowed
    ensures var (v, d) := AfterAllow(c, m, key, n, now);
            AfterAllow(c, v, key, n, t).1.allowed <==> n <= c.capacity && now + d.retryAfter <= t
  {
    AllowKeepsSound(c, m, key, n, now);
    AllowTakesFromLevel(c, m, key, n, now, key, t);
    AllowTakesFromLevel(c, AfterAllow(c, m, key, n, now).0, key, n, t, key, t);
    WaitsFor(c, Level(c, m, key, now), n, now, t);
  }

  lemma WaitsFor(c: Meter, level: real, n: real, now: real, t: real)
    requires Fair(c) && !Verdict(c, level, n).allowed
    ensures Verdict(c, Left(c, level, n, t - now), n).allowed
       <==> n <= c.capacity && now + Verdict(c, level, n).retryAfter <= t
  {
    assert Inverts(c, n - level, t - now);
  }

  // ---- Runs ----

  datatype Call = AllowN(at: real, key: string, n: real) | Sweep(at: real)

  /** The clock does not run backwards and nothing negative is asked for. */
  predicate Ordered(calls: seq<Call>) {
    && (forall i :: 0 <= i < |calls| && calls[i].AllowN? ==> calls[i].n >= 0.0)
    && (forall i, j :: 0 <= i < j < |calls| ==> calls[i].at <= calls[j].at)
  }

  /** The buckets before each call and after the last, and the decision on each `AllowN`. */
  datatype Run = Run(states: seq<Buckets>, decisions: seq<Decision>)

  /** What the limiter does on one call; `sweeps` says whether sweeping is carried out. */
  predicate Does(c: Meter, sweeps: bool, m: Buckets, call: Call, v: Buckets, d: Decision)
  {
    match call
    case AllowN(at, key, n) => (v, d) == AfterAllow(c, m, key, n, at)
    case Sweep(at) => v == if sweeps then AfterSweep(c.idleAfter, m, at) else m
  }

  predicate StepAt(c: Meter, calls: seq<Call>, sweeps: bool, r: Run, i: nat)
    requires i < |calls| == |r.decisions| && |r.states| == |calls| + 1
  {
    Does(c, sweeps, r.states[i], calls[i], r.states[i + 1], r.decisions[i])
  }

  ghost predicate IsRun(c: Meter, calls: seq<Call>, sweeps: bool, r: Run)
  {
    && |r.decisions| == |calls| && |r.states| == |calls| + 1
    && r.states[0] == map[]
    && forall i :: 0 <= i < |calls| ==> StepAt(c, calls, sweeps, r, i)
  }

  lemma StepKeepsSound(c: Meter, calls: seq<Call>, sweeps: bool, r: Run, i: nat, now: real)
    requires Fair(c) && Ordered(calls) && IsRun(c, calls, sweeps, r) && i < |calls| && calls[i].at <= now
    requires Sound(c, r.states[i], calls[i].at)
    ensures Sound(c, r.states[i + 1], now)
  {
    assert StepAt(c, calls, sweeps, r, i);
    if calls[i].AllowN? {
      AllowKeepsSound(c, r.states[i], calls[i].key, calls[i].n, calls[i].at);
    }
  }

  lemma {:induction false} StatesAreSound(c: Meter, calls: seq<Call>, sweeps: bool, r: Run, i: nat, now: real)
    requires Fair(c) && Ordered(calls) && IsRun(c, calls, sweeps, r) && i <= |calls|
    requires i > 0 ==> calls[i - 1].at <= now
    ensures Sound(c, r.states[i], now)
  {
    if i > 0 {
      StatesAreSound(c, calls, sweeps, r, i - 1, calls[i - 1].at);
      StepKeepsSound(c, calls, sweeps, r, i - 1, now);
    }
  }

  // ---- Sweeping is invisible ----

  /** Two limiters that agree on a call's key agree on its decision, and keep agreeing. */
  lemma SameAfterAllow(c: Meter, a: Buckets, b: Buckets, call: Call, key: string, t: real)
    requires Fair(c) && call.AllowN? && call.at <= t && Sound(c, a, call.at) && Sound(c, b, call.at)
    requires Level(c, a, call.key, call.at) == Level(c, b, call.key, call.at) && Level(c, a, key, t) == Level(c, b, key, t)
    ensures AfterAllow(c, a, call.key, call.n, call.at).1 == AfterAllow(c, b, call.key, call.n, call.at).1
    ensures Level(c, AfterAllow(c, a, call.key, call.n, call.at).0, key, t)
         == Level(c, AfterAllow(c, b, call.key, call.n, call.at).0, key, t)
  {
    AllowTakesFromLevel(c, a, call.key, call.n, call.at, key, t);
    AllowTakesFromLevel(c, b, call.key, call.n, call.at, key, t);
  }

  /** One call, carried out by a limiter that sweeps and one that does not. */
  lemma SameStep(c: Meter, calls: seq<Call>, a: Run, b: Run, i: nat, key: string, t: real)
    requires Fair(c) && Patient(c) && Ordered(calls) && IsRun(c, calls, true, a) && IsRun(c, calls, false, b)
    requires i < |calls| && calls[i].at <= t && Sound(c, a.states[i], calls[i].at) && Sound(c, b.states[i], calls[i].at)
    requires Level(c, a.states[i], key, t) == Level(c, b.states[i], key, t)
    requires calls[i].AllowN? ==> Level(c, a.states[i], calls[i].key, calls[i].at) == Level(c, b.states[i], calls[i].key, calls[i].at)
    ensures Level(c, a.states[i + 1], key, t) == Level(c, b.states[i + 1], key, t)
    ensures calls[i].AllowN? ==> a.decisions[i] == b.decisions[i]
  {
    assert StepAt(c, calls, true, a, i) && StepAt(c, calls, false, b, i);
    if calls[i].AllowN? {
      SameAfterAllow(c, a.states[i], b.states[i], calls[i], key, t);
    } else {
      SweepKeepsLevel(c, a.states[i], calls[i].at, key, t);
    }
  }

  /** Swept or not, every key finds the same level from now on. */
  lemma {:induction false} SameLevels(c: Meter, calls: seq<Call>, a: Run, b: Run, i: nat, key: string, t: real)
    requires Fair(c) && Patient(c) && Ordered(calls) && IsRun(c, calls, true, a) && IsRun(c, calls, false, b)
    requires i <= |calls| && (i > 0 ==> calls[i - 1].at <= t)
    ensures Level(c, a.states[i], key, t) == Level(c, b.states[i], key, t)
  {
    if i > 0 {
      var call := calls[i - 1];
      StatesAreSound(c, calls, true, a, i - 1, call.at);
      StatesAreSound(c, calls, false, b, i - 1, call.at);
      SameLevels(c, calls, a, b, i - 1, key, t);
      if call.AllowN? {
        SameLevels(c, calls, a, b, i - 1, call.key, call.at);
      }
      SameStep(c, calls, a, b, i - 1, key, t);
    }
  }

  /** The same calls get the same decisions with and without sweeping. */
  ghost predicate Unnoticed(c: Meter, calls: seq<Call>, a: Run, b: Run)
  {
    Ordered(calls) && IsRun(c, calls, true, a) && IsRun(c, calls, false, b) ==>
      forall i :: 0 <= i < |calls| && calls[i].AllowN? ==> a.decisions[i] == b.decisions[i]
  }

  lemma SweepingIsUnnoticed(c: Meter, calls: seq<Call>, a: Run, b: Run)
    requires Fair(c) && Patient(c)
    ensures Unnoticed(c, calls, a, b)
  {
    if Ordered(calls) && IsRun(c, calls, true, a) && IsRun(c, calls, false, b) {
      forall i | 0 <= i < |calls| && calls[i].AllowN? ensures a.decisions[i] == b.decisions[i] {
        StatesAreSound(c, calls, true, a, i, calls[i].at);
        StatesAreSound(c, calls, false, b, i, calls[i].at);
        SameLevels(c, calls, a, b, i, calls[i].key, calls[i].at);
        SameStep(c, calls, a, b, i, calls[i].key, calls[i].at);
      }
    }
  }

  // ---- A bucket swept before it could refill ----

  /** `t` is past the idle time but too early to refill. */
  predicate TooEarly(c: Meter, t: real) {
    c.idleAfter < t && c.earn(t) < c.capacity
  }

  /** One full grant, a sweep, and another. */
  function EarlySweep(c: Meter, t: real): seq<Call> {
    [AllowN(0.0, "k", c.capacity), Sweep(t), AllowN(t, "k", c.capacity)]
  }

  function SweptRun(c: Meter, t: real): Run
  {
    var empty := map["k" := Bucket(0.0, 0.0, 0.0, 0)];
    var grant := Decision(true, 0.0, 0.0, c.capacity);
    Run([map[], empty, map[], map["k" := Bucket(0.0, t, t, 0)]], [grant, grant, grant])
  }

  function UnsweptRun(c: Meter, t: real): Run
  {
    var empty := map["k" := Bucket(0.0, 0.0, 0.0, 0)];
    var grant := Decision(true, 0.0, 0.0, c.capacity);
    var last := AfterAllow(c, empty, "k", c.capacity, t);
    Run([map[], empty, empty, last.0], [grant, grant, last.1])
  }

  lemma EarlySweepRuns(c: Meter, t: real)
    requires Fair(c) && TooEarly(c, t)
    ensures Ordered(EarlySweep(c, t))
    ensures IsRun(c, EarlySweep(c, t), true, SweptRun(c, t))
    ensures IsRun(c, EarlySweep(c, t), false, UnsweptRun(c, t))
    ensures !UnsweptRun(c, t).decisions[2].allowed
  {
    var calls, r, u := EarlySweep(c, t), SweptRun(c, t), UnsweptRun(c, t);
    var empty := r.states[1];
    assert AfterAllow(c, map[], "k", c.capacity, 0.0).0 == empty;
    assert AfterSweep(c.idleAfter, empty, t) == map[];
    assert AfterAllow(c, map[], "k", c.capacity, t).0 == r.states[3];
    assert StepAt(c, calls, true, r, 0) && StepAt(c, calls, true, r, 1) && StepAt(c, calls, true, r, 2);
    assert StepAt(c, calls, false, u, 0) && StepAt(c, calls, false, u, 1) && StepAt(c, calls, false, u, 2);
  }

  // ---- The grant bound ----

  function Granted(call: Call, d: Decision, key: string): real {
    if call.AllowN? && call.key == key && d.allowed then call.n else 0.0
  }

  /** What `key` was granted by the calls from `i` up to `j`. */
  function Grants(calls: seq<Call>, r: Run, key: string, i: nat, j: nat): real
    requires i <= j <= |calls| == |r.decisions|
  {
    if i == j then 0.0 else Grants(calls, r, key, i, j - 1) + Granted(calls[j - 1], r.decisions[j - 1], key)
  }

  /** What a call grants and what it leaves come out of the level it found. */
  lemma CallSpendsLevel(c: Meter, sweeps: bool, m: Buckets, call: Call, v: Buckets, d: Decision, key: string, t: real)
    requires Fair(c) && (sweeps ==> Patient(c)) && Sound(c, m, call.at) && call.at <= t && Does(c, sweeps, m, call, v, d)
    ensures Granted(call, d, key) + Level(c, v, key, t) <= Level(c, m, key, call.at) + c.earn(t - call.at)
  {
    LevelGrows(c, m, key, call.at, t);
    if call.AllowN? {
      AllowTakesFromLevel(c, m, call.key, call.n, call.at, key, t);
    } else if sweeps {
      SweepKeepsLevel(c, m, call.at, key, t);
    }
  }

  /** What was granted and what is left fit the capacity and the refill. */
  lemma {:induction false} GrantsWithin(c: Meter, calls: seq<Call>, sweeps: bool, r: Run, key: string, i: nat, j: nat, t: real)
    requires Fair(c) && (sweeps ==> Patient(c)) && Ordered(calls) && IsRun(c, calls, sweeps, r)
    requires i < j <= |calls| && calls[j - 1].at <= t
    ensures Grants(calls, r, key, i, j) + Level(c, r.states[j], key, t) <= c.capacity + c.earn(t - calls[i].at)
  {
    var k, at := j - 1, calls[j - 1].at;
    StatesAreSound(c, calls, sweeps, r, k, at);
    if i < k {
      GrantsWithin(c, calls, sweeps, r, key, i, k, at);
    } else {
      FindsLevel(c, r.states[k], key, at);
    }
    assert StepAt(c, calls, sweeps, r, k);
    CallSpendsLevel(c, sweeps, r.states[k], calls[k], r.states[j], r.decisions[k], key, t);
    assert Adds(c, at - calls[i].at, t - at);
    assert (at - calls[i].at) + (t - at) == t - calls[i].at;
  }

  lemma GrantsBetween(c: Meter, calls: seq<Call>, sweeps: bool, r: Run, key: string, i: nat, j: nat)
    requires Fair(c) && (sweeps ==> Patient(c)) && Ordered(calls) && IsRun(c, calls, sweeps, r) && i < j <= |calls|
    ensures Grants(calls, r, key, i, j) <= c.capacity + c.earn(calls[j - 1].at - calls[i].at)
  {
    var t := calls[j - 1].at;
    GrantsWithin(c, calls, sweeps, r, key, i, j, t);
    StatesAreSound(c, calls, sweeps, r, j, t);
    FindsLevel(c, r.states[j], key, t);
  }

  // ---- The limiter with a constant rate ----

  lemma MeterIsFair(c: Config)
    requires Positive(c)
    ensures Fair(MeterOf(c))
  {
  }

  /** An idle bucket has had time to fill up. */
  predicate IdlesLongEnough(c: Config) {
    c.idleAfter * c.rate >= c.capacity
  }

  lemma TooEarlyExists(c: Config) returns (t: real)
    requires Positive(c) && !IdlesLongEnough(c)
    ensures TooEarly(MeterOf(c), t)
  {
    var full := c.capacity / c.rate;
    assert full * c.rate == c.capacity;
    Halfway(c.idleAfter, full, c.rate);
    t := (c.idleAfter + full) / 2.0;
  }

  lemma Halfway(a: real, b: real, r: real)
    requires r > 0.0 && a * r < b * r
    ensures a < (a + b) / 2.0 && (a + b) / 2.0 * r < b * r
  {
  }

  /** No decision ever depends on sweeping if and only if the idle time is long enough to fill
      an empty bucket. */
  lemma SweepingIsInvisibleExactly(c: Config)
    requires Positive(c)
    ensures IdlesLongEnough(c) <==> forall calls: seq<Call>, a: Run, b: Run :: Unnoticed(MeterOf(c), calls, a, b)
  {
    MeterIsFair(c);
    if IdlesLongEnough(c) {
      forall calls: seq<Call>, a: Run, b: Run ensures Unnoticed(MeterOf(c), calls, a, b) {
        SweepingIsUnnoticed(MeterOf(c), calls, a, b);
      }
    } else {
      var t := TooEarlyExists(c);
      EarlySweepRuns(MeterOf(c), t);
      assert !Unnoticed(MeterOf(c), EarlySweep(MeterOf(c), t), SweptRun(MeterOf(c), t), UnsweptRun(MeterOf(c), t));
    }
  }

  /** Between any two calls of a run, a key is granted at most the capacity and the rate's share
      of the time. */
  ghost predicate WithinBudget(c: Config, calls: seq<Call>, sweeps: bool, r: Run)
    requires c.rate != 0.0
  {
    Ordered(calls) && IsRun(MeterOf(c), calls, sweeps, r) ==>
      forall key, i, j :: 0 <= i < j <= |calls| ==>
        Grants(calls, r, key, i, j) <= c.capacity + (calls[j - 1].at - calls[i].at) * c.rate
  }

  lemma GrantsAreBounded(c: Config, calls: seq<Call>, sweeps: bool, r: Run)
    requires Positive(c) && (sweeps ==> IdlesLongEnough(c))
    ensures WithinBudget(c, calls, sweeps, r)
  {
    MeterIsFair(c);
    if Ordered(calls) && IsRun(MeterOf(c), calls, sweeps, r) {
      forall key, i, j | 0 <= i < j <= |calls|
        ensures Grants(calls, r, key, i, j) <= c.capacity + (calls[j - 1].at - calls[i].at) * c.rate
      {
        GrantsBetween(MeterOf(c), calls, sweeps, r, key, i, j);
      }
    }
  }

  /** The bound holds of every run with sweeping if and only if the idle time is long enough. */
  lemma GrantsAreBoundedExactly(c: Config)
    requires Positive(c)
    ensures IdlesLongEnough(c) <==> forall calls: seq<Call>, r: Run :: WithinBudget(c, calls, true, r)
  {
    if IdlesLongEnough(c) {
      forall calls: seq<Call>, r: Run ensures WithinBudget(c, calls, true, r) {
        GrantsAreBounded(c, calls, true, r);
      }
    } else {
      MeterIsFair(c);
      var t := TooEarlyExists(c);
      EarlySweepRuns(MeterOf(c), t);
      var calls, r := EarlySweep(MeterOf(c), t), SweptRun(MeterOf(c), t);
      assert Grants(calls, r, "k", 0, 1) == c.capacity;
      assert Grants(calls, r, "k", 0, 2) == c.capacity;
      assert Grants(calls, r, "k", 0, 3) == c.capacity + c.capacity;
      assert calls[2].at - calls[0].at == t;
      assert !WithinBudget(c, calls, true, r);
    }
  }
}
