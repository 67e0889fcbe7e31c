/**
 A worker's pass: it reads the clock once, claims with that reading, and attempts what it was
 handed one after the other. Every lease of a pass runs from its start, so how late a delivery
 comes in the pass decides whether it can be completed in time.
 */
module Passes {
  import opened Deliveries
  import opened ClaimQueue
  import opened Dispatcher
  import opened DeliveryRuns
  import opened DeliveryLeases

  /** Step `k` completes a delivery that the pass begun in world `start` was handed. */
  ghost predicate DoneInPass(ws: seq<World>, steps: seq<Step>, start: nat, lease: Time, k: nat)
    requires |ws| == |steps| + 1
  {
    && start <= k < |steps| && steps[k].Complete?
    && exists m :: start <= m < k && ClaimedInPass(ws, steps, start, lease, m, steps[k].token)
  }

  /** Step `m` claims for the pass and hands out `token`. */
  predicate ClaimedInPass(ws: seq<World>, steps: seq<Step>, start: nat, lease: Time, m: nat, token: nat)
    requires |ws| == |steps| + 1 && start <= m < |steps|
  {
    && steps[m].Claim? && steps[m].now == ws[start].clock && steps[m].lease == lease
    && |ws[m].handed| <= token < |ws[m + 1].handed|
  }

  /** When the pass got to its delivery number `i`. */
  function Previous(ws: seq<World>, start: nat, at: seq<nat>, i: nat): Time
    requires start < |ws| && i <= |at| && forall j :: 0 <= j < |at| ==> at[j] < |ws|
  {
    if i == 0 then ws[start].clock else ws[at[i - 1]].clock
  }

  /** The completions `at`, in order, are of a pass begun in world `start`, in which no delivery
      takes longer than `most`. */
  ghost predicate Pass(ws: seq<World>, steps: seq<Step>, start: nat, most: Time, lease: Time, at: seq<nat>)
    requires |ws| == |steps| + 1
  {
    && start < |ws|
    && (forall i :: 0 <= i < |at| ==> at[i] < |steps|)
    && (forall i, j :: 0 <= i < j < |at| ==> at[i] < at[j])
    && (forall i {:trigger DoneInPass(ws, steps, start, lease, at[i])} :: 0 <= i < |at| ==> DoneInPass(ws, steps, start, lease, at[i]))
    && (forall i :: 0 <= i < |at| ==> PacedAt(ws, start, most, at, i))
  }

  predicate PacedAt(ws: seq<World>, start: nat, most: Time, at: seq<nat>, i: nat)
    requires start < |ws| && i < |at| && forall j :: 0 <= j < |at| ==> at[j] < |ws|
  {
    ws[at[i]].clock <= Previous(ws, start, at, i) + most
  }

  /** `n` times `t`. */
  function Times(n: nat, t: Time): Time {
    if n == 0 then 0 else Times(n - 1, t) + t
  }

  lemma {:induction false} TimesIsProduct(n: nat, t: Time)
    ensures Times(n, t) == n * t
  {
    if n > 0 {
      TimesIsProduct(n - 1, t);
      assert n * t == (n - 1) * t + t;
    }
  }

  predicate InTimeAt(ws: seq<World>, steps: seq<Step>, k: nat)
    requires |ws| == |steps| + 1 && k < |steps|
  {
    steps[k].Complete? && steps[k].token < |ws[k].handed| ==> ws[k].clock <= ws[k].handed[steps[k].token].expiry
  }

  // ---- Early deliveries are in time ----

  lemma {:induction false} LeasesStand(c: Config, ws: seq<World>, steps: seq<Step>, start: nat, lease: Time, m: nat, k: nat, token: nat)
    requires Run(c, ws, steps) && start <= m < k < |ws| && ClaimedInPass(ws, steps, start, lease, m, token)
    ensures token < |ws[k].handed| && ws[k].handed[token].expiry == ws[start].clock + lease
    decreases k
  {
    assert StepAt(c, ws, steps, k - 1);
    if m < k - 1 {
      LeasesStand(c, ws, steps, start, lease, m, k - 1, token);
      NextHandsOn(c, ws[k - 1], steps[k - 1], ws[k]);
    } else {
      RunsAreExclusive(c, ws, steps, m);
      HandedOut(c, ws[m], steps[m], ws[k], token);
    }
  }

  lemma {:induction false} PassIsPaced(ws: seq<World>, steps: seq<Step>, start: nat, most: Time, lease: Time, at: seq<nat>, i: nat)
    requires |ws| == |steps| + 1 && Pass(ws, steps, start, most, lease, at) && i < |at|
    ensures ws[at[i]].clock <= ws[start].clock + Times(i + 1, most)
  {
    assert PacedAt(ws, start, most, at, i);
    if i > 0 {
      PassIsPaced(ws, steps, start, most, lease, at, i - 1);
    }
  }

  /** Delivery number `j` of a pass is completed in time if `j` times the longest attempt fits the lease. */
  lemma EarlyInThePass(c: Config, ws: seq<World>, steps: seq<Step>, start: nat, most: Time, lease: Time, at: seq<nat>, j: nat)
    requires Run(c, ws, steps) && Pass(ws, steps, start, most, lease, at) && 1 <= j <= |at| && Times(j, most) <= lease
    ensures at[j - 1] < |steps| && InTimeAt(ws, steps, at[j - 1])
  {
    var k := at[j - 1];
    assert DoneInPass(ws, steps, start, lease, k);
    var m :| start <= m < k && ClaimedInPass(ws, steps, start, lease, m, steps[k].token);
    LeasesStand(c, ws, steps, start, lease, m, k, steps[k].token);
    PassIsPaced(ws, steps, start, most, lease, at, j - 1);
  }

  /** Step `k` completes delivery number `j` of a pass, early enough. */
  ghost predicate EarlyIn(ws: seq<World>, steps: seq<Step>, most: Time, lease: Time, k: nat, start: nat, at: seq<nat>, j: nat)
    requires |ws| == |steps| + 1
  {
    Pass(ws, steps, start, most, lease, at) && 1 <= j <= |at| && at[j - 1] == k && j * most <= lease
  }

  ghost predicate EarlyAt(ws: seq<World>, steps: seq<Step>, most: Time, lease: Time, k: nat)
    requires |ws| == |steps| + 1
  {
    exists start: nat, at: seq<nat>, j: nat :: EarlyIn(ws, steps, most, lease, k, start, at, j)
  }

  /** A delivery that every pass gets to early enough is always completed in time. */
  lemma EarlyPassesAreInTime(c: Config, ws: seq<World>, steps: seq<Step>, id: int, most: Time, lease: Time)
    requires Run(c, ws, steps)
    requires forall k :: 0 <= k < |steps| && CompletesId(ws[k], steps[k], id) ==> EarlyAt(ws, steps, most, lease, k)
    ensures InTime(ws, steps, id)
  {
    forall k | 0 <= k < |steps| ensures Timely(ws, steps, id, k) {
      if CompletesId(ws[k], steps[k], id) {
        var start: nat, at: seq<nat>, j: nat :| EarlyIn(ws, steps, most, lease, k, start, at, j);
        TimesIsProduct(j, most);
        EarlyInThePass(c, ws, steps, start, most, lease, at, j);
      }
    }
  }

  // ---- A pass that takes its time ----

  const BUSY := Config(_ => 0, _ => "t", _ => DefaultRetryPolicy(), false)
  const EVENT := Event("e", "t", "r")

  function Name(i: nat): (s: string)
    ensures |s| == i
  {
    seq(i, _ => 'd')
  }

  function Names(n: nat): (r: seq<string>)
    ensures |r| == n && forall i :: 0 <= i < n ==> r[i] == Name(i)
  {
    seq(n, i requires 0 <= i < n => Name(i))
  }

  function Numbers(n: nat): (r: seq<int>)
    ensures |r| == n && forall i :: 0 <= i < n ==> r[i] == i + 1
  {
    seq(n, i requires 0 <= i < n => i + 1)
  }

  function Each(id: int): Delivery
    requires 1 <= id
  {
    Delivery(id, "t", "e", Name(id - 1), "r", 0, 1, 0, Pending, None, 0)
  }

  ghost function All(n: nat): map<int, Delivery> {
    map id | 1 <= id <= n :: Each(id)
  }

  /** One pending delivery to each of `n` destinations. */
  ghost function Waiting0(n: nat): Queue {
    Queue(All(n), map[], map["t|r" := 1], map["e" := EVENT], n)
  }

  ghost function Claimed0(n: nat, lease: Time): Queue {
    Queue(map id | id in All(n) :: Leased(Each(id)), map id | id in All(n) :: lease, map["t|r" := 1], map["e" := EVENT], n)
  }

  lemma KeysDiffer(n: nat, i: int, j: int)
    requires 1 <= i <= n && 1 <= j <= n && i != j
    ensures KeyOf(Waiting0(n), Each(i)) != KeyOf(Waiting0(n), Each(j))
  {
    assert |KeyOf(Waiting0(n), Each(i))| == i - 1 + 2 && |KeyOf(Waiting0(n), Each(j))| == j - 1 + 2;
  }

  lemma AllAreChosen(n: nat)
    ensures Selects(Waiting0(n), 0, 0, n, Numbers(n))
  {
    var q := Waiting0(n);
    forall id | 1 <= id <= n ensures Winner(q, 0, 0, id) {
      forall j | Due(q, 0, 0, j) && j != id ensures KeyOf(q, q.deliveries[j]) != KeyOf(q, q.deliveries[id]) {
        KeysDiffer(n, id, j);
      }
    }
    assert forall w :: Winner(q, 0, 0, w) ==> w == Numbers(n)[w - 1];
  }

  /** The claim of all of them. */
  lemma BigClaim(n: nat, lease: Time)
    requires 1 <= n && 0 < lease
    ensures Claims(BUSY, World(Waiting0(n), 0, []), Claim(0, 0, n, lease, Numbers(n)),
                   World(Claimed0(n, lease), 0, Handouts(Waiting0(n), Numbers(n), lease)))
  {
    AllAreChosen(n);
    assert forall id :: id in Numbers(n) <==> 1 <= id <= n by {
      forall id | 1 <= id <= n ensures id in Numbers(n) {
        assert Numbers(n)[id - 1] == id;
      }
    }
    assert Claimed(Waiting0(n), Numbers(n), lease, Claimed0(n, lease));
    assert [] + Handouts(Waiting0(n), Numbers(n), lease) == Handouts(Waiting0(n), Numbers(n), lease);
  }

  lemma BigEnqueue(n: nat)
    ensures Enqueues(BUSY, World(Queue(map[], map[], map[], map["e" := EVENT], 0), 0, []), Enqueue(EVENT, Names(n)),
                     World(Waiting0(n), 0, []))
  {
    assert SequenceKey("t", "r") == "t|r";
  }

  /** The worker is done with the first `j` of its `n` deliveries, each of which took `most`. */
  ghost predicate SlowPass(ws: seq<World>, steps: seq<Step>, n: nat, most: Time, lease: Time, at: seq<nat>, j: nat) {
    && Run(BUSY, ws, steps) && |at| == j <= n && 3 <= |steps|
    && Pass(ws, steps, 2, most, lease, at) && ws[2].clock == 0
    && steps[2] == Claim(0, 0, n, lease, Numbers(n)) && |ws[2].handed| == 0 && |ws[3].handed| == n
    && (forall i :: 0 <= i < j ==> ws[at[i]].clock == Times(i + 1, most))
    && SlowEnd(ws[|steps|], n, most, j)
  }

  ghost predicate SlowEnd(w: World, n: nat, most: Time, j: nat) {
    && w.clock == Times(j, most) && |w.handed| == n
    && (forall t :: 0 <= t < n ==> w.handed[t].snapshot.id == t + 1 && (w.handed[t].done <==> t < j))
    && (forall id :: 1 <= id <= n ==> id in w.q.deliveries)
  }

  lemma AllEnqueued(n: nat) returns (ws: seq<World>, steps: seq<Step>)
    ensures Run(BUSY, ws, steps) && |steps| == 2 && ws[2] == World(Waiting0(n), 0, [])
  {
    var stored := World(Queue(map[], map[], map[], map["e" := EVENT], 0), 0, []);
    ExtendRun(BUSY, [START], [], PutEvent(EVENT), stored);
    ws, steps := [START] + [stored], [] + [PutEvent(EVENT)];
    BigEnqueue(n);
    ExtendRun(BUSY, ws, steps, Enqueue(EVENT, Names(n)), World(Waiting0(n), 0, []));
    ws, steps := ws + [World(Waiting0(n), 0, [])], steps + [Enqueue(EVENT, Names(n))];
  }

  lemma SlowPassBegins(n: nat, most: Time, lease: Time) returns (ws: seq<World>, steps: seq<Step>)
    requires 1 <= n && 0 < lease
    ensures SlowPass(ws, steps, n, most, lease, [], 0)
  {
    ws, steps := AllEnqueued(n);
    BigClaim(n, lease);
    NothingDone(n, most, lease);
    ws, steps := FirstOfPass(ws, steps, n, most, lease,
                             World(Claimed0(n, lease), 0, Handouts(Waiting0(n), Numbers(n), lease)));
  }

  lemma FirstOfPass(before: seq<World>, ss: seq<Step>, n: nat, most: Time, lease: Time, v: World)
    returns (ws: seq<World>, steps: seq<Step>)
    requires Run(BUSY, before, ss) && |ss| == 2 && before[2].clock == 0 && before[2].handed == []
    requires Claims(BUSY, before[2], Claim(0, 0, n, lease, Numbers(n)), v) && SlowEnd(v, n, most, 0)
    ensures SlowPass(ws, steps, n, most, lease, [], 0)
  {
    var s := Claim(0, 0, n, lease, Numbers(n));
    ExtendRun(BUSY, before, ss, s, v);
    ws, steps := before + [v], ss + [s];
  }

  lemma NothingDone(n: nat, most: Time, lease: Time)
    ensures SlowEnd(World(Claimed0(n, lease), 0, Handouts(Waiting0(n), Numbers(n), lease)), n, most, 0)
  {
  }

  /** More steps leave a pass a pass. */
  lemma PassExtends(ws: seq<World>, steps: seq<Step>, s: Step, v: World, start: nat, most: Time, lease: Time, at: seq<nat>)
    requires |ws| == |steps| + 1 && Pass(ws, steps, start, most, lease, at)
    ensures Pass(ws + [v], steps + [s], start, most, lease, at)
  {
    forall i | 0 <= i < |at| ensures DoneInPass(ws + [v], steps + [s], start, lease, at[i]) {
      var k := at[i];
      assert DoneInPass(ws, steps, start, lease, k);
      var m :| start <= m < k && ClaimedInPass(ws, steps, start, lease, m, steps[k].token);
      assert ClaimedInPass(ws + [v], steps + [s], start, lease, m, (steps + [s])[k].token);
    }
    forall i | 0 <= i < |at| ensures PacedAt(ws + [v], start, most, at, i) {
      assert PacedAt(ws, start, most, at, i);
    }
  }

  lemma TickPass(ws: seq<World>, steps: seq<Step>, n: nat, most: Time, lease: Time, at: seq<nat>, j: nat)
    requires SlowPass(ws, steps, n, most, lease, at, j) && 0 <= most
    ensures var w := ws[|steps|];
            var t := Times(j + 1, most);
            && Run(BUSY, ws + [w.(clock := t)], steps + [Tick(t)])
            && Pass(ws + [w.(clock := t)], steps + [Tick(t)], 2, most, lease, at)
  {
    var w, t := ws[|steps|], Times(j + 1, most);
    ExtendRun(BUSY, ws, steps, Tick(t), w.(clock := t));
    PassExtends(ws, steps, Tick(t), w.(clock := t), 2, most, lease, at);
  }

  /** The completion at step `k` is the next one of the pass. */
  lemma PassGrows(ws: seq<World>, steps: seq<Step>, n: nat, most: Time, lease: Time, at: seq<nat>, j: nat, k: nat)
    requires |ws| == |steps| + 1 && Pass(ws, steps, 2, most, lease, at) && |at| == j < n && 3 <= k < |steps|
    requires steps[2] == Claim(0, 0, n, lease, Numbers(n)) && ws[2].clock == 0 && |ws[2].handed| == 0 && |ws[3].handed| == n
    requires forall i :: 0 <= i < j ==> at[i] < k && ws[at[i]].clock == Times(i + 1, most)
    requires steps[k] == Refusal(j) && ws[k].clock == Times(j + 1, most)
    ensures Pass(ws, steps, 2, most, lease, at + [k])
  {
    assert ClaimedInPass(ws, steps, 2, lease, 2, steps[k].token);
    assert DoneInPass(ws, steps, 2, lease, k);
    var all := at + [k];
    forall i | 0 <= i < |all| ensures PacedAt(ws, 2, most, all, i) {
      if i < j {
        assert PacedAt(ws, 2, most, at, i);
      }
    }
  }

  function Refusal(token: nat): Step {
    Complete(token, true, true, Response(404), true, None)
  }

  /** One more delivery, which takes `most`. */
  lemma SlowPassGoesOn(ws: seq<World>, steps: seq<Step>, n: nat, most: Time, lease: Time, at: seq<nat>, j: nat)
    returns (ws': seq<World>, steps': seq<Step>, at': seq<nat>)
    requires SlowPass(ws, steps, n, most, lease, at, j) && j < n && 0 <= most
    ensures SlowPass(ws', steps', n, most, lease, at', j + 1)
  {
    TickPass(ws, steps, n, most, lease, at, j);
    var w := ws[|steps|].(clock := Times(j + 1, most));
    var ticked, ticks := ws + [w], steps + [Tick(w.clock)];
    var s := Refusal(j);
    var d := Result(BUSY, w, s);
    var v := World(Completed(w.q, d), w.clock, w.handed[j := w.handed[j].(done := true)]);
    assert d.id == j + 1;
    ExtendRun(BUSY, ticked, ticks, s, v);
    PassExtends(ticked, ticks, s, v, 2, most, lease, at);
    ws', steps', at' := ticked + [v], ticks + [s], at + [|ticks|];
    PassGrows(ws', steps', n, most, lease, at, j, |ticks|);
    assert SlowEnd(v, n, most, j + 1);
  }

  lemma {:induction false} SlowPassOf(n: nat, j: nat, most: Time, lease: Time)
    returns (ws: seq<World>, steps: seq<Step>, at: seq<nat>)
    requires 1 <= n && j <= n && 0 <= most && 0 < lease
    ensures SlowPass(ws, steps, n, most, lease, at, j)
  {
    if j == 0 {
      ws, steps := SlowPassBegins(n, most, lease);
      at := [];
    } else {
      ws, steps, at := SlowPassOf(n, j - 1, most, lease);
      ws, steps, at := SlowPassGoesOn(ws, steps, n, most, lease, at, j - 1);
    }
  }

  /** In a pass that takes its time, the last delivery is late if the pass is longer than the lease. */
  lemma LateInThePass(ws: seq<World>, steps: seq<Step>, n: nat, most: Time, lease: Time, at: seq<nat>)
    requires 1 <= n && SlowPass(ws, steps, n, most, lease, at, n) && lease < Times(n, most)
    ensures !InTimeAt(ws, steps, at[n - 1])
  {
    var k := at[n - 1];
    assert DoneInPass(ws, steps, 2, lease, k);
    var m :| 2 <= m < k && ClaimedInPass(ws, steps, 2, lease, m, steps[k].token);
    LeasesStand(BUSY, ws, steps, 2, lease, m, k, steps[k].token);
  }

  /** In this run and pass, delivery number `j` is completed in time. */
  ghost predicate JthIsInTime(c: Config, ws: seq<World>, steps: seq<Step>, start: nat, at: seq<nat>, most: Time, lease: Time, j: nat) {
    !c.strict && Run(c, ws, steps) && Pass(ws, steps, start, most, lease, at) && 1 <= j <= |at| ==> InTimeAt(ws, steps, at[j - 1])
  }

  /** Delivery number `j` of a pass is completed in time, in every run and whatever the attempts
      take up to `most`, if and only if `j` times `most` fits the lease. */
  lemma InTimeExactlyIfEarly(most: Time, lease: Time, j: nat)
    requires 0 <= most && 0 < lease && 1 <= j
    ensures (forall c: Config, ws: seq<World>, steps: seq<Step>, start: nat, at: seq<nat> ::
               JthIsInTime(c, ws, steps, start, at, most, lease, j))
       <==> j * most <= lease
  {
    TimesIsProduct(j, most);
    if j * most <= lease {
      forall c: Config, ws: seq<World>, steps: seq<Step>, start: nat, at: seq<nat>
        ensures JthIsInTime(c, ws, steps, start, at, most, lease, j)
      {
        if !c.strict && Run(c, ws, steps) && Pass(ws, steps, start, most, lease, at) && 1 <= j <= |at| {
          EarlyInThePass(c, ws, steps, start, most, lease, at, j);
        }
      }
    } else {
      var ws, steps, at := SlowPassOf(j, j, most, lease);
      LateInThePass(ws, steps, j, most, lease, at);
      assert !JthIsInTime(BUSY, ws, steps, 2, at, most, lease, j);
    }
  }

  const DEFAULT_LEASE: Time := 2 * MINUTE

  /** With the default lease and the default timeout as the longest attempt, a pass is sure of its
      first twelve deliveries and of no more, though it may claim 32 from each shard. */
  lemma DefaultsCoverTwelve(j: nat)
    requires 1 <= j
    ensures (forall c: Config, ws: seq<World>, steps: seq<Step>, start: nat, at: seq<nat> ::
               JthIsInTime(c, ws, steps, start, at, DefaultRetryPolicy().timeout, DEFAULT_LEASE, j))
       <==> j <= 12
  {
    InTimeExactlyIfEarly(DefaultRetryPolicy().timeout, DEFAULT_LEASE, j);
  }
}
