/**
 Runs that show what the protocol does not promise: a later event overtakes a waiting one, a
 completion after its lease reopens a finished delivery or puts two workers on one key, and
 failures to resolve a secret use up the whole budget.
 */
module Witnesses {
  import opened Deliveries
  import opened ClaimQueue
  import opened Dispatcher
  import opened DeliveryRuns
  import opened DeliveryLeases
  import opened DeliveryBudget
  import B = Breakers
  import O = Outages

  // ---- Building runs ----

  /** A world in which one tenant's destination `d` has had two events about reference `r` at most. */
  function Demo(p: RetryPolicy): Config {
    Config(_ => 0, _ => "t", _ => p, false)
  }

  const EVENT1 := Event("e1", "t", "r")
  const EVENT2 := Event("e2", "t", "r")
  const FIRST := Delivery(1, "t", "e1", "d", "r", 0, 1, 0, Pending, None, 0)
  const LATER := Delivery(2, "t", "e2", "d", "r", 0, 2, 0, Pending, None, 0)

  /** The queue holding one delivery of the first event. */
  function One(d: Delivery, leases: map<int, Time>): Queue {
    Queue(map[1 := d], leases, map["t|r" := 1], map["e1" := EVENT1], 1)
  }

  /** The queue holding a delivery of each event. */
  function Two(a: Delivery, b: Delivery, leases: map<int, Time>): Queue {
    Queue(map[1 := a, 2 := b], leases, map["t|r" := 2], map["e1" := EVENT1, "e2" := EVENT2], 2)
  }

  lemma OnlyWinner(q: Queue, shard: int, now: Time, id: int)
    requires Winner(q, shard, now, id) && forall j :: j != id ==> !Due(q, shard, now, j)
    ensures Selects(q, shard, now, 1, [id])
  {
  }

  /** The first event stored and its delivery enqueued. */
  lemma Enqueued1(p: RetryPolicy) returns (ws: seq<World>, steps: seq<Step>)
    ensures Run(Demo(p), ws, steps) && ws[|steps|] == World(One(FIRST, map[]), 0, [])
    ensures forall k :: 0 <= k < |steps| ==> !steps[k].Complete?
  {
    var c, stored := Demo(p), World(Queue(map[], map[], map[], map["e1" := EVENT1], 0), 0, []);
    ExtendRun(c, [START], [], PutEvent(EVENT1), stored);
    ws, steps := [START] + [stored], [] + [PutEvent(EVENT1)];
    assert SequenceKey("t", "r") == "t|r";
    ExtendRun(c, ws, steps, Enqueue(EVENT1, ["d"]), World(One(FIRST, map[]), 0, []));
    ws, steps := ws + [World(One(FIRST, map[]), 0, [])], steps + [Enqueue(EVENT1, ["d"])];
  }

  function Handed(d: Delivery, now: Time): Handout {
    Handout(Leased(d), now + MINUTE, false)
  }

  /** A claim of the only delivery, which is due and not live. */
  lemma ClaimStep(p: RetryPolicy, d: Delivery, leases: map<int, Time>, now: Time, handed: seq<Handout>)
    requires SameIdentity(d, FIRST) && !IsTerminal(d.status) && !Waiting(d, now)
    requires leases.Keys <= {1} && (d.status == InFlight ==> 1 in leases && leases[1] < now)
    ensures Next(Demo(p), World(One(d, leases), now, handed), Claim(0, now, 1, MINUTE, [1]),
                 World(One(Leased(d), map[1 := now + MINUTE]), now, handed + [Handed(d, now)]))
  {
    var q, v := One(d, leases), One(Leased(d), map[1 := now + MINUTE]);
    assert Winner(q, 0, now, 1);
    OnlyWinner(q, 0, now, 1);
    assert Handouts(q, [1], now + MINUTE) == [Handed(d, now)];
    assert Claimed(q, [1], now + MINUTE, v);
  }

  lemma ClaimOne(p: RetryPolicy, d: Delivery, leases: map<int, Time>, now: Time, handed: seq<Handout>,
                 ws: seq<World>, steps: seq<Step>)
    requires Run(Demo(p), ws, steps) && ws[|steps|] == World(One(d, leases), now, handed)
    requires SameIdentity(d, FIRST) && !IsTerminal(d.status) && !Waiting(d, now)
    requires leases.Keys <= {1} && (d.status == InFlight ==> 1 in leases && leases[1] < now)
    ensures Run(Demo(p), ws + [World(One(Leased(d), map[1 := now + MINUTE]), now, handed + [Handed(d, now)])],
                steps + [Claim(0, now, 1, MINUTE, [1])])
  {
    ClaimStep(p, d, leases, now, handed);
    ExtendRun(Demo(p), ws, steps, Claim(0, now, 1, MINUTE, [1]),
              World(One(Leased(d), map[1 := now + MINUTE]), now, handed + [Handed(d, now)]));
  }

  /** A completion of the only delivery. */
  lemma CompleteStep(p: RetryPolicy, w: World, d: Delivery, leases: map<int, Time>, s: Step, r: Delivery)
    requires w.q == One(d, leases) && leases.Keys <= {1} && d.createdAt == 0
    requires s.Complete? && s.token < |w.handed| && !w.handed[s.token].done && SameIdentity(w.handed[s.token].snapshot, FIRST)
    requires r == Result(Demo(p), w, s)
    ensures Next(Demo(p), w, s, World(One(r, map[]), w.clock, w.handed[s.token := w.handed[s.token].(done := true)]))
  {
    SettleKeepsIdentity(w.handed[s.token].snapshot, p, Judge(s.found, s.allowed, s.result), s.closed, w.clock, s.roll);
    assert (leases - {1}).Keys == {};
    assert map[1 := d][1 := r] == map[1 := r];
    assert Completed(One(d, leases), r) == One(r, map[]);
  }

  lemma CompleteOne(p: RetryPolicy, d: Delivery, leases: map<int, Time>, now: Time, handed: seq<Handout>, s: Step, r: Delivery,
                    ws: seq<World>, steps: seq<Step>)
    requires Run(Demo(p), ws, steps) && ws[|steps|] == World(One(d, leases), now, handed)
    requires leases.Keys <= {1} && d.createdAt == 0
    requires s.Complete? && s.token < |handed| && !handed[s.token].done && SameIdentity(handed[s.token].snapshot, FIRST)
    requires r == Result(Demo(p), ws[|steps|], s)
    ensures Run(Demo(p), ws + [World(One(r, map[]), now, handed[s.token := handed[s.token].(done := true)])], steps + [s])
  {
    CompleteStep(p, ws[|steps|], d, leases, s, r);
    ExtendRun(Demo(p), ws, steps, s, World(One(r, map[]), now, handed[s.token := handed[s.token].(done := true)]));
  }

  function Outcome(token: nat, a: Attempt): Step {
    Complete(token, true, true, a, true, None)
  }

  // ---- A retry is overtaken ----

  const RETRYING := Leased(FIRST).(status := Failed, nextRetryAt := Some(10 * SECOND))
  const HANDOUT := Handed(FIRST, 0)

  lemma FirstAttemptFails() returns (ws: seq<World>, steps: seq<Step>)
    ensures Run(Demo(DefaultRetryPolicy()), ws, steps)
    ensures ws[|steps|] == World(One(RETRYING, map[]), 0, [HANDOUT.(done := true)])
  {
    var p := DefaultRetryPolicy();
    ws, steps := Enqueued1(p);
    ClaimOne(p, FIRST, map[], 0, [], ws, steps);
    ws, steps := ws + [World(One(Leased(FIRST), map[1 := MINUTE]), 0, [] + [HANDOUT])], steps + [Claim(0, 0, 1, MINUTE, [1])];
    CompleteOne(p, Leased(FIRST), map[1 := MINUTE], 0, [HANDOUT], Outcome(0, TransportError), RETRYING, ws, steps);
    assert [HANDOUT][0 := HANDOUT.(done := true)] == [HANDOUT.(done := true)];
    ws, steps := ws + [World(One(RETRYING, map[]), 0, [HANDOUT.(done := true)])], steps + [Outcome(0, TransportError)];
  }

  /** Two events of one transaction; the first attempt of the first one fails and waits for its
      retry; the second event is claimed meanwhile. */
  lemma ARetryIsOvertaken() returns (c: Config, ws: seq<World>, steps: seq<Step>, k: nat)
    ensures !c.strict && Run(c, ws, steps)
    ensures k < |steps| && steps[k].Claim? && 2 in steps[k].ids
    ensures 1 in ws[k].q.deliveries && 2 in ws[k].q.deliveries
    ensures var first, second := ws[k].q.deliveries[1], ws[k].q.deliveries[2];
            SameStream(first, second) && first.sequence < second.sequence && !IsTerminal(first.status)
  {
    c := Demo(DefaultRetryPolicy());
    ws, steps := FirstAttemptFails();
    var done := [HANDOUT.(done := true)];
    var stored := One(RETRYING, map[]).(events := map["e1" := EVENT1, "e2" := EVENT2]);
    ExtendRun(c, ws, steps, PutEvent(EVENT2), World(stored, 0, done));
    ws, steps := ws + [World(stored, 0, done)], steps + [PutEvent(EVENT2)];
    var both := Two(RETRYING, LATER, map[]);
    assert SequenceKey("t", "r") == "t|r";
    ExtendRun(c, ws, steps, Enqueue(EVENT2, ["d"]), World(both, 0, done));
    ws, steps := ws + [World(both, 0, done)], steps + [Enqueue(EVENT2, ["d"])];
    ClaimOfSecond(both);
    var v := World(Two(RETRYING, Leased(LATER), map[2 := MINUTE]), 0, done + [Handout(Leased(LATER), MINUTE, false)]);
    ExtendRun(c, ws, steps, Claim(0, 0, 1, MINUTE, [2]), v);
    k := |steps|;
    ws, steps := ws + [v], steps + [Claim(0, 0, 1, MINUTE, [2])];
  }

  lemma ClaimOfSecond(q: Queue)
    requires q == Two(RETRYING, LATER, map[])
    ensures Selects(q, 0, 0, 1, [2]) && Claimed(q, [2], MINUTE, Two(RETRYING, Leased(LATER), map[2 := MINUTE]))
    ensures Handouts(q, [2], MINUTE) == [Handout(Leased(LATER), MINUTE, false)]
  {
    assert Waiting(RETRYING, 0);
    assert Winner(q, 0, 0, 2);
    OnlyWinner(q, 0, 0, 2);
  }

  // ---- A lease is lost ----

  const AGAIN := Leased(Leased(FIRST))
  const LATE: Time := 2 * MINUTE
  const HANDOUT2 := Handed(Leased(FIRST), LATE)

  /** The first worker's lease runs out and a second worker claims the delivery. */
  lemma ALeaseIsLost() returns (ws: seq<World>, steps: seq<Step>)
    ensures Run(Demo(DefaultRetryPolicy()), ws, steps)
    ensures ws[|steps|] == World(One(AGAIN, map[1 := LATE + MINUTE]), LATE, [HANDOUT, HANDOUT2])
  {
    var p := DefaultRetryPolicy();
    ws, steps := Enqueued1(p);
    ClaimOne(p, FIRST, map[], 0, [], ws, steps);
    var claimed := World(One(Leased(FIRST), map[1 := MINUTE]), 0, [] + [HANDOUT]);
    ws, steps := ws + [claimed], steps + [Claim(0, 0, 1, MINUTE, [1])];
    ExtendRun(Demo(p), ws, steps, Tick(LATE), claimed.(clock := LATE));
    ws, steps := ws + [claimed.(clock := LATE)], steps + [Tick(LATE)];
    ClaimOne(p, Leased(FIRST), map[1 := MINUTE], LATE, [HANDOUT], ws, steps);
    ws, steps := ws + [World(One(AGAIN, map[1 := LATE + MINUTE]), LATE, [HANDOUT] + [HANDOUT2])],
                 steps + [Claim(0, LATE, 1, MINUTE, [1])];
  }

  /** A delivery that succeeded under its second worker is put back to `failed`, with a retry
      scheduled, by the first worker's completion after its lease ran out. */
  lemma ALateCompletionReopens() returns (c: Config, ws: seq<World>, steps: seq<Step>, k: nat)
    ensures !c.strict && Run(c, ws, steps) && k < |steps|
    ensures 1 in ws[k].q.deliveries && ws[k].q.deliveries[1].status == Succeeded
    ensures 1 in ws[k + 1].q.deliveries && ws[k + 1].q.deliveries[1].status == Failed
    ensures CompletesId(ws[k], steps[k], 1) && ws[k].handed[steps[k].token].expiry < ws[k].clock
  {
    var p := DefaultRetryPolicy();
    c := Demo(p);
    ws, steps := ALeaseIsLost();
    var good := AGAIN.(status := Succeeded);
    CompleteOne(p, AGAIN, map[1 := LATE + MINUTE], LATE, [HANDOUT, HANDOUT2], Outcome(1, Response(200)), good, ws, steps);
    var handed := [HANDOUT, HANDOUT2.(done := true)];
    assert [HANDOUT, HANDOUT2][1 := HANDOUT2.(done := true)] == handed;
    ws, steps := ws + [World(One(good, map[]), LATE, handed)], steps + [Outcome(1, Response(200))];
    var bad := RETRYING.(nextRetryAt := Some(LATE + 10 * SECOND));
    CompleteOne(p, good, map[], LATE, handed, Outcome(0, TransportError), bad, ws, steps);
    k := |steps|;
    ws, steps := ws + [World(One(bad, map[]), LATE, handed[0 := HANDOUT.(done := true)])], steps + [Outcome(0, TransportError)];
  }

  /** A completion after its lease drops the lease of the second worker, so that a third one is
      handed the same delivery while the second still holds it. */
  lemma TwoWorkersAtOnce() returns (c: Config, ws: seq<World>, steps: seq<Step>, k: nat)
    ensures !c.strict && Run(c, ws, steps) && k < |ws|
    ensures Holds(ws[k], 1, 1) && Holds(ws[k], 1, 2)
  {
    var p := DefaultRetryPolicy();
    c := Demo(p);
    ws, steps := ALeaseIsLost();
    var next := LATE + 10 * SECOND;
    var bad := RETRYING.(nextRetryAt := Some(next));
    CompleteOne(p, AGAIN, map[1 := LATE + MINUTE], LATE, [HANDOUT, HANDOUT2], Outcome(0, TransportError), bad, ws, steps);
    var handed := [HANDOUT.(done := true), HANDOUT2];
    assert [HANDOUT, HANDOUT2][0 := HANDOUT.(done := true)] == handed;
    ws, steps := ws + [World(One(bad, map[]), LATE, handed)], steps + [Outcome(0, TransportError)];
    ExtendRun(c, ws, steps, Tick(next), World(One(bad, map[]), next, handed));
    ws, steps := ws + [World(One(bad, map[]), next, handed)], steps + [Tick(next)];
    ClaimOne(p, bad, map[], next, handed, ws, steps);
    var v := World(One(Leased(bad), map[1 := next + MINUTE]), next, handed + [Handed(bad, next)]);
    ws, steps := ws + [v], steps + [Claim(0, next, 1, MINUTE, [1])];
    k := |steps|;
  }

  // ---- Secret failures ----

  lemma {:induction false} SecretFailuresSendNothing(c: Config, ws: seq<World>, steps: seq<Step>, id: int, k: nat)
    requires |ws| == |steps| + 1 && k <= |steps|
    requires forall i :: 0 <= i < |steps| && steps[i].Complete? ==> steps[i].result == SecretError
    ensures Tallied(c, ws, steps, id, k).sends == 0
  {
    if k > 0 {
      SecretFailuresSendNothing(c, ws, steps, id, k - 1);
      SecretFailureSendsNothing(c, ws[k - 1], steps[k - 1], id);
    }
  }

  lemma SecretFailureSendsNothing(c: Config, w: World, s: Step, id: int)
    requires s.Complete? ==> s.result == SecretError
    ensures Counted(c, w, s, id).sends == 0
  {
  }

  /** A delivery is dead-lettered although nothing was ever sent: each of its attempts ended for
      want of the signing secret. */
  lemma SecretFailuresBury() returns (c: Config, ws: seq<World>, steps: seq<Step>)
    ensures !c.strict && Run(c, ws, steps) && Budget(c, FIRST) == 2
    ensures forall i :: 0 <= i < |steps| && steps[i].Complete? ==> steps[i].result == SecretError
    ensures 1 in ws[|steps|].q.deliveries && ws[|steps|].q.deliveries[1].status == DeadLetter
    ensures Tallied(c, ws, steps, 1, |steps|).sends == 0
  {
    var p := RetryPolicy([0, 0], 0.0, SECOND);
    c := Demo(p);
    ws, steps := Enqueued1(p);
    ClaimOne(p, FIRST, map[], 0, [], ws, steps);
    ws, steps := ws + [World(One(Leased(FIRST), map[1 := MINUTE]), 0, [] + [HANDOUT])], steps + [Claim(0, 0, 1, MINUTE, [1])];
    var resting := Leased(FIRST).(status := Failed, nextRetryAt := Some(0));
    CompleteOne(p, Leased(FIRST), map[1 := MINUTE], 0, [HANDOUT], Outcome(0, SecretError), resting, ws, steps);
    var handed := [HANDOUT.(done := true)];
    assert [HANDOUT][0 := HANDOUT.(done := true)] == handed;
    ws, steps := ws + [World(One(resting, map[]), 0, handed)], steps + [Outcome(0, SecretError)];
    ClaimOne(p, resting, map[], 0, handed, ws, steps);
    var second := Handed(resting, 0);
    ws, steps := ws + [World(One(Leased(resting), map[1 := MINUTE]), 0, handed + [second])], steps + [Claim(0, 0, 1, MINUTE, [1])];
    CompleteOne(p, Leased(resting), map[1 := MINUTE], 0, handed + [second], Outcome(1, SecretError), Buried(Leased(resting)), ws, steps);
    ws, steps := ws + [World(One(Buried(Leased(resting)), map[]), 0, (handed + [second])[1 := second.(done := true)])],
                 steps + [Outcome(1, SecretError)];
    SecretFailuresSendNothing(c, ws, steps, 1, |steps|);
  }

  // ---- A probe answered with 404 ----

  lemma ExtendJoint(c: Config, b: B.Config, xs: seq<O.System>, ms: seq<O.Move>, m: O.Move, y: O.System)
    requires O.JointRun(c, b, xs, ms) && O.Moves(c, b, xs[|ms|], m, y)
    ensures O.JointRun(c, b, xs + [y], ms + [m])
  {
    forall k | 0 <= k <= |ms|
      ensures O.MoveAt(c, b, xs + [y], ms + [m], k)
    {
      assert k < |ms| ==> O.MoveAt(c, b, xs, ms, k);
    }
  }

  /** A breaker that trips at the first failure. */
  const TOUCHY := B.Config(1, SECOND, MINUTE)
  const NOW: Time := 10 * SECOND
  const NOT_FOUND := Complete(1, true, true, Response(404), false, None)
  const REFUSED := Complete(0, true, true, TransportError, false, None)

  lemma TouchyHistory()
    ensures var h1, h2, h3 := [B.Ask(0)], [B.Ask(0), B.Failure(0)], [B.Ask(0), B.Failure(0), B.Ask(NOW)];
            && B.Allows(B.Replay(TOUCHY, []), 0)
            && B.StateOf(B.Replay(TOUCHY, h2)) == B.Open
            && B.Allows(B.Replay(TOUCHY, h2), NOW)
            && B.StateOf(B.Replay(TOUCHY, h3)) == B.HalfOpen
            && B.Probing(TOUCHY, h3)
  {
    var h1, h2, h3 := [B.Ask(0)], [B.Ask(0), B.Failure(0)], [B.Ask(0), B.Failure(0), B.Ask(NOW)];
    assert B.Init(h1) == [] && B.Init(h2) == h1 && B.Init(h3) == h2;
    assert B.Replay(TOUCHY, h1) == None;
    assert B.Replay(TOUCHY, h2) == Some(B.Entry(B.Open, 1, 0, SECOND, SECOND, false, 1));
    B.StateFromHistory(TOUCHY, h3);
  }

  lemma TheFirstClaim() returns (xs: seq<O.System>, ms: seq<O.Move>)
    ensures O.JointRun(Demo(DefaultRetryPolicy()), TOUCHY, xs, ms)
    ensures xs[|ms|] == O.System(World(One(Leased(FIRST), map[1 := MINUTE]), 0, [HANDOUT]), map[], map[])
  {
    var c, x := Demo(DefaultRetryPolicy()), O.System(START, map[], map[]);
    xs, ms := [x], [];
    var y := x.(w := World(Queue(map[], map[], map[], map["e1" := EVENT1], 0), 0, []));
    ExtendJoint(c, TOUCHY, xs, ms, O.Do(PutEvent(EVENT1)), y);
    xs, ms := xs + [y], ms + [O.Do(PutEvent(EVENT1))];
    assert SequenceKey("t", "r") == "t|r";
    y := x.(w := World(One(FIRST, map[]), 0, []));
    ExtendJoint(c, TOUCHY, xs, ms, O.Do(Enqueue(EVENT1, ["d"])), y);
    xs, ms := xs + [y], ms + [O.Do(Enqueue(EVENT1, ["d"]))];
    ClaimStep(DefaultRetryPolicy(), FIRST, map[], 0, []);
    assert [] + [HANDOUT] == [HANDOUT];
    y := x.(w := World(One(Leased(FIRST), map[1 := MINUTE]), 0, [HANDOUT]));
    ExtendJoint(c, TOUCHY, xs, ms, O.Do(Claim(0, 0, 1, MINUTE, [1])), y);
    xs, ms := xs + [y], ms + [O.Do(Claim(0, 0, 1, MINUTE, [1]))];
  }

  /** The first attempt fails and trips the breaker. */
  lemma TheBreakerTrips() returns (xs: seq<O.System>, ms: seq<O.Move>)
    ensures O.JointRun(Demo(DefaultRetryPolicy()), TOUCHY, xs, ms)
    ensures xs[|ms|] == O.System(World(One(RETRYING, map[]), 0, [HANDOUT.(done := true)]),
                                 map["d" := [B.Ask(0), B.Failure(0)]], map[0 := true])
  {
    var c := Demo(DefaultRetryPolicy());
    TouchyHistory();
    xs, ms := TheFirstClaim();
    assert [] + [B.Ask(0)] == [B.Ask(0)];
    var y := O.System(xs[|ms|].w, map["d" := [B.Ask(0)]], map[0 := true]);
    ExtendJoint(c, TOUCHY, xs, ms, O.Ask(0), y);
    xs, ms := xs + [y], ms + [O.Ask(0)];
    CompleteStep(DefaultRetryPolicy(), y.w, Leased(FIRST), map[1 := MINUTE], REFUSED, RETRYING);
    assert [HANDOUT][0 := HANDOUT.(done := true)] == [HANDOUT.(done := true)];
    assert [B.Ask(0)] + [B.Failure(0)] == [B.Ask(0), B.Failure(0)];
    y := O.System(World(One(RETRYING, map[]), 0, [HANDOUT.(done := true)]), map["d" := [B.Ask(0), B.Failure(0)]], map[0 := true]);
    ExtendJoint(c, TOUCHY, xs, ms, O.Do(REFUSED), y);
    xs, ms := xs + [y], ms + [O.Do(REFUSED)];
  }

  const HANDED := [HANDOUT.(done := true), Handed(RETRYING, NOW)]

  /** When the retry is due it is claimed again. */
  lemma TheSecondClaim() returns (xs: seq<O.System>, ms: seq<O.Move>)
    ensures O.JointRun(Demo(DefaultRetryPolicy()), TOUCHY, xs, ms)
    ensures xs[|ms|] == O.System(World(One(Leased(RETRYING), map[1 := NOW + MINUTE]), NOW, HANDED),
                                 map["d" := [B.Ask(0), B.Failure(0)]], map[0 := true])
  {
    var c, done := Demo(DefaultRetryPolicy()), [HANDOUT.(done := true)];
    xs, ms := TheBreakerTrips();
    var x := xs[|ms|];
    var y := x.(w := World(One(RETRYING, map[]), NOW, done));
    ExtendJoint(c, TOUCHY, xs, ms, O.Do(Tick(NOW)), y);
    xs, ms := xs + [y], ms + [O.Do(Tick(NOW))];
    ClaimStep(DefaultRetryPolicy(), RETRYING, map[], NOW, done);
    assert done + [Handed(RETRYING, NOW)] == HANDED;
    y := x.(w := World(One(Leased(RETRYING), map[1 := NOW + MINUTE]), NOW, HANDED));
    ExtendJoint(c, TOUCHY, xs, ms, O.Do(Claim(0, NOW, 1, MINUTE, [1])), y);
    xs, ms := xs + [y], ms + [O.Do(Claim(0, NOW, 1, MINUTE, [1]))];
  }

  /** The destination comes back, but answers the probe with 404: the delivery is dead-lettered and
      the destination is shut off, which `Outages.ShutOffForGood` shows to be for good. */
  lemma ANotFoundShutsOff() returns (c: Config, b: B.Config, xs: seq<O.System>, ms: seq<O.Move>)
    ensures !c.strict && b.Valid() && O.JointRun(c, b, xs, ms)
    ensures ms != [] && ms[|ms| - 1] == O.Do(NOT_FOUND) && O.ShutOff(b, xs[|ms|], "d")
  {
    c, b := Demo(DefaultRetryPolicy()), TOUCHY;
    TouchyHistory();
    xs, ms := TheSecondClaim();
    var h := [B.Ask(0), B.Failure(0), B.Ask(NOW)];
    assert [B.Ask(0), B.Failure(0)] + [B.Ask(NOW)] == h;
    var y := O.System(xs[|ms|].w, map["d" := h], map[0 := true, 1 := true]);
    ExtendJoint(c, b, xs, ms, O.Ask(1), y);
    xs, ms := xs + [y], ms + [O.Ask(1)];
    CompleteStep(DefaultRetryPolicy(), y.w, Leased(RETRYING), map[1 := NOW + MINUTE], NOT_FOUND, Buried(Leased(RETRYING)));
    assert h + [] == h;
    y := y.(w := World(One(Buried(Leased(RETRYING)), map[]), NOW, HANDED[1 := HANDED[1].(done := true)]));
    ExtendJoint(c, b, xs, ms, O.Do(NOT_FOUND), y);
    xs, ms := xs + [y], ms + [O.Do(NOT_FOUND)];
    assert O.UnderWay(y, "d") == {};
  }
}
