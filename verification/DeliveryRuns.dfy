/**
 The delivery protocol as a transition system: any number of workers claim, attempt and
 complete deliveries against one queue, in any interleaving. A worker reads the clock once
 per pass and claims with that reading, so a claim may use any time up to the current one.
 A worker that crashes simply never completes what it was handed.
 */
module DeliveryRuns {
  import opened Deliveries
  import opened ClaimQueue
  import opened Dispatcher

  /** `shardOf` is the reference hash; `owner` the tenant a destination belongs to. `strict` stands
      for a claim rule the store does not have: the code is `strict == false`, and what is proved
      for every configuration holds of both. */
  datatype Config = Config(shardOf: string -> int, owner: string -> string, policy: string -> RetryPolicy, strict: bool)

  /** A delivery handed to a worker, with the expiry of the lease it was handed under. */
  datatype Handout = Handout(snapshot: Delivery, expiry: Time, done: bool)

  datatype World = World(q: Queue, clock: Time, handed: seq<Handout>)

  datatype Step =
    | Tick(clock: Time)
    | PutEvent(event: Event)
    | Enqueue(source: Event, destinations: seq<string>)
    | Claim(shard: int, now: Time, limit: int, lease: Time, ids: seq<int>)
    | Complete(token: nat, found: bool, allowed: bool, result: Attempt, closed: bool, roll: Option<nat>)

  ghost function Handouts(q: Queue, ids: seq<int>, expiry: Time): (r: seq<Handout>)
    requires forall i :: 0 <= i < |ids| ==> ids[i] in q.deliveries
    ensures |r| == |ids|
    ensures forall i :: 0 <= i < |ids| ==> r[i] == Handout(Leased(q.deliveries[ids[i]]), expiry, false)
  {
    seq(|ids|, i requires 0 <= i < |ids| => Handout(Leased(q.deliveries[ids[i]]), expiry, false))
  }

  /** The record a `Complete` step writes. */
  function Result(c: Config, w: World, s: Step): Delivery
    requires s.Complete? && s.token < |w.handed|
  {
    var del := w.handed[s.token].snapshot;
    Settle(del, c.policy(del.destination), Judge(s.found, s.allowed, s.result), s.closed, w.clock, s.roll)
  }

  ghost predicate Claims(c: Config, w: World, s: Step, v: World)
    requires s.Claim?
  {
    && s.now <= w.clock && 0 < s.limit && 0 < s.lease
    && (if c.strict then SelectsStrictly(w.q, s.shard, s.now, s.limit, s.ids)
        else Selects(w.q, s.shard, s.now, s.limit, s.ids))
    && Claimed(w.q, s.ids, s.now + s.lease, v.q)
    && v.clock == w.clock
    && v.handed == w.handed + Handouts(w.q, s.ids, s.now + s.lease)
  }

  ghost predicate Completes(c: Config, w: World, s: Step, v: World)
    requires s.Complete?
  {
    && s.token < |w.handed| && !w.handed[s.token].done
    && var d := Result(c, w, s);
       && d.id in w.q.deliveries
       && v == World(Completed(w.q, d), w.clock, w.handed[s.token := w.handed[s.token].(done := true)])
  }

  ghost predicate Enqueues(c: Config, w: World, s: Step, v: World)
    requires s.Enqueue?
  {
    && s.source.id in w.q.events && w.q.events[s.source.id] == s.source
    && (forall i :: 0 <= i < |s.destinations| ==> c.owner(s.destinations[i]) == s.source.tenant)
    && (forall i, j :: 0 <= i < j < |s.destinations| ==> s.destinations[i] != s.destinations[j])
    && Enqueued(w.q, s.source, s.destinations, |s.destinations|, c.shardOf(s.source.ref), w.clock, v.q)
    && v.clock == w.clock && v.handed == w.handed
  }

  ghost predicate Next(c: Config, w: World, s: Step, v: World) {
    match s
    case Tick(t) => w.clock <= t && v == w.(clock := t)
    case PutEvent(e) => e.id !in w.q.events && v == w.(q := w.q.(events := w.q.events[e.id := e]))
    case Enqueue(_, _) => Enqueues(c, w, s, v)
    case Claim(_, _, _, _, _) => Claims(c, w, s, v)
    case Complete(_, _, _, _, _, _) => Completes(c, w, s, v)
  }

  const START := World(Queue(map[], map[], map[], map[], 0), 0, [])

  ghost predicate StepAt(c: Config, ws: seq<World>, steps: seq<Step>, k: int)
    requires |ws| == |steps| + 1 && 0 <= k < |steps|
  {
    Next(c, ws[k], steps[k], ws[k + 1])
  }

  /** `ws` are the worlds of a run from the empty queue, `steps` the steps between them. */
  ghost predicate Run(c: Config, ws: seq<World>, steps: seq<Step>) {
    && |ws| == |steps| + 1
    && ws[0] == START
    && forall k :: 0 <= k < |steps| ==> StepAt(c, ws, steps, k)
  }

  lemma ExtendRun(c: Config, ws: seq<World>, steps: seq<Step>, s: Step, v: World)
    requires Run(c, ws, steps) && Next(c, ws[|steps|], s, v)
    ensures Run(c, ws + [v], steps + [s])
  {
    forall k | 0 <= k <= |steps|
      ensures StepAt(c, ws + [v], steps + [s], k)
    {
      assert k < |steps| ==> StepAt(c, ws, steps, k);
    }
  }

  /** What a step of the run does to the handouts: new ones may be added, and a completion is of
      one that was not done and now is. */
  ghost predicate HandsOn(w: World, s: Step, v: World) {
    && |w.handed| <= |v.handed| && w.clock <= v.clock
    && (s.Complete? ==> s.token < |w.handed| && !w.handed[s.token].done)
    && forall t :: 0 <= t < |w.handed| ==>
         && v.handed[t].snapshot == w.handed[t].snapshot && v.handed[t].expiry == w.handed[t].expiry
         && (v.handed[t].done <==> w.handed[t].done || (s.Complete? && s.token == t))
  }

  lemma NextHandsOn(c: Config, w: World, s: Step, v: World)
    requires Next(c, w, s, v)
    ensures HandsOn(w, s, v)
  {
  }

  // ---- What every step keeps ----

  ghost predicate FiledRight(c: Config, q: Queue, id: int)
    requires id in q.deliveries
  {
    var d := q.deliveries[id];
    && d.id == id && 1 <= id <= q.lastId
    && d.eventId in q.events && d.ref == q.events[d.eventId].ref
    && d.shard == c.shardOf(d.ref)
    && d.tenant == c.owner(d.destination)
    && d.sequence <= LastSequence(q, d.tenant, d.ref)
  }

  predicate SameStream(a: Delivery, b: Delivery) {
    a.destination == b.destination && a.ref == b.ref
  }

  /** IDs are dense, records are filed under them, and a stream's sequence numbers follow its IDs. */
  ghost predicate Ordered(c: Config, q: Queue) {
    && 0 <= q.lastId
    && (forall id :: 1 <= id <= q.lastId ==> id in q.deliveries)
    && (forall id :: id in q.deliveries ==> FiledRight(c, q, id))
    && (forall i, j :: i in q.deliveries && j in q.deliveries && i < j && SameStream(q.deliveries[i], q.deliveries[j])
                       ==> q.deliveries[i].sequence < q.deliveries[j].sequence)
  }

  /** The lease map holds exactly the in-flight deliveries. */
  ghost predicate LeasesMatch(q: Queue) {
    forall id :: id in q.leases <==> id in q.deliveries && q.deliveries[id].status == InFlight
  }

  /** A key has at most one in-flight delivery whose lease has not expired. */
  ghost predicate Exclusive(w: World) {
    forall i, j :: i in w.q.deliveries && j in w.q.deliveries && i != j
                   && Live(w.q, i, w.clock) && Live(w.q, j, w.clock)
                   ==> KeyOf(w.q, w.q.deliveries[i]) != KeyOf(w.q, w.q.deliveries[j])
  }

  /** Workers hold true copies of what identifies a delivery, and only of deliveries that were started. */
  ghost predicate HandoutsFit(w: World) {
    forall t :: 0 <= t < |w.handed| ==>
      var s := w.handed[t].snapshot;
      s.id in w.q.deliveries && SameIdentity(s, w.q.deliveries[s.id]) && w.q.deliveries[s.id].status != Pending
  }

  ghost predicate Inv(c: Config, w: World) {
    Ordered(c, w.q) && LeasesMatch(w.q) && Exclusive(w) && HandoutsFit(w)
  }

  lemma SettleKeepsIdentity(del: Delivery, p: RetryPolicy, v: Verdict, closed: bool, now: Time, roll: Option<nat>)
    ensures var d := Settle(del, p, v, closed, now, roll);
            && SameIdentity(del, d)
            && d.status != InFlight && d.status != Pending
            && (IsTerminal(d.status) ==> d.nextRetryAt == None)
  {
  }

  lemma PutKeepsInv(c: Config, w: World, s: Step, v: World)
    requires Inv(c, w) && (s.Tick? || s.PutEvent?) && Next(c, w, s, v)
    ensures Inv(c, v)
  {
    assert v.q.deliveries == w.q.deliveries && v.q.leases == w.q.leases;
    forall id | id in v.q.deliveries
      ensures FiledRight(c, v.q, id) && KeyOf(v.q, v.q.deliveries[id]) == KeyOf(w.q, w.q.deliveries[id])
    {
      assert FiledRight(c, w.q, id);
    }
    assert forall id :: id in v.q.deliveries && Live(v.q, id, v.clock) ==> Live(w.q, id, w.clock);
  }

  lemma EnqueueKeepsInv(c: Config, w: World, s: Step, v: World)
    requires Inv(c, w) && s.Enqueue? && Next(c, w, s, v)
    ensures Inv(c, v)
  {
    forall id | id in v.q.deliveries
      ensures FiledRight(c, v.q, id)
      ensures id <= w.q.lastId <==> id in w.q.deliveries
    {
      if id in w.q.deliveries {
        assert FiledRight(c, w.q, id);
      }
    }
    forall i, j | i in v.q.deliveries && j in v.q.deliveries && i < j && SameStream(v.q.deliveries[i], v.q.deliveries[j])
      ensures v.q.deliveries[i].sequence < v.q.deliveries[j].sequence
    {
      if i in w.q.deliveries {
        assert FiledRight(c, w.q, i);
      }
    }
    assert forall id :: id in v.q.deliveries && Live(v.q, id, v.clock) ==> id in w.q.deliveries && Live(w.q, id, w.clock);
    assert forall id :: id in w.q.deliveries ==> v.q.deliveries[id] == w.q.deliveries[id];
  }

  /** `v` holds the deliveries of `q`, up to what workers may change. */
  ghost predicate SameRecords(q: Queue, v: Queue) {
    && v.sequences == q.sequences && v.events == q.events && v.lastId == q.lastId
    && (forall id :: id in v.deliveries <==> id in q.deliveries)
    && (forall id :: id in q.deliveries ==>
          SameIdentity(q.deliveries[id], v.deliveries[id])
          && (q.deliveries[id].status != Pending ==> v.deliveries[id].status != Pending))
  }

  lemma SameRecordsStayOrdered(c: Config, q: Queue, v: Queue)
    requires Ordered(c, q) && SameRecords(q, v)
    ensures Ordered(c, v)
  {
  }

  lemma SameRecordsKeepHandouts(w: World, v: World)
    requires HandoutsFit(w) && SameRecords(w.q, v.q)
    requires |v.handed| == |w.handed| && forall t :: 0 <= t < |v.handed| ==> v.handed[t].snapshot == w.handed[t].snapshot
    ensures HandoutsFit(v)
  {
  }

  lemma ClaimKeepsInv(c: Config, w: World, s: Step, v: World)
    requires Inv(c, w) && s.Claim? && Next(c, w, s, v)
    ensures Inv(c, v)
  {
    SameRecordsStayOrdered(c, w.q, v.q);
    ClaimKeepsExclusive(c, w, s, v);
    assert LeasesMatch(v.q);
    ClaimKeepsHandouts(c, w, s, v);
  }

  lemma ClaimKeepsHandouts(c: Config, w: World, s: Step, v: World)
    requires Inv(c, w) && s.Claim? && Next(c, w, s, v)
    ensures HandoutsFit(v)
  {
  }

  lemma ClaimKeepsExclusive(c: Config, w: World, s: Step, v: World)
    requires Inv(c, w) && s.Claim? && Next(c, w, s, v)
    ensures Exclusive(v)
  {
    forall i, j | i in v.q.deliveries && j in v.q.deliveries && i != j && Live(v.q, i, v.clock) && Live(v.q, j, v.clock)
      ensures KeyOf(v.q, v.q.deliveries[i]) != KeyOf(v.q, v.q.deliveries[j])
    {
      if i in s.ids && j in s.ids {
        assert Winner(w.q, s.shard, s.now, i) && Winner(w.q, s.shard, s.now, j);
        assert Due(w.q, s.shard, s.now, i) && Due(w.q, s.shard, s.now, j);
      } else if i in s.ids {
        assert Live(w.q, j, s.now);
        assert !KeyBlocked(w.q, KeyOf(w.q, w.q.deliveries[i]), s.now);
      } else if j in s.ids {
        assert Live(w.q, i, s.now);
        assert !KeyBlocked(w.q, KeyOf(w.q, w.q.deliveries[j]), s.now);
      } else {
        assert Live(w.q, i, w.clock) && Live(w.q, j, w.clock);
      }
    }
  }

  /** A completion keeps every delivery's identity, and drops the lease of the one it takes out of flight. */
  lemma CompleteKeepsRecords(c: Config, w: World, s: Step, v: World)
    requires Inv(c, w) && s.Complete? && Next(c, w, s, v)
    ensures SameRecords(w.q, v.q) && LeasesMatch(v.q)
    ensures forall id :: id in v.q.deliveries && Live(v.q, id, v.clock) ==> Live(w.q, id, w.clock)
  {
    var del, d := w.handed[s.token].snapshot, Result(c, w, s);
    SettleKeepsIdentity(del, c.policy(del.destination), Judge(s.found, s.allowed, s.result), s.closed, w.clock, s.roll);
    CompletedKeepsRecords(w.q, d);
  }

  lemma CompletedKeepsRecords(q: Queue, d: Delivery)
    requires LeasesMatch(q) && d.id in q.deliveries && SameIdentity(d, q.deliveries[d.id]) && d.status != InFlight && d.status != Pending
    ensures SameRecords(q, Completed(q, d)) && LeasesMatch(Completed(q, d))
    ensures forall id, now :: id in q.deliveries && Live(Completed(q, d), id, now) ==> Live(q, id, now)
  {
  }

  lemma SameRecordsStayExclusive(w: World, v: World)
    requires Exclusive(w) && SameRecords(w.q, v.q)
    requires forall id :: id in v.q.deliveries && Live(v.q, id, v.clock) ==> Live(w.q, id, w.clock)
    ensures Exclusive(v)
  {
    forall id | id in v.q.deliveries ensures KeyOf(v.q, v.q.deliveries[id]) == KeyOf(w.q, w.q.deliveries[id]) {
      assert SameIdentity(w.q.deliveries[id], v.q.deliveries[id]);
    }
  }

  lemma CompleteKeepsInv(c: Config, w: World, s: Step, v: World)
    requires Inv(c, w) && s.Complete? && Next(c, w, s, v)
    ensures Inv(c, v)
  {
    CompleteKeepsRecords(c, w, s, v);
    SameRecordsStayOrdered(c, w.q, v.q);
    SameRecordsKeepHandouts(w, v);
    SameRecordsStayExclusive(w, v);
  }

  lemma StepKeepsInv(c: Config, w: World, s: Step, v: World)
    requires Inv(c, w) && Next(c, w, s, v)
    ensures Inv(c, v)
  {
    match s
    case Tick(_) => PutKeepsInv(c, w, s, v);
    case PutEvent(_) => PutKeepsInv(c, w, s, v);
    case Enqueue(_, _) => EnqueueKeepsInv(c, w, s, v);
    case Claim(_, _, _, _, _) => ClaimKeepsInv(c, w, s, v);
    case Complete(_, _, _, _, _, _) => CompleteKeepsInv(c, w, s, v);
  }

  /** Lease exclusivity over all runs: at every point, whatever was completed late or never. */
  lemma {:induction false} RunsAreExclusive(c: Config, ws: seq<World>, steps: seq<Step>, k: nat)
    requires Run(c, ws, steps) && k < |ws|
    ensures Inv(c, ws[k])
    decreases k
  {
    if k > 0 {
      RunsAreExclusive(c, ws, steps, k - 1);
      assert StepAt(c, ws, steps, k - 1);
      StepKeepsInv(c, ws[k - 1], steps[k - 1], ws[k]);
    }
  }

  /** The same without keys: two deliveries of one destination and one reference are never in
      flight at once, unless the lease of one has run out. */
  lemma PairsAreExclusive(c: Config, ws: seq<World>, steps: seq<Step>, k: nat, i: int, j: int)
    requires Run(c, ws, steps) && k < |ws| && i in ws[k].q.deliveries && j in ws[k].q.deliveries && i != j
    requires var a, b := ws[k].q.deliveries[i], ws[k].q.deliveries[j];
             a.destination == b.destination && a.ref == b.ref && a.status == InFlight && b.status == InFlight
    ensures i in ws[k].q.leases && j in ws[k].q.leases
    ensures ws[k].q.leases[i] < ws[k].clock || ws[k].q.leases[j] < ws[k].clock
  {
    RunsAreExclusive(c, ws, steps, k);
    assert FiledRight(c, ws[k].q, i) && FiledRight(c, ws[k].q, j);
    assert Live(ws[k].q, i, ws[k].clock) && Live(ws[k].q, j, ws[k].clock)
           ==> KeyOf(ws[k].q, ws[k].q.deliveries[i]) != KeyOf(ws[k].q, ws[k].q.deliveries[j]);
  }
}
