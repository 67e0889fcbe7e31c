/**
 Leases and late completions. A completion is accepted whatever became of its lease, so two
 promises can be broken: that a finished delivery stays finished, and that a worker whose lease
 holds is the only one at work. The lemmas say exactly when each is kept.
 */
module DeliveryLeases {
  import opened Deliveries
  import opened ClaimQueue
  import opened Dispatcher
  import opened DeliveryRuns

  function Snapshot(w: World, s: Step): Delivery
    requires s.Complete? && s.token < |w.handed|
  {
    w.handed[s.token].snapshot
  }

  /** Step `s` completes delivery `id`. */
  predicate CompletesId(w: World, s: Step, id: int) {
    s.Complete? && s.token < |w.handed| && Snapshot(w, s).id == id
  }

  /** A completion changes its own delivery's record and lease, and no other's. */
  lemma CompletionIsOf(c: Config, w: World, s: Step, v: World)
    requires s.Complete? && Next(c, w, s, v)
    ensures var d := Result(c, w, s);
            && d.id == Snapshot(w, s).id
            && d.id in v.q.deliveries && v.q.deliveries[d.id] == d.(createdAt := w.q.deliveries[d.id].createdAt)
            && (forall id :: id != d.id ==> (id in v.q.deliveries <==> id in w.q.deliveries) && (id in v.q.leases <==> id in w.q.leases))
            && (forall id :: id != d.id && id in w.q.deliveries ==> v.q.deliveries[id] == w.q.deliveries[id])
            && (forall id :: id != d.id && id in w.q.leases ==> v.q.leases[id] == w.q.leases[id])
  {
  }

  // ---- Finished deliveries ----

  /** Some handout of `id` has not been completed. */
  ghost predicate Outstanding(w: World, id: int) {
    exists t :: OpenHandout(w, id, t)
  }

  predicate OpenHandout(w: World, id: int, t: int) {
    0 <= t < |w.handed| && !w.handed[t].done && w.handed[t].snapshot.id == id
  }

  /** Only a completion of its own touches a finished delivery, and no step hands it out again. */
  lemma FinishedStep(c: Config, w: World, s: Step, v: World, id: int)
    requires Inv(c, w) && Next(c, w, s, v) && id in w.q.deliveries && IsTerminal(w.q.deliveries[id].status)
    ensures id in v.q.deliveries
    ensures CompletesId(w, s, id) ==> OpenHandout(w, id, s.token)
    ensures !CompletesId(w, s, id) ==> v.q.deliveries[id] == w.q.deliveries[id]
    ensures forall t :: OpenHandout(v, id, t) ==> OpenHandout(w, id, t)
  {
    match s
    case Tick(_) =>
    case PutEvent(_) =>
    case Enqueue(_, _) =>
      assert FiledRight(c, w.q, id);
    case Claim(_, _, _, _, _) =>
      assert id in s.ids ==> Winner(w.q, s.shard, s.now, id);
      forall t | OpenHandout(v, id, t) ensures OpenHandout(w, id, t) {
        if |w.handed| <= t {
          HandedOut(c, w, s, v, t);
          assert false;
        }
      }
    case Complete(_, _, _, _, _, _) =>
      CompletionIsOf(c, w, s, v);
  }

  /** A new handout is of a delivery the claim lists. */
  lemma HandedOut(c: Config, w: World, s: Step, v: World, t: int)
    requires Inv(c, w) && s.Claim? && Next(c, w, s, v) && |w.handed| <= t < |v.handed|
    ensures t - |w.handed| < |s.ids| && s.ids[t - |w.handed|] in w.q.deliveries
    ensures var id := s.ids[t - |w.handed|];
            v.handed[t] == Handout(Leased(w.q.deliveries[id]), s.now + s.lease, false) && v.handed[t].snapshot.id == id
            && Winner(w.q, s.shard, s.now, id)
  {
    var n := |w.handed|;
    assert v.handed[t] == Handouts(w.q, s.ids, s.now + s.lease)[t - n];
    assert Winner(w.q, s.shard, s.now, s.ids[t - n]) && FiledRight(c, w.q, s.ids[t - n]);
  }

  /** The step takes the delivery out of its finished state. */
  ghost predicate Reopens(c: Config, w: World, s: Step, v: World, id: int) {
    Next(c, w, s, v) && id in v.q.deliveries && !IsTerminal(v.q.deliveries[id].status)
  }

  /** A finished delivery can be reopened by a next step if and only if some handout of it is
      still open: a completion of that handout that finds the breaker refusing parks it. */
  lemma ReopenedExactly(c: Config, w: World, id: int)
    requires Inv(c, w) && id in w.q.deliveries && IsTerminal(w.q.deliveries[id].status)
    ensures (exists s, v :: Reopens(c, w, s, v, id)) <==> Outstanding(w, id)
  {
    if t :| OpenHandout(w, id, t) {
      var s := Complete(t, true, false, TransportError, true, None);
      var d := Result(c, w, s);
      var v := World(Completed(w.q, d), w.clock, w.handed[t := w.handed[t].(done := true)]);
      assert Next(c, w, s, v);
      assert Reopens(c, w, s, v, id);
    } else {
      forall s, v ensures !Reopens(c, w, s, v, id) {
        if Next(c, w, s, v) {
          FinishedStep(c, w, s, v, id);
        }
      }
    }
  }

  /** In every run, whatever is late: a finished delivery with no open handout never changes again. */
  lemma {:induction false} FinishedStaysFinished(c: Config, ws: seq<World>, steps: seq<Step>, id: int, a: nat, b: nat)
    requires Run(c, ws, steps) && a <= b < |ws|
    requires id in ws[a].q.deliveries && IsTerminal(ws[a].q.deliveries[id].status) && !Outstanding(ws[a], id)
    ensures id in ws[b].q.deliveries && ws[b].q.deliveries[id] == ws[a].q.deliveries[id] && !Outstanding(ws[b], id)
    decreases b
  {
    if a < b {
      FinishedStaysFinished(c, ws, steps, id, a, b - 1);
      RunsAreExclusive(c, ws, steps, b - 1);
      assert StepAt(c, ws, steps, b - 1);
      FinishedStep(c, ws[b - 1], steps[b - 1], ws[b], id);
    }
  }

  // ---- Lease holders ----

  /** Completions of `id` arrive before their lease runs out. */
  ghost predicate InTime(ws: seq<World>, steps: seq<Step>, id: int)
    requires |ws| == |steps| + 1
  {
    forall k :: 0 <= k < |steps| ==> Timely(ws, steps, id, k)
  }

  ghost predicate Timely(ws: seq<World>, steps: seq<Step>, id: int, k: int)
    requires |ws| == |steps| + 1 && 0 <= k < |steps|
  {
    CompletesId(ws[k], steps[k], id) ==> ws[k].clock <= ws[k].handed[steps[k].token].expiry
  }

  /** Handout `t` is of `id`, unfinished, and its lease still holds. */
  predicate Holds(w: World, id: int, t: int) {
    0 <= t < |w.handed| && !w.handed[t].done && w.handed[t].snapshot.id == id && w.clock <= w.handed[t].expiry
  }

  /** A handout whose lease holds is unique and is still the queue's record. */
  ghost predicate Current(w: World, id: int) {
    && (forall t :: Holds(w, id, t) ==>
          && id in w.q.deliveries && w.q.deliveries[id] == w.handed[t].snapshot
          && w.q.deliveries[id].status == InFlight
          && id in w.q.leases && w.q.leases[id] == w.handed[t].expiry)
    && (forall t, u :: Holds(w, id, t) && Holds(w, id, u) ==> t == u)
  }

  /** If `s` completes `id`, no other handout of `id` has a lease that still holds. */
  ghost predicate Unsuperseded(w: World, s: Step, id: int) {
    CompletesId(w, s, id) ==> forall u :: Holds(w, id, u) ==> u == s.token
  }

  /** What a handout held after a claim is: one held before that the claim passed over, or the new one. */
  lemma HeldAfterClaim(c: Config, w: World, s: Step, v: World, id: int, t: int)
    requires Inv(c, w) && Current(w, id) && s.Claim? && Next(c, w, s, v) && Holds(v, id, t)
    ensures t < |w.handed| ==> Holds(w, id, t) && id !in s.ids
    ensures t >= |w.handed| ==>
              && s.ids[t - |w.handed|] == id && id in w.q.deliveries
              && v.handed[t] == Handout(Leased(w.q.deliveries[id]), s.now + s.lease, false)
  {
    var n := |w.handed|;
    if t < n {
      assert Live(w.q, id, s.now);
      assert id in s.ids ==> !KeyBlocked(w.q, KeyOf(w.q, w.q.deliveries[id]), s.now);
    } else {
      assert v.handed[t] == Handouts(w.q, s.ids, s.now + s.lease)[t - n];
      assert Winner(w.q, s.shard, s.now, s.ids[t - n]) && FiledRight(c, w.q, s.ids[t - n]);
    }
  }

  lemma ClaimKeepsCurrent(c: Config, w: World, s: Step, v: World, id: int)
    requires Inv(c, w) && Current(w, id) && s.Claim? && Next(c, w, s, v)
    ensures Current(v, id)
  {
    forall t | Holds(v, id, t)
      ensures t < |w.handed| ==> Holds(w, id, t) && id !in s.ids
      ensures t >= |w.handed| ==>
                && s.ids[t - |w.handed|] == id && id in w.q.deliveries
                && v.handed[t] == Handout(Leased(w.q.deliveries[id]), s.now + s.lease, false)
    {
      HeldAfterClaim(c, w, s, v, id, t);
    }
    assert forall a, b :: 0 <= a < b < |s.ids| ==> s.ids[a] != s.ids[b];
  }

  /** A holder of a lease remains the only one, and its copy the record, exactly when the step is
      not a completion of the same delivery by someone else. */
  lemma StepKeepsCurrentExactly(c: Config, w: World, s: Step, v: World, id: int)
    requires Inv(c, w) && Current(w, id) && Next(c, w, s, v)
    ensures Current(v, id) <==> Unsuperseded(w, s, id)
  {
    match s
    case Tick(_) =>
      assert forall t :: Holds(v, id, t) ==> Holds(w, id, t);
    case PutEvent(_) =>
      assert forall t :: Holds(v, id, t) ==> Holds(w, id, t);
    case Enqueue(_, _) =>
      assert forall t :: Holds(v, id, t) ==> Holds(w, id, t);
      assert id in w.q.deliveries ==> FiledRight(c, w.q, id);
    case Claim(_, _, _, _, _) =>
      ClaimKeepsCurrent(c, w, s, v, id);
    case Complete(_, _, _, _, _, _) =>
      CompleteKeepsCurrentExactly(c, w, s, v, id);
  }

  lemma CompleteKeepsCurrentExactly(c: Config, w: World, s: Step, v: World, id: int)
    requires Inv(c, w) && Current(w, id) && s.Complete? && Next(c, w, s, v)
    ensures Current(v, id) <==> Unsuperseded(w, s, id)
  {
    CompletionIsOf(c, w, s, v);
    var del := Snapshot(w, s);
    SettleKeepsIdentity(del, c.policy(del.destination), Judge(s.found, s.allowed, s.result), s.closed, w.clock, s.roll);
    assert forall t :: Holds(v, id, t) <==> Holds(w, id, t) && t != s.token;
  }

  ghost predicate UnsupersededAt(ws: seq<World>, steps: seq<Step>, id: int, k: int)
    requires |ws| == |steps| + 1 && 0 <= k < |steps|
  {
    Unsuperseded(ws[k], steps[k], id)
  }

  /** No completion of `id` before step `n` overtakes another holder. */
  ghost predicate NeverSuperseded(ws: seq<World>, steps: seq<Step>, id: int, n: nat)
    requires |ws| == |steps| + 1 && n <= |steps|
  {
    forall k :: 0 <= k < n ==> UnsupersededAt(ws, steps, id, k)
  }

  lemma {:induction false} RunsStayCurrent(c: Config, ws: seq<World>, steps: seq<Step>, id: int, k: nat)
    requires Run(c, ws, steps) && k < |ws| && NeverSuperseded(ws, steps, id, k)
    ensures Inv(c, ws[k]) && Current(ws[k], id)
    decreases k
  {
    RunsAreExclusive(c, ws, steps, k);
    if k > 0 {
      RunsStayCurrent(c, ws, steps, id, k - 1);
      assert StepAt(c, ws, steps, k - 1) && UnsupersededAt(ws, steps, id, k - 1);
      StepKeepsCurrentExactly(c, ws[k - 1], steps[k - 1], ws[k], id);
    }
  }

  /** Over whole runs: every holder of a lease on `id` is, throughout, the only one and has the
      record, if and only if no completion of `id` comes while someone else holds a lease on it. */
  lemma HoldersAreProtectedExactly(c: Config, ws: seq<World>, steps: seq<Step>, id: int)
    requires Run(c, ws, steps)
    ensures (forall k :: 0 <= k < |ws| ==> Current(ws[k], id)) <==> NeverSuperseded(ws, steps, id, |steps|)
  {
    if NeverSuperseded(ws, steps, id, |steps|) {
      forall k | 0 <= k < |ws| ensures Current(ws[k], id) {
        RunsStayCurrent(c, ws, steps, id, k);
      }
    }
    if forall k :: 0 <= k < |ws| ==> Current(ws[k], id) {
      forall k | 0 <= k < |steps| ensures UnsupersededAt(ws, steps, id, k) {
        RunsAreExclusive(c, ws, steps, k);
        assert StepAt(c, ws, steps, k) && Current(ws[k], id) && Current(ws[k + 1], id);
        StepKeepsCurrentExactly(c, ws[k], steps[k], ws[k + 1], id);
      }
    }
  }

  /** Completing in time is enough. */
  lemma {:induction false} InTimeIsNeverSuperseded(c: Config, ws: seq<World>, steps: seq<Step>, id: int, n: nat)
    requires Run(c, ws, steps) && InTime(ws, steps, id) && n <= |steps|
    ensures NeverSuperseded(ws, steps, id, n)
  {
    if n > 0 {
      var k := n - 1;
      InTimeIsNeverSuperseded(c, ws, steps, id, k);
      RunsStayCurrent(c, ws, steps, id, k);
      assert StepAt(c, ws, steps, k) && Timely(ws, steps, id, k);
      assert CompletesId(ws[k], steps[k], id) ==> Holds(ws[k], id, steps[k].token);
    }
  }

  /** At most one worker holds a lease on a key: two handouts whose leases hold are the same one,
      if no earlier completion of either delivery came while someone else held a lease on it. */
  lemma OneWorkerPerKey(c: Config, ws: seq<World>, steps: seq<Step>, k: nat, i: int, j: int, t: int, u: int)
    requires Run(c, ws, steps) && k < |ws| && NeverSuperseded(ws, steps, i, k) && NeverSuperseded(ws, steps, j, k)
    requires Holds(ws[k], i, t) && Holds(ws[k], j, u)
    requires KeyOf(ws[k].q, ws[k].handed[t].snapshot) == KeyOf(ws[k].q, ws[k].handed[u].snapshot)
    ensures i == j && t == u
  {
    RunsStayCurrent(c, ws, steps, i, k);
    RunsStayCurrent(c, ws, steps, j, k);
    assert Live(ws[k].q, i, ws[k].clock) && Live(ws[k].q, j, ws[k].clock);
  }

  // ---- The latest handout ----

  /** `t` is the last handout of `id`: nobody has claimed it since. */
  ghost predicate Latest(w: World, id: int, t: int) {
    && 0 <= t < |w.handed| && w.handed[t].snapshot.id == id
    && forall u :: t < u < |w.handed| ==> w.handed[u].snapshot.id != id
  }

  /** Every completion of `id`, late or not, is of its latest handout. */
  ghost predicate Undisturbed(ws: seq<World>, steps: seq<Step>, id: int)
    requires |ws| == |steps| + 1
  {
    forall k :: 0 <= k < |steps| ==> UndisturbedAt(ws, steps, id, k)
  }

  ghost predicate UndisturbedAt(ws: seq<World>, steps: seq<Step>, id: int, k: int)
    requires |ws| == |steps| + 1 && 0 <= k < |steps|
  {
    CompletesId(ws[k], steps[k], id) ==> Latest(ws[k], id, steps[k].token)
  }

  /** An open latest handout is the queue's record. */
  ghost predicate Faithful(w: World, id: int) {
    forall t :: Latest(w, id, t) && !w.handed[t].done ==>
      id in w.q.deliveries && w.q.deliveries[id] == w.handed[t].snapshot && w.q.deliveries[id].status == InFlight
  }

  lemma LatestBefore(w: World, s: Step, v: World, id: int, t: int)
    requires HandsOn(w, s, v) && Latest(v, id, t) && t < |w.handed|
    ensures Latest(w, id, t)
  {
    forall u | t < u < |w.handed| ensures w.handed[u].snapshot.id != id {
      assert v.handed[u].snapshot == w.handed[u].snapshot;
    }
  }

  /** An open latest handout is still the record after the step. */
  lemma LatestStaysRecord(c: Config, w: World, s: Step, v: World, id: int, t: int)
    requires Inv(c, w) && Faithful(w, id) && Next(c, w, s, v) && Latest(v, id, t) && !v.handed[t].done
    requires CompletesId(w, s, id) ==> Latest(w, id, s.token)
    ensures id in v.q.deliveries && v.q.deliveries[id] == v.handed[t].snapshot && v.q.deliveries[id].status == InFlight
  {
    NextHandsOn(c, w, s, v);
    if |w.handed| <= t {
      HandedOut(c, w, s, v, t);
    } else {
      LatestBefore(w, s, v, id, t);
      match s
      case Tick(_) =>
      case PutEvent(_) =>
      case Enqueue(_, _) =>
        assert FiledRight(c, w.q, id);
      case Claim(_, _, _, _, _) =>
        if i :| 0 <= i < |s.ids| && s.ids[i] == id {
          HandedOut(c, w, s, v, |w.handed| + i);
          assert false;
        }
      case Complete(_, _, _, _, _, _) =>
        CompletionIsOf(c, w, s, v);
    }
  }

  lemma StepKeepsFaithful(c: Config, w: World, s: Step, v: World, id: int)
    requires Inv(c, w) && Faithful(w, id) && Next(c, w, s, v)
    requires CompletesId(w, s, id) ==> Latest(w, id, s.token)
    ensures Faithful(v, id)
  {
    forall t | Latest(v, id, t) && !v.handed[t].done
      ensures id in v.q.deliveries && v.q.deliveries[id] == v.handed[t].snapshot && v.q.deliveries[id].status == InFlight
    {
      LatestStaysRecord(c, w, s, v, id, t);
    }
  }

  lemma {:induction false} RunsStayFaithful(c: Config, ws: seq<World>, steps: seq<Step>, id: int, k: nat)
    requires Run(c, ws, steps) && Undisturbed(ws, steps, id) && k < |ws|
    ensures Inv(c, ws[k]) && Faithful(ws[k], id)
    decreases k
  {
    RunsAreExclusive(c, ws, steps, k);
    if k > 0 {
      RunsStayFaithful(c, ws, steps, id, k - 1);
      assert StepAt(c, ws, steps, k - 1) && UndisturbedAt(ws, steps, id, k - 1);
      StepKeepsFaithful(c, ws[k - 1], steps[k - 1], ws[k], id);
    }
  }

  /** Whoever holds a lease was handed the delivery last. */
  ghost predicate HoldersAreLatest(w: World, id: int) {
    forall t :: Holds(w, id, t) ==> Latest(w, id, t)
  }

  lemma ClaimedOnce(c: Config, w: World, s: Step, v: World, id: int, t: int, u: int)
    requires Inv(c, w) && Current(w, id) && s.Claim? && Next(c, w, s, v) && Holds(v, id, t)
    requires t < u < |v.handed| && |w.handed| <= u
    ensures v.handed[u].snapshot.id != id
  {
    HeldAfterClaim(c, w, s, v, id, t);
    HandedOut(c, w, s, v, u);
    assert forall a, b :: 0 <= a < b < |s.ids| ==> s.ids[a] != s.ids[b];
  }

  lemma StepKeepsHoldersLatest(c: Config, w: World, s: Step, v: World, id: int)
    requires Inv(c, w) && Current(w, id) && HoldersAreLatest(w, id) && Next(c, w, s, v)
    ensures HoldersAreLatest(v, id)
  {
    NextHandsOn(c, w, s, v);
    forall t | Holds(v, id, t) ensures Latest(v, id, t) {
      forall u | t < u < |v.handed| ensures v.handed[u].snapshot.id != id {
        if |w.handed| <= u {
          ClaimedOnce(c, w, s, v, id, t, u);
        } else {
          assert Holds(w, id, t) && Latest(w, id, t);
        }
      }
    }
  }

  lemma {:induction false} InTimeHoldersAreLatest(c: Config, ws: seq<World>, steps: seq<Step>, id: int, k: nat)
    requires Run(c, ws, steps) && InTime(ws, steps, id) && k < |ws|
    ensures HoldersAreLatest(ws[k], id)
    decreases k
  {
    if k > 0 {
      InTimeHoldersAreLatest(c, ws, steps, id, k - 1);
      InTimeIsNeverSuperseded(c, ws, steps, id, k - 1);
      RunsStayCurrent(c, ws, steps, id, k - 1);
      assert StepAt(c, ws, steps, k - 1);
      StepKeepsHoldersLatest(c, ws[k - 1], steps[k - 1], ws[k], id);
    }
  }

  /** Completions in time are of the latest handout. */
  lemma InTimeIsUndisturbed(c: Config, ws: seq<World>, steps: seq<Step>, id: int)
    requires Run(c, ws, steps) && InTime(ws, steps, id)
    ensures Undisturbed(ws, steps, id)
  {
    forall k | 0 <= k < |steps| ensures UndisturbedAt(ws, steps, id, k) {
      InTimeHoldersAreLatest(c, ws, steps, id, k);
      assert StepAt(c, ws, steps, k) && Timely(ws, steps, id, k);
      assert CompletesId(ws[k], steps[k], id) ==> Holds(ws[k], id, steps[k].token);
    }
  }
}
