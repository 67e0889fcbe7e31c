/**
 Ordering. A stream is the deliveries of one transaction reference to one destination. A
 delivery waiting out a retry can be overtaken (`Witnesses.ARetryIsOvertaken`); a stream in which no
 attempt ever comes to rest in `failed` is claimed and finished in sequence order, even when
 leases are lost and completions arrive late.
 */
module DeliveryOrder {
  import opened Deliveries
  import opened ClaimQueue
  import opened Dispatcher
  import opened DeliveryRuns

  predicate InStream(d: Delivery, destination: string, ref: string) {
    d.destination == destination && d.ref == ref
  }

  /** If step `s` completes a delivery of the stream, it finishes it. */
  predicate Finishes(c: Config, w: World, s: Step, destination: string, ref: string) {
    s.Complete? && s.token < |w.handed| && InStream(w.handed[s.token].snapshot, destination, ref)
    ==> IsTerminal(Result(c, w, s).status)
  }

  /** No attempt of the stream comes to rest in `failed`. */
  ghost predicate NeverRests(c: Config, ws: seq<World>, steps: seq<Step>, destination: string, ref: string)
    requires |ws| == |steps| + 1
  {
    forall k :: 0 <= k < |steps| ==> FinishesAt(c, ws, steps, destination, ref, k)
  }

  predicate FinishesAt(c: Config, ws: seq<World>, steps: seq<Step>, destination: string, ref: string, k: int)
    requires |ws| == |steps| + 1 && 0 <= k < |steps|
  {
    Finishes(c, ws[k], steps[k], destination, ref)
  }

  /** Whatever has been started in the stream has only finished deliveries before it. */
  ghost predicate InOrder(q: Queue, destination: string, ref: string) {
    && (forall i :: i in q.deliveries && InStream(q.deliveries[i], destination, ref)
                    ==> q.deliveries[i].status != Failed && q.deliveries[i].nextRetryAt == None)
    && (forall i, j :: i in q.deliveries && j in q.deliveries
                       && InStream(q.deliveries[i], destination, ref) && InStream(q.deliveries[j], destination, ref)
                       && q.deliveries[i].sequence < q.deliveries[j].sequence && q.deliveries[j].status != Pending
                       ==> IsTerminal(q.deliveries[i].status))
  }

  ghost predicate StaysFinished(q: Queue, v: Queue, destination: string, ref: string) {
    forall i :: i in q.deliveries && InStream(q.deliveries[i], destination, ref) && IsTerminal(q.deliveries[i].status)
                ==> i in v.deliveries && IsTerminal(v.deliveries[i].status)
  }

  /** When a delivery is claimed, every earlier unfinished one of its stream is waiting for a
      retry time still to come. */
  lemma ClaimedOverWaiting(c: Config, w: World, s: Step, v: World, i: int, j: int)
    requires Inv(c, w) && s.Claim? && Next(c, w, s, v)
    requires j in s.ids && i in w.q.deliveries && j in w.q.deliveries
    requires SameStream(w.q.deliveries[i], w.q.deliveries[j])
    requires w.q.deliveries[i].sequence < w.q.deliveries[j].sequence
    ensures IsTerminal(w.q.deliveries[i].status) || Waiting(w.q.deliveries[i], s.now)
  {
    assert FiledRight(c, w.q, i) && FiledRight(c, w.q, j);
    assert Winner(w.q, s.shard, s.now, j);
    assert Filed(w.q.deliveries) by {
      assert forall id :: id in w.q.deliveries ==> FiledRight(c, w.q, id);
    }
    OvertakesExactlyTheWaiting(w.q, s.shard, s.now, j);
  }

  lemma StepKeepsOrder(c: Config, w: World, s: Step, v: World, destination: string, ref: string)
    requires Inv(c, w) && Next(c, w, s, v) && InOrder(w.q, destination, ref)
    requires Finishes(c, w, s, destination, ref)
    ensures InOrder(v.q, destination, ref) && StaysFinished(w.q, v.q, destination, ref)
  {
    match s
    case Tick(_) =>
    case PutEvent(_) =>
    case Enqueue(_, _) => EnqueueKeepsOrder(c, w, s, v, destination, ref);
    case Claim(_, _, _, _, _) => ClaimKeepsOrder(c, w, s, v, destination, ref);
    case Complete(_, _, _, _, _, _) => CompleteKeepsOrder(c, w, s, v, destination, ref);
  }

  lemma EnqueueOnlyAdds(c: Config, w: World, s: Step, v: World)
    requires Inv(c, w) && s.Enqueue? && Next(c, w, s, v)
    ensures forall i :: i in w.q.deliveries ==> i in v.q.deliveries && v.q.deliveries[i] == w.q.deliveries[i]
    ensures forall i, j :: i in v.q.deliveries && i !in w.q.deliveries && j in w.q.deliveries ==> j < i
    ensures forall i :: i in v.q.deliveries && i !in w.q.deliveries ==>
              v.q.deliveries[i].status == Pending && v.q.deliveries[i].nextRetryAt == None
  {
  }

  lemma EnqueueKeepsOrder(c: Config, w: World, s: Step, v: World, destination: string, ref: string)
    requires Inv(c, w) && s.Enqueue? && Next(c, w, s, v) && InOrder(w.q, destination, ref)
    ensures InOrder(v.q, destination, ref) && StaysFinished(w.q, v.q, destination, ref)
  {
    EnqueueOnlyAdds(c, w, s, v);
    EnqueueKeepsInv(c, w, s, v);
    forall i, j | i in v.q.deliveries && j in v.q.deliveries
                  && InStream(v.q.deliveries[i], destination, ref) && InStream(v.q.deliveries[j], destination, ref)
                  && v.q.deliveries[i].sequence < v.q.deliveries[j].sequence && v.q.deliveries[j].status != Pending
      ensures IsTerminal(v.q.deliveries[i].status)
    {
      assert SameStream(v.q.deliveries[j], v.q.deliveries[i]);
      assert i in w.q.deliveries && j in w.q.deliveries;
    }
  }

  lemma ClaimKeepsOrder(c: Config, w: World, s: Step, v: World, destination: string, ref: string)
    requires Inv(c, w) && s.Claim? && Next(c, w, s, v) && InOrder(w.q, destination, ref)
    ensures InOrder(v.q, destination, ref) && StaysFinished(w.q, v.q, destination, ref)
  {
    assert forall j :: j in s.ids ==> Winner(w.q, s.shard, s.now, j);
    forall i, j | i in v.q.deliveries && j in v.q.deliveries
                  && InStream(v.q.deliveries[i], destination, ref) && InStream(v.q.deliveries[j], destination, ref)
                  && v.q.deliveries[i].sequence < v.q.deliveries[j].sequence && v.q.deliveries[j].status != Pending
      ensures IsTerminal(v.q.deliveries[i].status)
    {
      if j in s.ids {
        ClaimedOverWaiting(c, w, s, v, i, j);
      }
    }
  }

  lemma CompleteKeepsOrder(c: Config, w: World, s: Step, v: World, destination: string, ref: string)
    requires Inv(c, w) && s.Complete? && Next(c, w, s, v) && InOrder(w.q, destination, ref)
    requires Finishes(c, w, s, destination, ref)
    ensures InOrder(v.q, destination, ref) && StaysFinished(w.q, v.q, destination, ref)
  {
    var del := w.handed[s.token].snapshot;
    SettleKeepsIdentity(del, c.policy(del.destination), Judge(s.found, s.allowed, s.result), s.closed, w.clock, s.roll);
  }

  // ---- Over whole runs ----

  lemma {:induction false} RunsAreOrdered(c: Config, ws: seq<World>, steps: seq<Step>, destination: string, ref: string, k: nat)
    requires Run(c, ws, steps) && NeverRests(c, ws, steps, destination, ref) && k < |ws|
    ensures InOrder(ws[k].q, destination, ref)
    decreases k
  {
    if k > 0 {
      RunsAreOrdered(c, ws, steps, destination, ref, k - 1);
      RunsAreExclusive(c, ws, steps, k - 1);
      assert StepAt(c, ws, steps, k - 1) && FinishesAt(c, ws, steps, destination, ref, k - 1);
      StepKeepsOrder(c, ws[k - 1], steps[k - 1], ws[k], destination, ref);
    }
  }

  lemma FinishedStep(c: Config, ws: seq<World>, steps: seq<Step>, destination: string, ref: string, k: nat, i: int)
    requires Run(c, ws, steps) && NeverRests(c, ws, steps, destination, ref) && k < |steps|
    requires i in ws[k].q.deliveries && InStream(ws[k].q.deliveries[i], destination, ref) && IsTerminal(ws[k].q.deliveries[i].status)
    ensures i in ws[k + 1].q.deliveries && IsTerminal(ws[k + 1].q.deliveries[i].status)
    ensures InStream(ws[k + 1].q.deliveries[i], destination, ref)
  {
    RunsAreExclusive(c, ws, steps, k);
    RunsAreOrdered(c, ws, steps, destination, ref, k);
    assert StepAt(c, ws, steps, k) && FinishesAt(c, ws, steps, destination, ref, k);
    StepKeepsOrder(c, ws[k], steps[k], ws[k + 1], destination, ref);
    StepKeepsRecords(c, ws[k], steps[k], ws[k + 1], i);
  }

  lemma {:induction false} FinishedForGood(c: Config, ws: seq<World>, steps: seq<Step>, destination: string, ref: string, a: nat, b: nat, i: int)
    requires Run(c, ws, steps) && NeverRests(c, ws, steps, destination, ref) && a <= b < |ws|
    requires i in ws[a].q.deliveries && InStream(ws[a].q.deliveries[i], destination, ref) && IsTerminal(ws[a].q.deliveries[i].status)
    ensures i in ws[b].q.deliveries && IsTerminal(ws[b].q.deliveries[i].status)
    ensures InStream(ws[b].q.deliveries[i], destination, ref)
    decreases b
  {
    if a < b {
      FinishedForGood(c, ws, steps, destination, ref, a, b - 1, i);
      FinishedStep(c, ws, steps, destination, ref, b - 1, i);
    }
  }

  lemma StepKeepsRecords(c: Config, w: World, s: Step, v: World, i: int)
    requires Inv(c, w) && Next(c, w, s, v) && i in w.q.deliveries
    ensures i in v.q.deliveries && SameIdentity(w.q.deliveries[i], v.q.deliveries[i])
  {
    if s.Enqueue? {
      EnqueueOnlyAdds(c, w, s, v);
    } else if s.Complete? {
      var del := w.handed[s.token].snapshot;
      SettleKeepsIdentity(del, c.policy(del.destination), Judge(s.found, s.allowed, s.result), s.closed, w.clock, s.roll);
    }
  }

  lemma {:induction false} RecordsStay(c: Config, ws: seq<World>, steps: seq<Step>, a: nat, b: nat, i: int)
    requires Run(c, ws, steps) && a <= b < |ws| && i in ws[a].q.deliveries
    ensures i in ws[b].q.deliveries && SameIdentity(ws[a].q.deliveries[i], ws[b].q.deliveries[i])
    decreases b
  {
    if a < b {
      RecordsStay(c, ws, steps, a, b - 1, i);
      RunsAreExclusive(c, ws, steps, b - 1);
      assert StepAt(c, ws, steps, b - 1);
      StepKeepsRecords(c, ws[b - 1], steps[b - 1], ws[b], i);
    }
  }

  /** In a stream that never rests, claims follow the sequence: a later claim is never of an
      earlier delivery. */
  lemma ClaimsFollowSequence(c: Config, ws: seq<World>, steps: seq<Step>, a: nat, b: nat, i: int, j: int)
    requires Run(c, ws, steps) && a < b < |steps|
    requires steps[a].Claim? && i in steps[a].ids && steps[b].Claim? && j in steps[b].ids
    requires i in ws[a].q.deliveries && j in ws[b].q.deliveries && SameStream(ws[a].q.deliveries[i], ws[b].q.deliveries[j])
    requires var d := ws[a].q.deliveries[i]; NeverRests(c, ws, steps, d.destination, d.ref)
    ensures ws[a].q.deliveries[i].sequence <= ws[b].q.deliveries[j].sequence
  {
    var d := ws[a].q.deliveries[i];
    RunsAreExclusive(c, ws, steps, a);
    RunsAreExclusive(c, ws, steps, b);
    RecordsStay(c, ws, steps, a, b, i);
    assert StepAt(c, ws, steps, b);
    assert Winner(ws[b].q, steps[b].shard, steps[b].now, j);
    if ws[b].q.deliveries[j].sequence < d.sequence {
      assert FiledRight(c, ws[a].q, i) && FiledRight(c, ws[b].q, j);
      assert j < i;
      assert j in ws[a].q.deliveries;
      RecordsStay(c, ws, steps, a, b, j);
      ClaimedAfterFinished(c, ws, steps, a, j, i);
      FinishedForGood(c, ws, steps, d.destination, d.ref, a, b, j);
      assert false;
    }
  }

  lemma ClaimedAfterFinished(c: Config, ws: seq<World>, steps: seq<Step>, k: nat, i: int, j: int)
    requires Run(c, ws, steps) && k < |steps| && steps[k].Claim? && j in steps[k].ids
    requires i in ws[k].q.deliveries && j in ws[k].q.deliveries && SameStream(ws[k].q.deliveries[i], ws[k].q.deliveries[j])
    requires ws[k].q.deliveries[i].sequence < ws[k].q.deliveries[j].sequence
    requires var d := ws[k].q.deliveries[j]; NeverRests(c, ws, steps, d.destination, d.ref)
    ensures IsTerminal(ws[k].q.deliveries[i].status)
  {
    var d := ws[k].q.deliveries[j];
    RunsAreExclusive(c, ws, steps, k);
    RunsAreOrdered(c, ws, steps, d.destination, d.ref, k);
    assert StepAt(c, ws, steps, k);
    ClaimedOverWaiting(c, ws[k], steps[k], ws[k + 1], i, j);
  }

  /** In a stream that never rests, outcomes follow the sequence: once a delivery is finished,
      so is every earlier one. */
  lemma OutcomesFollowSequence(c: Config, ws: seq<World>, steps: seq<Step>, k: nat, i: int, j: int)
    requires Run(c, ws, steps) && k < |ws|
    requires i in ws[k].q.deliveries && j in ws[k].q.deliveries && SameStream(ws[k].q.deliveries[i], ws[k].q.deliveries[j])
    requires ws[k].q.deliveries[i].sequence < ws[k].q.deliveries[j].sequence
    requires IsTerminal(ws[k].q.deliveries[j].status)
    requires var d := ws[k].q.deliveries[j]; NeverRests(c, ws, steps, d.destination, d.ref)
    ensures IsTerminal(ws[k].q.deliveries[i].status)
  {
    var d := ws[k].q.deliveries[j];
    RunsAreOrdered(c, ws, steps, d.destination, d.ref, k);
  }
}
