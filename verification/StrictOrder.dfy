/**
 What a stricter claim rule would gain. If an unfinished delivery also blocked the later ones of
 its key, every stream completed only by those who were handed its deliveries last would be claimed and finished
 in sequence order, retries and all.
 */
module StrictOrder {
  import opened Deliveries
  import opened ClaimQueue
  import opened DeliveryRuns
  import opened DeliveryOrder
  import opened DeliveryLeases
  import opened DeliveryBudget

  /** Completions of the stream's deliveries are of their latest handouts. */
  ghost predicate StreamUndisturbed(ws: seq<World>, steps: seq<Step>, destination: string, ref: string)
    requires |ws| == |steps| + 1
  {
    forall id :: id in ws[|steps|].q.deliveries && InStream(ws[|steps|].q.deliveries[id], destination, ref)
                 ==> Undisturbed(ws, steps, id)
  }

  predicate Precedes(q: Queue, i: int, j: int, destination: string, ref: string) {
    && i in q.deliveries && j in q.deliveries
    && InStream(q.deliveries[i], destination, ref) && InStream(q.deliveries[j], destination, ref)
    && q.deliveries[i].sequence < q.deliveries[j].sequence
  }

  /** Whatever has been started in the stream has only finished deliveries before it. */
  ghost predicate StartedInOrder(q: Queue, destination: string, ref: string) {
    forall i, j :: Precedes(q, i, j, destination, ref) && q.deliveries[j].status != Pending
                   ==> IsTerminal(q.deliveries[i].status)
  }

  /** A strict claim takes nothing that has an unfinished delivery before it. */
  lemma ClaimedAfterAllBefore(c: Config, w: World, s: Step, v: World, destination: string, ref: string, i: int, j: int)
    requires c.strict && Inv(c, w) && s.Claim? && Next(c, w, s, v)
    requires j in s.ids && Precedes(w.q, i, j, destination, ref)
    ensures IsTerminal(w.q.deliveries[i].status)
  {
    assert FiledRight(c, w.q, i) && FiledRight(c, w.q, j);
    assert StrictWinner(w.q, s.shard, s.now, j);
  }

  lemma StrictStep(c: Config, w: World, s: Step, v: World, destination: string, ref: string, i: int, j: int)
    requires c.strict && Inv(c, w) && Inv(c, v) && Next(c, w, s, v) && StartedInOrder(w.q, destination, ref)
    requires Becomes(c, w, s, v, i) && Becomes(c, w, s, v, j)
    requires Precedes(v.q, i, j, destination, ref) && v.q.deliveries[j].status != Pending
    ensures IsTerminal(v.q.deliveries[i].status)
  {
    assert FiledRight(c, v.q, i) && FiledRight(c, v.q, j);
    assert j in w.q.deliveries;
    assert SameStream(v.q.deliveries[i], v.q.deliveries[j]);
    assert i in w.q.deliveries by {
      assert FiledRight(c, w.q, j);
      assert i < j;
    }
    StepKeepsRecords(c, w, s, v, i);
    StepKeepsRecords(c, w, s, v, j);
    assert Precedes(w.q, i, j, destination, ref);
    if s.Claim? && j in s.ids {
      ClaimedAfterAllBefore(c, w, s, v, destination, ref, i, j);
    }
  }

  lemma StrictPair(c: Config, ws: seq<World>, steps: seq<Step>, destination: string, ref: string, k: nat, i: int, j: int)
    requires c.strict && Run(c, ws, steps) && StreamUndisturbed(ws, steps, destination, ref) && 0 < k < |ws|
    requires StartedInOrder(ws[k - 1].q, destination, ref)
    requires Precedes(ws[k].q, i, j, destination, ref) && ws[k].q.deliveries[j].status != Pending
    ensures IsTerminal(ws[k].q.deliveries[i].status)
  {
    RunsAreExclusive(c, ws, steps, k - 1);
    RunsAreExclusive(c, ws, steps, k);
    BecomesUndisturbed(c, ws, steps, destination, ref, k, i);
    BecomesUndisturbed(c, ws, steps, destination, ref, k, j);
    assert StepAt(c, ws, steps, k - 1);
    StrictStep(c, ws[k - 1], steps[k - 1], ws[k], destination, ref, i, j);
  }

  /** In every run of the strict rule, a delivery that has been started has only finished ones
      before it: claims and outcomes follow the sequence, though attempts may rest and be retried. */
  lemma {:induction false} StrictRunsAreOrdered(c: Config, ws: seq<World>, steps: seq<Step>, destination: string, ref: string, k: nat)
    requires c.strict && Run(c, ws, steps) && StreamUndisturbed(ws, steps, destination, ref) && k < |ws|
    ensures StartedInOrder(ws[k].q, destination, ref)
    decreases k
  {
    if k > 0 {
      StrictRunsAreOrdered(c, ws, steps, destination, ref, k - 1);
      forall i, j | Precedes(ws[k].q, i, j, destination, ref) && ws[k].q.deliveries[j].status != Pending
        ensures IsTerminal(ws[k].q.deliveries[i].status)
      {
        StrictPair(c, ws, steps, destination, ref, k, i, j);
      }
    }
  }

  lemma BecomesUndisturbed(c: Config, ws: seq<World>, steps: seq<Step>, destination: string, ref: string, k: nat, id: int)
    requires Run(c, ws, steps) && StreamUndisturbed(ws, steps, destination, ref) && 0 < k < |ws|
    requires id in ws[k].q.deliveries && InStream(ws[k].q.deliveries[id], destination, ref)
    ensures Becomes(c, ws[k - 1], steps[k - 1], ws[k], id)
  {
    RecordsStay(c, ws, steps, k, |steps|, id);
    RunsStayFaithful(c, ws, steps, id, k - 1);
    assert StepAt(c, ws, steps, k - 1) && UndisturbedAt(ws, steps, id, k - 1);
    StepBecomes(c, ws[k - 1], steps[k - 1], ws[k], id);
  }
}
