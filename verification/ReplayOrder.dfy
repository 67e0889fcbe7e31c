/**
 Queueing a replay. Events are resolved newest first and enqueued in that order, so within a
 transaction the replay's sequence numbers run against the order of the events.
 */
module ReplayOrder {
  import opened Deliveries
  import opened ClaimQueue
  import opened Dispatcher
  import R = Replay

  /** One event to be delivered again to one destination. */
  datatype Job = Job(event: Event, destination: string)

  type Filter = (string, Event) -> bool

  function JobsFor(e: Event, destinations: seq<string>, wants: Filter, n: nat): seq<Job>
    requires n <= |destinations|
  {
    if n == 0 then []
    else JobsFor(e, destinations, wants, n - 1) + if wants(destinations[n - 1], e) then [Job(e, destinations[n - 1])] else []
  }

  /** The jobs of the first `n` events: event by event, to every destination whose filter matches. */
  function Jobs(events: seq<Event>, destinations: seq<string>, wants: Filter, n: nat): seq<Job>
    requires n <= |events|
  {
    if n == 0 then []
    else Jobs(events, destinations, wants, n - 1) + JobsFor(events[n - 1], destinations, wants, |destinations|)
  }

  function KeyAt(jobs: seq<Job>, k: nat): string
    requires k < |jobs|
  {
    SequenceKey(jobs[k].event.tenant, jobs[k].event.ref)
  }

  /** How many of the first `n` jobs count up the sequence `key`. */
  function Count(jobs: seq<Job>, n: nat, key: string): nat
    requires n <= |jobs|
  {
    if n == 0 then 0 else Count(jobs, n - 1, key) + if KeyAt(jobs, n - 1) == key then 1 else 0
  }

  function Last(q: Queue, key: string): int {
    if key in q.sequences then q.sequences[key] else 0
  }

  /** `v` is `q` with one pending delivery for each job, numbered on from the last of its sequence. */
  ghost predicate Requeued(q: Queue, jobs: seq<Job>, v: Queue) {
    && v.leases == q.leases && v.events == q.events && v.lastId == q.lastId + |jobs|
    && (forall key :: Last(v, key) == Last(q, key) + Count(jobs, |jobs|, key))
    && (forall id :: id in v.deliveries <==> id in q.deliveries || q.lastId < id <= q.lastId + |jobs|)
    && (forall id :: id in q.deliveries && id <= q.lastId ==> v.deliveries[id] == q.deliveries[id])
    && (forall k :: 0 <= k < |jobs| ==> Numbered(q, jobs, v, k))
  }

  ghost predicate Numbered(q: Queue, jobs: seq<Job>, v: Queue, k: nat)
    requires k < |jobs|
  {
    var id := q.lastId + k + 1;
    && id in v.deliveries
    && var d := v.deliveries[id];
       && d.tenant == jobs[k].event.tenant && d.eventId == jobs[k].event.id && d.destination == jobs[k].destination
       && d.status == Pending && d.attempt == 0
       && d.sequence == Last(q, KeyAt(jobs, k)) + Count(jobs, k + 1, KeyAt(jobs, k))
  }

  lemma {:induction false} CountOfPrefix(jobs: seq<Job>, more: seq<Job>, n: nat, key: string)
    requires n <= |jobs|
    ensures Count(jobs + more, n, key) == Count(jobs, n, key)
  {
    if n > 0 {
      CountOfPrefix(jobs, more, n - 1, key);
    }
  }

  lemma CountAfterOne(jobs: seq<Job>, job: Job, key: string)
    ensures Count(jobs + [job], |jobs| + 1, key)
         == Count(jobs, |jobs|, key) + if SequenceKey(job.event.tenant, job.event.ref) == key then 1 else 0
  {
    CountOfPrefix(jobs, [job], |jobs|, key);
  }

  lemma OldNumbersStay(q: Queue, jobs: seq<Job>, mid: Queue, job: Job, v: Queue, k: nat)
    requires Requeued(q, jobs, mid) && k < |jobs| && q.lastId + k + 1 in v.deliveries
    requires v.deliveries[q.lastId + k + 1] == mid.deliveries[q.lastId + k + 1]
    ensures Numbered(q, jobs + [job], v, k)
  {
    assert Numbered(q, jobs, mid, k) && KeyAt(jobs + [job], k) == KeyAt(jobs, k);
    CountOfPrefix(jobs, [job], k + 1, KeyAt(jobs, k));
  }

  lemma OneMoreJob(q: Queue, jobs: seq<Job>, mid: Queue, job: Job, shard: int, now: Time, v: Queue)
    requires Requeued(q, jobs, mid) && Enqueued(mid, job.event, [job.destination], 1, shard, now, v)
    ensures Requeued(q, jobs + [job], v)
  {
    var all := jobs + [job];
    forall key ensures Last(v, key) == Last(q, key) + Count(all, |all|, key) {
      CountAfterOne(jobs, job, key);
    }
    forall k | 0 <= k < |all| ensures Numbered(q, all, v, k) {
      if k < |jobs| {
        assert Numbered(q, jobs, mid, k);
        OldNumbersStay(q, jobs, mid, job, v, k);
      } else {
        CountAfterOne(jobs, job, KeyAt(all, k));
      }
    }
  }

  /** The queueing loops of a replay; `clock` gives the readings of the clock. */
  method QueueReplay(d: Dispatcher, events: seq<Event>, destinations: seq<string>, wants: Filter, clock: nat -> Time)
    returns (queued: nat)
    modifies d.queue
    ensures Requeued(old(d.queue.Value()), Jobs(events, destinations, wants, |events|), d.queue.Value())
    ensures queued == |Jobs(events, destinations, wants, |events|)|
  {
    ghost var q := d.queue.Value();
    queued := 0;
    for i := 0 to |events|
      invariant queued == |Jobs(events, destinations, wants, i)|
      invariant Requeued(q, Jobs(events, destinations, wants, i), d.queue.Value())
    {
      ghost var before := Jobs(events, destinations, wants, i);
      assert before + [] == before;
      for j := 0 to |destinations|
        invariant queued == |before + JobsFor(events[i], destinations, wants, j)|
        invariant Requeued(q, before + JobsFor(events[i], destinations, wants, j), d.queue.Value())
      {
        ghost var jobs, mid := before + JobsFor(events[i], destinations, wants, j), d.queue.Value();
        if wants(destinations[j], events[i]) {
          d.EnqueueReplay(events[i], destinations[j], clock(queued));
          OneMoreJob(q, jobs, mid, Job(events[i], destinations[j]), d.shardOf(events[i].ref), clock(queued), d.queue.Value());
          assert jobs + [Job(events[i], destinations[j])] == before + JobsFor(events[i], destinations, wants, j + 1);
          queued := queued + 1;
        } else {
          assert jobs == before + JobsFor(events[i], destinations, wants, j + 1);
        }
      }
    }
  }

  // ---- The numbers run backwards ----

  lemma {:induction false} CountGrows(jobs: seq<Job>, i: nat, k: nat, key: string)
    requires i <= k <= |jobs|
    ensures Count(jobs, i, key) <= Count(jobs, k, key)
  {
    if i < k {
      CountGrows(jobs, i, k - 1, key);
    }
  }

  lemma LaterJobsGetLargerNumbers(q: Queue, jobs: seq<Job>, v: Queue, i: nat, k: nat)
    requires Requeued(q, jobs, v) && i < k < |jobs| && KeyAt(jobs, i) == KeyAt(jobs, k)
    ensures q.lastId + i + 1 in v.deliveries && q.lastId + k + 1 in v.deliveries
    ensures v.deliveries[q.lastId + i + 1].sequence < v.deliveries[q.lastId + k + 1].sequence
  {
    assert Numbered(q, jobs, v, i) && Numbered(q, jobs, v, k);
    CountGrows(jobs, i + 1, k, KeyAt(jobs, k));
  }

  lemma {:induction false} JobsForAreOf(e: Event, destinations: seq<string>, wants: Filter, n: nat, k: nat)
    requires n <= |destinations| && k < |JobsFor(e, destinations, wants, n)|
    ensures JobsFor(e, destinations, wants, n)[k].event == e
  {
    if k < |JobsFor(e, destinations, wants, n - 1)| {
      JobsForAreOf(e, destinations, wants, n - 1, k);
    }
  }

  /** Jobs follow the order of the events. */
  lemma {:induction false} JobsFollowEvents(events: seq<Event>, destinations: seq<string>, wants: Filter, n: nat, a: nat, b: nat)
    returns (x: nat, y: nat)
    requires n <= |events| && a <= b < |Jobs(events, destinations, wants, n)|
    ensures x <= y < n
    ensures Jobs(events, destinations, wants, n)[a].event == events[x] && Jobs(events, destinations, wants, n)[b].event == events[y]
  {
    var front := |Jobs(events, destinations, wants, n - 1)|;
    if b < front {
      x, y := JobsFollowEvents(events, destinations, wants, n - 1, a, b);
    } else {
      JobsForAreOf(events[n - 1], destinations, wants, |destinations|, b - front);
      y := n - 1;
      if a < front {
        var z: nat;
        x, z := JobsFollowEvents(events, destinations, wants, n - 1, a, a);
      } else {
        JobsForAreOf(events[n - 1], destinations, wants, |destinations|, a - front);
        x := n - 1;
      }
    }
  }

  function EventOf(e: R.StoredEvent): Event {
    Event(e.id, e.tenant, e.ref)
  }

  function Resolved(hits: seq<R.StoredEvent>): (r: seq<Event>)
    ensures |r| == |hits| && forall i :: 0 <= i < |hits| ==> r[i] == EventOf(hits[i])
  {
    seq(|hits|, i requires 0 <= i < |hits| => EventOf(hits[i]))
  }

  /** In a replay of events resolved newest first, of two events of one sequence the older one gets
      the larger number. */
  lemma OlderEventsGetLargerNumbers(q: Queue, hits: seq<R.StoredEvent>, destinations: seq<string>, wants: Filter, v: Queue, i: nat, k: nat)
    requires R.Descends(hits)
    requires var jobs := Jobs(Resolved(hits), destinations, wants, |hits|);
             && Requeued(q, jobs, v) && i < |jobs| && k < |jobs|
             && KeyAt(jobs, i) == KeyAt(jobs, k) && R.Before(jobs[i].event.id, jobs[k].event.id)
    ensures q.lastId + i + 1 in v.deliveries && q.lastId + k + 1 in v.deliveries
    ensures v.deliveries[q.lastId + k + 1].sequence < v.deliveries[q.lastId + i + 1].sequence
  {
    var jobs := Jobs(Resolved(hits), destinations, wants, |hits|);
    if i <= k {
      var x, y := JobsFollowEvents(Resolved(hits), destinations, wants, |hits|, i, k);
      if x == y {
        R.BeforeIsIrreflexive(hits[x].id);
      } else {
        R.BeforeIsAsymmetric(hits[y].id, hits[x].id);
      }
      assert false;
    }
    LaterJobsGetLargerNumbers(q, jobs, v, k, i);
  }
}
