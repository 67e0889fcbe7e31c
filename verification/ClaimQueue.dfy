/**
 The leased delivery queue of the in-memory store. `Queue` is the abstract value of the
 store's maps; the predicates say declaratively what a claim selects. `MemoryQueue` is the
 store itself, whose methods are proved against them.
 */
module ClaimQueue {
  import opened Deliveries
  import Text

  datatype Queue = Queue(
    deliveries: map<int, Delivery>,
    leases: map<int, Time>,
    sequences: map<string, int>,
    events: map<string, Event>,
    lastId: int)

  /** The transaction reference a delivery is ordered under. */
  function RefFor(events: map<string, Event>, d: Delivery): string {
    if d.ref != "" then d.ref
    else if d.eventId in events then events[d.eventId].ref
    else d.eventId
  }

  /** The one-in-flight key: destination and transaction reference. */
  function KeyFor(events: map<string, Event>, d: Delivery): string {
    d.destination + "|" + RefFor(events, d)
  }

  function KeyOf(q: Queue, d: Delivery): string {
    KeyFor(q.events, d)
  }

  /** Every delivery is filed under its own ID. */
  predicate Filed(deliveries: map<int, Delivery>) {
    forall id :: id in deliveries ==> deliveries[id].id == id
  }

  /** In flight, and not known to have outlived its lease. */
  predicate Live(q: Queue, id: int, now: Time)
    requires id in q.deliveries
  {
    q.deliveries[id].status == InFlight && (id in q.leases ==> now <= q.leases[id])
  }

  predicate Waiting(d: Delivery, now: Time) {
    d.nextRetryAt.Some? && now < d.nextRetryAt.value
  }

  /** What the candidate loop keeps. */
  predicate Due(q: Queue, shard: int, now: Time, id: int) {
    && id in q.deliveries
    && var d := q.deliveries[id];
       && d.shard == shard
       && !IsTerminal(d.status)
       && !(d.status == InFlight && id in q.leases && now < q.leases[id])
       && !Waiting(d, now)
  }

  predicate KeyBlocked(q: Queue, key: string, now: Time) {
    exists id | id in q.deliveries :: Live(q, id, now) && KeyOf(q, q.deliveries[id]) == key
  }

  /** The keys with something in flight. */
  ghost function InFlightKeys(q: Queue, now: Time): set<string> {
    set id | id in q.deliveries && Live(q, id, now) :: KeyOf(q, q.deliveries[id])
  }

  /** The claim order: sequence first, then age. */
  predicate Earlier(a: Delivery, b: Delivery) {
    a.sequence < b.sequence || (a.sequence == b.sequence && a.id < b.id)
  }

  /** `id` is due, nothing of its key is in flight, and it is the first due delivery of its key. */
  ghost predicate Winner(q: Queue, shard: int, now: Time, id: int) {
    && Due(q, shard, now, id)
    && !KeyBlocked(q, KeyOf(q, q.deliveries[id]), now)
    && forall j :: Due(q, shard, now, j) && j != id && KeyOf(q, q.deliveries[j]) == KeyOf(q, q.deliveries[id])
                   ==> Earlier(q.deliveries[id], q.deliveries[j])
  }

  ghost predicate InClaimOrder(q: Queue, ids: seq<int>)
    requires forall i :: 0 <= i < |ids| ==> ids[i] in q.deliveries
  {
    forall i, j :: 0 <= i < j < |ids| ==> Earlier(q.deliveries[ids[i]], q.deliveries[ids[j]])
  }

  /** `ids` lists the first `limit` winners in claim order: winners only, in order, and a
      winner is left behind only when the batch is full of earlier ones. */
  ghost predicate Selects(q: Queue, shard: int, now: Time, limit: int, ids: seq<int>) {
    && |ids| <= limit
    && (forall i :: 0 <= i < |ids| ==> Winner(q, shard, now, ids[i]))
    && InClaimOrder(q, ids)
    && (forall w :: Winner(q, shard, now, w) && w !in ids ==>
          |ids| == limit && forall i :: 0 <= i < |ids| ==> Earlier(q.deliveries[ids[i]], q.deliveries[w]))
  }

  /** A winner with nothing unfinished before it on its key. */
  ghost predicate StrictWinner(q: Queue, shard: int, now: Time, id: int) {
    && Winner(q, shard, now, id)
    && forall j :: j in q.deliveries && q.deliveries[j].shard == shard
                   && KeyOf(q, q.deliveries[j]) == KeyOf(q, q.deliveries[id]) && Earlier(q.deliveries[j], q.deliveries[id])
                   ==> IsTerminal(q.deliveries[j].status)
  }

  /** The selection of a stricter rule, under which an unfinished delivery also blocks the later
      ones of its key. The store does not claim so; `StrictOrder` shows what it would gain. */
  ghost predicate SelectsStrictly(q: Queue, shard: int, now: Time, limit: int, ids: seq<int>) {
    && |ids| <= limit
    && (forall i :: 0 <= i < |ids| ==> StrictWinner(q, shard, now, ids[i]))
    && InClaimOrder(q, ids)
    && (forall w :: StrictWinner(q, shard, now, w) && w !in ids ==>
          |ids| == limit && forall i :: 0 <= i < |ids| ==> Earlier(q.deliveries[ids[i]], q.deliveries[w]))
  }

  function Leased(d: Delivery): Delivery {
    d.(status := InFlight, attempt := d.attempt + 1)
  }

  /** `v` is the queue `q` after leasing `ids` until `expiry`; nothing else changes. */
  ghost predicate Claimed(q: Queue, ids: seq<int>, expiry: Time, v: Queue) {
    && v.sequences == q.sequences && v.events == q.events && v.lastId == q.lastId
    && (forall id :: id in v.deliveries <==> id in q.deliveries)
    && (forall id :: id in q.deliveries ==>
          v.deliveries[id] == if id in ids then Leased(q.deliveries[id]) else q.deliveries[id])
    && (forall id :: id in v.leases <==> id in q.leases || id in ids)
    && (forall id :: id in v.leases ==> v.leases[id] == if id in ids then expiry else q.leases[id])
  }

  /** `CompleteDelivery` on a record that is present under the right tenant. */
  function Completed(q: Queue, d: Delivery): Queue
    requires d.id in q.deliveries
  {
    q.(deliveries := q.deliveries[d.id := d.(createdAt := q.deliveries[d.id].createdAt)],
       leases := q.leases - {d.id})
  }

  function SequenceKey(tenant: string, ref: string): string {
    tenant + "|" + ref
  }

  function LastSequence(q: Queue, tenant: string, ref: string): int {
    var k := SequenceKey(tenant, ref);
    if k in q.sequences then q.sequences[k] else 0
  }

  /** The delivery `Enqueue` files under `id`, for the destination at that position. */
  function Fresh(q: Queue, e: Event, destinations: seq<string>, shard: int, now: Time, id: int): Delivery
    requires q.lastId < id <= q.lastId + |destinations|
  {
    var ref := if e.id in q.events then q.events[e.id].ref else "";
    Delivery(id, e.tenant, e.id, destinations[id - q.lastId - 1], ref, shard, LastSequence(q, e.tenant, e.ref) + 1, 0, Pending, None, now)
  }

  /** `v` is the queue `q` after `Enqueue` has served the first `n` destinations: one new
      sequence number, one pending delivery each; nothing else changes. */
  ghost predicate Enqueued(q: Queue, e: Event, destinations: seq<string>, n: nat, shard: int, now: Time, v: Queue)
    requires n <= |destinations|
  {
    && v.leases == q.leases && v.events == q.events
    && v.sequences == q.sequences[SequenceKey(e.tenant, e.ref) := LastSequence(q, e.tenant, e.ref) + 1]
    && v.lastId == q.lastId + n
    && (forall id :: id in v.deliveries <==> id in q.deliveries || q.lastId < id <= q.lastId + n)
    && (forall id :: id in v.deliveries ==>
          v.deliveries[id] == if q.lastId < id <= q.lastId + n then Fresh(q, e, destinations, shard, now, id) else q.deliveries[id])
  }

  // ---- The selection is a function of the queue ----

  /** `Selects` determines its result: two selections of one queue are the same list. */
  lemma {:induction false} SelectionIsUnique(q: Queue, shard: int, now: Time, limit: int, a: seq<int>, b: seq<int>)
    requires Selects(q, shard, now, limit, a) && Selects(q, shard, now, limit, b)
    ensures a == b
  {
    if |a| <= |b| {
      SameLength(q, shard, now, limit, a, b);
    } else {
      SameLength(q, shard, now, limit, b, a);
    }
  }

  lemma SameLength(q: Queue, shard: int, now: Time, limit: int, a: seq<int>, b: seq<int>)
    requires Selects(q, shard, now, limit, a) && Selects(q, shard, now, limit, b)
    requires |a| <= |b|
    ensures a == b
  {
    PrefixIsUnique(q, shard, now, limit, a, b, |a|);
    assert a == b[..|a|];
    if a != b {
      LaterIsNew(q, b, |a|);
      assert false;
    }
  }

  lemma LaterIsNew(q: Queue, ids: seq<int>, k: nat)
    requires k < |ids|
    requires forall i :: 0 <= i < |ids| ==> ids[i] in q.deliveries
    requires InClaimOrder(q, ids)
    ensures ids[k] !in ids[..k]
  {
  }

  /** Where two selections first differ, each would come before the other. */
  lemma ComesBehind(q: Queue, shard: int, now: Time, limit: int, a: seq<int>, b: seq<int>, k: nat)
    requires Selects(q, shard, now, limit, a) && Selects(q, shard, now, limit, b)
    requires k < |a| && k < |b| && a[..k] == b[..k]
    ensures a[k] == b[k] || Earlier(q.deliveries[b[k]], q.deliveries[a[k]])
  {
    assert forall i :: 0 <= i < k ==> a[i] == a[..k][i] == b[..k][i] == b[i];
    assert forall i :: 0 <= i < k ==> a[i] != a[k];
  }

  lemma {:induction false} PrefixIsUnique(q: Queue, shard: int, now: Time, limit: int, a: seq<int>, b: seq<int>, n: nat)
    requires Selects(q, shard, now, limit, a) && Selects(q, shard, now, limit, b)
    requires n <= |a| && n <= |b|
    ensures a[..n] == b[..n]
  {
    if n > 0 {
      var k := n - 1;
      PrefixIsUnique(q, shard, now, limit, a, b, k);
      ComesBehind(q, shard, now, limit, a, b, k);
      ComesBehind(q, shard, now, limit, b, a, k);
      assert a[..n] == a[..k] + [a[k]] && b[..n] == b[..k] + [b[k]];
    }
  }

  /** Overtaking, exactly. A due delivery whose key is free is claimable if and only if every
      earlier unfinished delivery of its key in the shard is waiting out a future retry time. */
  lemma OvertakesExactlyTheWaiting(q: Queue, shard: int, now: Time, id: int)
    requires Filed(q.deliveries)
    requires Due(q, shard, now, id) && !KeyBlocked(q, KeyOf(q, q.deliveries[id]), now)
    ensures Winner(q, shard, now, id) <==>
            forall j :: j in q.deliveries && q.deliveries[j].shard == shard
                        && KeyOf(q, q.deliveries[j]) == KeyOf(q, q.deliveries[id])
                        && !IsTerminal(q.deliveries[j].status)
                        && Earlier(q.deliveries[j], q.deliveries[id])
                        ==> Waiting(q.deliveries[j], now)
  {
    forall j | j in q.deliveries && q.deliveries[j].shard == shard
               && KeyOf(q, q.deliveries[j]) == KeyOf(q, q.deliveries[id])
               && !IsTerminal(q.deliveries[j].status)
      ensures Due(q, shard, now, j) <==> !Waiting(q.deliveries[j], now)
    {
      assert !Live(q, j, now);
    }
  }

  // ---- Progress ----

  /** The due deliveries of `id`'s key that come before it. */
  ghost function Ahead(q: Queue, shard: int, now: Time, id: int): set<int>
    requires id in q.deliveries
  {
    set j | j in q.deliveries && Due(q, shard, now, j) && KeyOf(q, q.deliveries[j]) == KeyOf(q, q.deliveries[id])
            && Earlier(q.deliveries[j], q.deliveries[id])
  }

  lemma {:induction false} KeyHasWinner(q: Queue, shard: int, now: Time, id: int)
    requires Filed(q.deliveries)
    requires Due(q, shard, now, id) && !KeyBlocked(q, KeyOf(q, q.deliveries[id]), now)
    ensures exists w :: Winner(q, shard, now, w) && KeyOf(q, q.deliveries[w]) == KeyOf(q, q.deliveries[id])
    decreases |Ahead(q, shard, now, id)|
  {
    if j :| j in Ahead(q, shard, now, id) {
      assert Ahead(q, shard, now, j) < Ahead(q, shard, now, id) by {
        assert j !in Ahead(q, shard, now, j);
      }
      Smaller(Ahead(q, shard, now, j), Ahead(q, shard, now, id));
      KeyHasWinner(q, shard, now, j);
    } else {
      forall j | Due(q, shard, now, j) && j != id && KeyOf(q, q.deliveries[j]) == KeyOf(q, q.deliveries[id])
        ensures Earlier(q.deliveries[id], q.deliveries[j])
      {
        assert j !in Ahead(q, shard, now, id);
      }
      assert Winner(q, shard, now, id);
    }
  }

  lemma Smaller<T>(a: set<T>, b: set<T>)
    requires a < b
    ensures |a| < |b|
  {
    assert b == a + (b - a);
  }

  /** A claim is never empty-handed while an unblocked delivery is due. */
  lemma ClaimMakesProgress(q: Queue, shard: int, now: Time, limit: int, ids: seq<int>, id: int)
    requires Filed(q.deliveries) && Selects(q, shard, now, limit, ids) && 0 < limit
    requires Due(q, shard, now, id) && !KeyBlocked(q, KeyOf(q, q.deliveries[id]), now)
    ensures ids != []
    ensures |ids| < limit ==>
              exists w :: w in ids && w in q.deliveries && KeyOf(q, q.deliveries[w]) == KeyOf(q, q.deliveries[id])
  {
    KeyHasWinner(q, shard, now, id);
    var w :| Winner(q, shard, now, w) && KeyOf(q, q.deliveries[w]) == KeyOf(q, q.deliveries[id]);
    assert w in ids || |ids| == limit;
  }

  // ---- In plain terms ----

  /** Two deliveries share a key if and only if they go to one destination and concern one
      transaction: their own reference, else their event's, else the event itself. */
  lemma KeysArePairs(q: Queue, a: Delivery, b: Delivery)
    requires '|' !in a.destination && '|' !in b.destination
    ensures var ra := if a.ref != "" then a.ref else if a.eventId in q.events then q.events[a.eventId].ref else a.eventId;
            var rb := if b.ref != "" then b.ref else if b.eventId in q.events then q.events[b.eventId].ref else b.eventId;
            KeyOf(q, a) == KeyOf(q, b) <==> a.destination == b.destination && ra == rb
  {
    Text.CutJoined(a.destination, '|', RefFor(q.events, a));
    Text.CutJoined(b.destination, '|', RefFor(q.events, b));
  }

  /** Numbers are counted for each tenant and transaction apart. */
  lemma SequencesArePairs(t: string, r: string, t': string, r': string)
    requires '|' !in t && '|' !in t'
    ensures SequenceKey(t, r) == SequenceKey(t', r') <==> t == t' && r == r'
  {
    Text.CutJoined(t, '|', r);
    Text.CutJoined(t', '|', r');
  }

  /** What completing does: the worker's record, under the creation time on file, replaces that of
      the same ID and loses its lease; everything else stays. */
  lemma CompletedInPlainTerms(q: Queue, d: Delivery)
    requires d.id in q.deliveries
    ensures var v := Completed(q, d);
            && v.sequences == q.sequences && v.events == q.events && v.lastId == q.lastId
            && v.deliveries.Keys == q.deliveries.Keys && v.deliveries[d.id] == d.(createdAt := q.deliveries[d.id].createdAt)
            && (forall id :: id in q.deliveries && id != d.id ==> v.deliveries[id] == q.deliveries[id])
            && (forall id :: id in v.leases <==> id in q.leases && id != d.id)
            && (forall id :: id in v.leases ==> v.leases[id] == q.leases[id])
  {
  }

  /** What a new delivery looks like: its tenant's, for the event and the destination in turn, under
      the event's reference on file and the next sequence number, pending and never attempted. */
  lemma FreshInPlainTerms(q: Queue, e: Event, destinations: seq<string>, shard: int, now: Time, id: int)
    requires q.lastId < id <= q.lastId + |destinations|
    ensures var d := Fresh(q, e, destinations, shard, now, id);
            && d.id == id && d.tenant == e.tenant && d.eventId == e.id && d.destination == destinations[id - q.lastId - 1]
            && (e.id in q.events ==> d.ref == q.events[e.id].ref) && d.shard == shard
            && d.sequence == 1 + (if SequenceKey(e.tenant, e.ref) in q.sequences then q.sequences[SequenceKey(e.tenant, e.ref)] else 0)
            && d.attempt == 0 && d.status == Pending && d.nextRetryAt == None && d.createdAt == now
  {
  }

  /** Every delivery carries its own or its event's reference, and no destination's name has a bar. */
  ghost predicate Addressed(q: Queue) {
    forall id :: id in q.deliveries ==> AddressedAt(q, id)
  }

  predicate AddressedAt(q: Queue, id: int)
    requires id in q.deliveries
  {
    var d := q.deliveries[id];
    '|' !in d.destination && (d.ref == "" ==> d.eventId in q.events && q.events[d.eventId].ref == "")
  }

  predicate SamePair(a: Delivery, b: Delivery) {
    a.destination == b.destination && a.ref == b.ref
  }

  lemma PairsShareKeys(q: Queue, i: int, j: int)
    requires Addressed(q) && i in q.deliveries && j in q.deliveries
    ensures KeyOf(q, q.deliveries[i]) == KeyOf(q, q.deliveries[j]) <==> SamePair(q.deliveries[i], q.deliveries[j])
  {
    assert AddressedAt(q, i) && AddressedAt(q, j);
    KeysArePairs(q, q.deliveries[i], q.deliveries[j]);
  }

  /** Waiting to be attempted: not finished, and past its retry time if it has one. */
  predicate Ready(d: Delivery, now: Time) {
    (d.status == Pending || d.status == Failed || d.status == InFlight) && (d.nextRetryAt.Some? ==> d.nextRetryAt.value <= now)
  }

  /** In flight with a lease that has not run out. */
  predicate Busy(q: Queue, id: int, now: Time)
    requires id in q.deliveries
  {
    q.deliveries[id].status == InFlight && !(id in q.leases && q.leases[id] < now)
  }

  /** Who can be claimed, by destination and reference alone: a ready delivery of the shard, if
      nothing of its pair is busy, and no other ready one of its pair in the shard has a smaller
      sequence number, or the same one and a smaller ID. What else goes to the destination does
      not matter. */
  lemma WinnersInPlainTerms(q: Queue, shard: int, now: Time, id: int)
    requires Filed(q.deliveries) && Addressed(q)
    ensures Winner(q, shard, now, id) <==>
            && id in q.deliveries && q.deliveries[id].shard == shard && Ready(q.deliveries[id], now)
            && (forall j :: j in q.deliveries && SamePair(q.deliveries[j], q.deliveries[id]) ==> !Busy(q, j, now))
            && (forall j :: j in q.deliveries && j != id && q.deliveries[j].shard == shard
                            && SamePair(q.deliveries[j], q.deliveries[id]) && Ready(q.deliveries[j], now) ==>
                  || q.deliveries[id].sequence < q.deliveries[j].sequence
                  || (q.deliveries[id].sequence == q.deliveries[j].sequence && id < j))
  {
    if id in q.deliveries {
      forall j | j in q.deliveries
        ensures KeyOf(q, q.deliveries[j]) == KeyOf(q, q.deliveries[id]) <==> SamePair(q.deliveries[j], q.deliveries[id])
      {
        PairsShareKeys(q, j, id);
      }
      NothingBusy(q, now, id);
    }
  }

  lemma NothingBusy(q: Queue, now: Time, id: int)
    requires id in q.deliveries
    requires forall j :: j in q.deliveries ==>
               (KeyOf(q, q.deliveries[j]) == KeyOf(q, q.deliveries[id]) <==> SamePair(q.deliveries[j], q.deliveries[id]))
    ensures KeyBlocked(q, KeyOf(q, q.deliveries[id]), now) <==>
            exists j :: j in q.deliveries && SamePair(q.deliveries[j], q.deliveries[id]) && Busy(q, j, now)
  {
    forall j | j in q.deliveries ensures Busy(q, j, now) <==> Live(q, j, now) {
    }
  }
}
