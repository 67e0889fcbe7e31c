/** The in-memory store's delivery methods, each proved to compute its `ClaimQueue` value. */
module MemoryQueue {
  import opened Deliveries
  import opened ClaimQueue

  datatype Outcome = Ok | NotFound

  ghost predicate Sorted(s: seq<Delivery>) {
    forall i, j :: 0 <= i < j < |s| ==> !Earlier(s[j], s[i])
  }

  /** The place of `d` in a sorted list: after everything not later than it. */
  method Place(r: seq<Delivery>, d: Delivery) returns (k: nat)
    requires Sorted(r)
    ensures k <= |r| && Sorted(r[..k] + [d] + r[k..])
  {
    k := |r|;
    while k > 0 && Earlier(d, r[k - 1])
      invariant 0 <= k <= |r|
      invariant forall j :: k <= j < |r| ==> Earlier(d, r[j])
    {
      k := k - 1;
    }
    assert forall j :: 0 <= j < k ==> !Earlier(d, r[j]);
  }

  /** `sort.Slice` with the claim order: a sorted rearrangement of `s`. */
  method SortByClaimOrder(s: seq<Delivery>) returns (r: seq<Delivery>)
    ensures Sorted(r)
    ensures multiset(r) == multiset(s)
  {
    r := [];
    for n := 0 to |s|
      invariant Sorted(r)
      invariant multiset(r) == multiset(s[..n])
    {
      var k := Place(r, s[n]);
      assert r == r[..k] + r[k..] && s[..n + 1] == s[..n] + [s[n]];
      r := r[..k] + [s[n]] + r[k..];
    }
    assert s[..|s|] == s;
  }

  /** A map is ranged over in some order, each key once. */
  method MapOrder<K>(keys: set<K>) returns (r: seq<K>)
    ensures forall i :: 0 <= i < |r| ==> r[i] in keys
    ensures forall k :: k in keys ==> k in r
    ensures forall i, j :: 0 <= i < j < |r| ==> r[i] != r[j]
  {
    r := [];
    var todo := keys;
    while todo != {}
      invariant todo <= keys
      invariant forall i :: 0 <= i < |r| ==> r[i] in keys && r[i] !in todo
      invariant forall k :: k in keys ==> k in todo || k in r
      invariant forall i, j :: 0 <= i < j < |r| ==> r[i] != r[j]
      decreases todo
    {
      var k :| k in todo;
      todo := todo - {k};
      r := r + [k];
    }
  }

  /** `ds` lists exactly the due deliveries, once each. */
  ghost predicate ListsDue(q: Queue, shard: int, now: Time, ds: seq<Delivery>) {
    && (forall i :: 0 <= i < |ds| ==> Due(q, shard, now, ds[i].id) && ds[i] == q.deliveries[ds[i].id])
    && (forall i, j :: 0 <= i < j < |ds| ==> ds[i].id != ds[j].id)
    && (forall id {:trigger q.deliveries[id] in ds} :: Due(q, shard, now, id) ==> q.deliveries[id] in ds)
  }

  lemma SortingKeepsTheList(q: Queue, shard: int, now: Time, ds: seq<Delivery>, r: seq<Delivery>)
    requires ListsDue(q, shard, now, ds)
    requires multiset(r) == multiset(ds)
    ensures ListsDue(q, shard, now, r)
  {
    forall d: Delivery ensures d in r <==> d in ds {
      assert d in multiset(r) <==> d in multiset(ds);
    }
    forall i | 0 <= i < |r|
      ensures Due(q, shard, now, r[i].id) && r[i] == q.deliveries[r[i].id]
    {
      assert r[i] in ds;
    }
    forall i, j | 0 <= i < j < |r|
      ensures r[i].id != r[j].id
    {
      if r[i] == r[j] {
        Twice(r, i, j);
        OnlyOnce(q, shard, now, ds, r[i]);
      }
    }
  }

  lemma Twice(s: seq<Delivery>, i: nat, j: nat)
    requires i < j < |s| && s[i] == s[j]
    ensures multiset(s)[s[i]] >= 2
  {
    assert s == s[..j] + [s[j]] + s[j + 1..];
    assert s[i] in s[..j];
  }

  lemma OnlyOnce(q: Queue, shard: int, now: Time, ds: seq<Delivery>, d: Delivery)
    requires ListsDue(q, shard, now, ds)
    ensures multiset(ds)[d] <= 1
  {
    if d in ds {
      var a :| 0 <= a < |ds| && ds[a] == d;
      Once(ds, a);
    }
  }

  lemma Once<T>(s: seq<T>, a: nat)
    requires a < |s| && forall i :: 0 <= i < |s| && i != a ==> s[i] != s[a]
    ensures multiset(s)[s[a]] == 1
  {
    assert s == s[..a] + [s[a]] + s[a + 1..];
    assert s[a] !in s[..a] && s[a] !in s[a + 1..];
  }

  ghost function Ids(ds: seq<Delivery>): (r: seq<int>)
    ensures |r| == |ds| && forall i :: 0 <= i < |ds| ==> r[i] == ds[i].id
  {
    seq(|ds|, i requires 0 <= i < |ds| => ds[i].id)
  }

  /** The keys of the first `i` candidates. */
  ghost function SeenKeys(q: Queue, ds: seq<Delivery>, i: nat): set<string>
    requires i <= |ds|
  {
    set j | 0 <= j < i :: KeyOf(q, ds[j])
  }

  /** Walking the sorted list, a candidate wins exactly when its key is neither in flight
      nor carried by an earlier candidate. */
  lemma WinsAtFirstSight(q: Queue, shard: int, now: Time, ds: seq<Delivery>, i: nat)
    requires Filed(q.deliveries) && ListsDue(q, shard, now, ds) && Sorted(ds) && i < |ds|
    ensures Winner(q, shard, now, ds[i].id) <==>
            && !KeyBlocked(q, KeyOf(q, ds[i]), now)
            && KeyOf(q, ds[i]) !in SeenKeys(q, ds, i)
  {
    forall j | Due(q, shard, now, j) && j != ds[i].id
      ensures exists k :: 0 <= k < |ds| && k != i && ds[k] == q.deliveries[j]
    {
      assert q.deliveries[j] in ds;
    }
    assert forall j :: 0 <= j < i ==> ds[j].id != ds[i].id && Due(q, shard, now, ds[j].id);
  }

  /** The winners among the first `i` candidates, in order. */
  ghost function Wins(q: Queue, shard: int, now: Time, ds: seq<Delivery>, i: nat): seq<int>
    requires i <= |ds|
  {
    if i == 0 then []
    else if Winner(q, shard, now, ds[i - 1].id) then Wins(q, shard, now, ds, i - 1) + [ds[i - 1].id]
    else Wins(q, shard, now, ds, i - 1)
  }

  ghost predicate Among(ds: seq<Delivery>, i: nat, id: int)
    requires i <= |ds|
  {
    exists j :: 0 <= j < i && ds[j].id == id
  }

  /** `ids` are winners, in claim order, and include every winner among the first `i` candidates. */
  ghost predicate WonInOrder(q: Queue, shard: int, now: Time, ds: seq<Delivery>, i: nat, ids: seq<int>)
    requires i <= |ds|
  {
    && (forall k :: 0 <= k < |ids| ==> Winner(q, shard, now, ids[k]) && Among(ds, i, ids[k]))
    && InClaimOrder(q, ids)
    && (forall j :: 0 <= j < i && Winner(q, shard, now, ds[j].id) ==> ds[j].id in ids)
  }

  lemma WonBefore(q: Queue, shard: int, now: Time, ds: seq<Delivery>, i: nat, ids: seq<int>, k: nat)
    requires Filed(q.deliveries) && ListsDue(q, shard, now, ds) && Sorted(ds) && i < |ds|
    requires WonInOrder(q, shard, now, ds, i, ids) && k < |ids|
    ensures Earlier(q.deliveries[ids[k]], ds[i])
  {
    assert Among(ds, i, ids[k]);
  }

  lemma LoserPasses(q: Queue, shard: int, now: Time, ds: seq<Delivery>, i: nat, ids: seq<int>)
    requires i < |ds| && WonInOrder(q, shard, now, ds, i, ids) && !Winner(q, shard, now, ds[i].id)
    ensures WonInOrder(q, shard, now, ds, i + 1, ids)
  {
    forall k | 0 <= k < |ids| ensures Among(ds, i + 1, ids[k]) {
      assert Among(ds, i, ids[k]);
    }
  }

  lemma WinnerJoins(q: Queue, shard: int, now: Time, ds: seq<Delivery>, i: nat, ids: seq<int>)
    requires i < |ds| && WonInOrder(q, shard, now, ds, i, ids) && Winner(q, shard, now, ds[i].id)
    requires ds[i] == q.deliveries[ds[i].id] && forall k :: 0 <= k < |ids| ==> Earlier(q.deliveries[ids[k]], ds[i])
    ensures WonInOrder(q, shard, now, ds, i + 1, ids + [ds[i].id])
  {
    var all := ids + [ds[i].id];
    assert forall j :: 0 <= j < i && Winner(q, shard, now, ds[j].id) ==> ds[j].id in ids;
    assert all[|ids|] == ds[i].id;
    assert forall id :: id in ids ==> id in all;
    forall k | 0 <= k < |all| ensures Among(ds, i + 1, all[k]) {
      assert k < |ids| ==> Among(ds, i, ids[k]);
    }
  }

  lemma OneMoreCandidate(q: Queue, shard: int, now: Time, ds: seq<Delivery>, i: nat, ids: seq<int>, next: seq<int>)
    requires Filed(q.deliveries) && ListsDue(q, shard, now, ds) && Sorted(ds) && i < |ds|
    requires WonInOrder(q, shard, now, ds, i, ids) && ids == Wins(q, shard, now, ds, i) && next == Wins(q, shard, now, ds, i + 1)
    ensures WonInOrder(q, shard, now, ds, i + 1, next)
  {
    if !Winner(q, shard, now, ds[i].id) {
      LoserPasses(q, shard, now, ds, i, ids);
    } else {
      forall k | 0 <= k < |ids| ensures Earlier(q.deliveries[ids[k]], ds[i]) {
        WonBefore(q, shard, now, ds, i, ids, k);
      }
      WinnerJoins(q, shard, now, ds, i, ids);
    }
  }

  lemma {:induction false} WinsInOrder(q: Queue, shard: int, now: Time, ds: seq<Delivery>, i: nat)
    requires Filed(q.deliveries) && ListsDue(q, shard, now, ds) && Sorted(ds) && i <= |ds|
    ensures WonInOrder(q, shard, now, ds, i, Wins(q, shard, now, ds, i))
  {
    if i > 0 {
      var ids, next := Wins(q, shard, now, ds, i - 1), Wins(q, shard, now, ds, i);
      WinsInOrder(q, shard, now, ds, i - 1);
      OneMoreCandidate(q, shard, now, ds, i - 1, ids, next);
    }
  }

  /** What one turn of the claim loop needs to know about its candidate. */
  ghost predicate Decides(q: Queue, shard: int, now: Time, ds: seq<Delivery>, inFlight: set<string>, i: int)
    requires 0 <= i < |ds|
  {
    var blocked, wins := inFlight + SeenKeys(q, ds, i), Wins(q, shard, now, ds, i);
    && ds[i].id in q.deliveries && ds[i] == q.deliveries[ds[i].id] && ds[i].id !in wins
    && inFlight + SeenKeys(q, ds, i + 1) == blocked + {KeyOf(q, ds[i])}
    && Wins(q, shard, now, ds, i + 1) == if KeyOf(q, ds[i]) in blocked then wins else wins + [ds[i].id]
  }

  lemma CandidateDecides(q: Queue, shard: int, now: Time, ds: seq<Delivery>, inFlight: set<string>, i: nat)
    requires Listing(q, shard, now, ds, inFlight) && i < |ds|
    ensures Decides(q, shard, now, ds, inFlight, i)
  {
    WinsAtFirstSight(q, shard, now, ds, i);
    assert ds[i].id !in Wins(q, shard, now, ds, i) by {
      WinsInOrder(q, shard, now, ds, i);
      NotAmongEarlier(q, shard, now, ds, i);
    }
    OneMoreKey(q, ds, i);
  }

  lemma NotAmongEarlier(q: Queue, shard: int, now: Time, ds: seq<Delivery>, i: nat)
    requires ListsDue(q, shard, now, ds) && i < |ds|
    ensures !Among(ds, i, ds[i].id)
  {
  }

  lemma OneMoreKey(q: Queue, ds: seq<Delivery>, i: nat)
    requires i < |ds|
    ensures SeenKeys(q, ds, i + 1) == SeenKeys(q, ds, i) + {KeyOf(q, ds[i])}
  {
  }

  /** Stopping at the end of the list, or at a full batch, leaves the selection complete. */
  lemma WinsSelect(q: Queue, shard: int, now: Time, limit: int, ds: seq<Delivery>, i: nat)
    requires Filed(q.deliveries) && ListsDue(q, shard, now, ds) && Sorted(ds) && i <= |ds|
    requires |Wins(q, shard, now, ds, i)| <= limit
    requires i == |ds| || |Wins(q, shard, now, ds, i)| == limit
    ensures Selects(q, shard, now, limit, Wins(q, shard, now, ds, i))
  {
    WinsInOrder(q, shard, now, ds, i);
    var ids := Wins(q, shard, now, ds, i);
    forall w | Winner(q, shard, now, w) && w !in ids
      ensures |ids| == limit && forall k :: 0 <= k < |ids| ==> Earlier(q.deliveries[ids[k]], q.deliveries[w])
    {
      assert q.deliveries[w] in ds;
      var m :| 0 <= m < |ds| && ds[m] == q.deliveries[w];
      forall k | 0 <= k < |ids|
        ensures Earlier(q.deliveries[ids[k]], q.deliveries[w])
      {
        assert Among(ds, i, ids[k]);
        var j :| 0 <= j < i && ds[j].id == ids[k];
        assert ds[j].id != ds[m].id && !Earlier(ds[m], ds[j]);
      }
    }
  }

  /** `claimed` holds the leased copies of `ids`, in order. */
  ghost predicate Snapshots(q: Queue, ids: seq<int>, claimed: seq<Delivery>) {
    && |claimed| == |ids|
    && forall c :: 0 <= c < |ids| ==> ids[c] in q.deliveries && claimed[c] == Leased(q.deliveries[ids[c]])
  }

  lemma SnapshotsGrow(q: Queue, ids: seq<int>, claimed: seq<Delivery>, d: Delivery)
    requires Snapshots(q, ids, claimed)
    requires d.id in q.deliveries && d == q.deliveries[d.id]
    ensures Snapshots(q, ids + [d.id], claimed + [Leased(d)])
  {
  }

  /** What the claiming loop starts from: the due deliveries in claim order, and the keys in flight. */
  ghost predicate Listing(q: Queue, shard: int, now: Time, ds: seq<Delivery>, inFlight: set<string>) {
    && Filed(q.deliveries) && ListsDue(q, shard, now, ds) && Sorted(ds)
    && inFlight == InFlightKeys(q, now)
  }

  /** The claiming loop's variables. */
  datatype Loop = Loop(blocked: set<string>, claimed: seq<Delivery>, q: Queue)

  function Turn(l: Loop, d: Delivery, expiry: Time): Loop {
    var key := KeyOf(l.q, d);
    if key in l.blocked then l
    else Loop(l.blocked + {key},
              l.claimed + [Leased(d)],
              l.q.(deliveries := l.q.deliveries[d.id := Leased(d)], leases := l.q.leases[d.id := expiry]))
  }

  /** The variables after the first `i` candidates. */
  function Turns(l: Loop, ds: seq<Delivery>, i: nat, expiry: Time): Loop
    requires i <= |ds|
  {
    if i == 0 then l else Turn(Turns(l, ds, i - 1, expiry), ds[i - 1], expiry)
  }

  /** The loop has leased exactly the winners among the first `i` candidates. */
  ghost predicate Progress(q: Queue, shard: int, now: Time, expiry: Time, ds: seq<Delivery>, i: nat,
                           inFlight: set<string>, l: Loop)
    requires i <= |ds|
  {
    var ids := Wins(q, shard, now, ds, i);
    l.blocked == inFlight + SeenKeys(q, ds, i) && Claimed(q, ids, expiry, l.q) && Snapshots(q, ids, l.claimed)
  }

  lemma TurnProgresses(q: Queue, shard: int, now: Time, expiry: Time, ds: seq<Delivery>, i: nat, inFlight: set<string>, l: Loop)
    requires i < |ds| && Decides(q, shard, now, ds, inFlight, i)
    requires Progress(q, shard, now, expiry, ds, i, inFlight, l)
    ensures Progress(q, shard, now, expiry, ds, i + 1, inFlight, Turn(l, ds[i], expiry))
  {
    var ids := Wins(q, shard, now, ds, i);
    if KeyOf(q, ds[i]) in l.blocked {
      assert l.blocked + {KeyOf(q, ds[i])} == l.blocked;
    } else {
      ClaimOneMore(q, ids, ds[i].id, expiry, l.q);
      SnapshotsGrow(q, ids, l.claimed, ds[i]);
    }
  }

  lemma {:induction false} TurnsProgress(q: Queue, shard: int, now: Time, expiry: Time, ds: seq<Delivery>, i: nat, inFlight: set<string>)
    requires i <= |ds| && forall n :: 0 <= n < |ds| ==> Decides(q, shard, now, ds, inFlight, n)
    ensures Progress(q, shard, now, expiry, ds, i, inFlight, Turns(Loop(inFlight, [], q), ds, i, expiry))
  {
    if i == 0 {
      assert inFlight + SeenKeys(q, ds, 0) == inFlight;
    } else {
      TurnsProgress(q, shard, now, expiry, ds, i - 1, inFlight);
      var l := Turns(Loop(inFlight, [], q), ds, i - 1, expiry);
      TurnProgresses(q, shard, now, expiry, ds, i - 1, inFlight, l);
      assert Turns(Loop(inFlight, [], q), ds, i, expiry) == Turn(l, ds[i - 1], expiry);
    }
  }

  /** A loop that stops at a full batch or at the end of the list has made the selection. */
  lemma TurnsClaim(q: Queue, shard: int, now: Time, limit: int, expiry: Time, ds: seq<Delivery>, stop: nat,
                   inFlight: set<string>, claimed: seq<Delivery>, v: Queue)
    requires Listing(q, shard, now, ds, inFlight) && stop <= |ds|
    requires var end := Turns(Loop(inFlight, [], q), ds, stop, expiry); claimed == end.claimed && v == end.q
    requires |claimed| <= limit && (stop == |ds| || |claimed| == limit)
    ensures Selects(q, shard, now, limit, Ids(claimed))
    ensures Claimed(q, Ids(claimed), expiry, v)
    ensures Snapshots(q, Ids(claimed), claimed)
    ensures Filed(v.deliveries)
  {
    forall n | 0 <= n < |ds|
      ensures Decides(q, shard, now, ds, inFlight, n)
    {
      CandidateDecides(q, shard, now, ds, inFlight, n);
    }
    TurnsProgress(q, shard, now, expiry, ds, stop, inFlight);
    SnapshotIds(q, Wins(q, shard, now, ds, stop), claimed);
    WinsSelect(q, shard, now, limit, ds, stop);
  }

  lemma SnapshotIds(q: Queue, ids: seq<int>, claimed: seq<Delivery>)
    requires Filed(q.deliveries) && Snapshots(q, ids, claimed)
    ensures ids == Ids(claimed)
  {
    assert forall c :: 0 <= c < |ids| ==> claimed[c].id == ids[c];
  }

  lemma ClaimOneMore(q: Queue, ids: seq<int>, id: int, expiry: Time, v: Queue)
    requires id in q.deliveries && id !in ids
    requires Claimed(q, ids, expiry, v)
    ensures Claimed(q, ids + [id], expiry,
                    v.(deliveries := v.deliveries[id := Leased(q.deliveries[id])], leases := v.leases[id := expiry]))
  {
  }

  class MemoryQueue {
    var deliveries: map<int, Delivery>
    var leases: map<int, Time>
    var sequences: map<string, int>
    var events: map<string, Event>
    var deliveryIDs: int

    constructor ()
      ensures Value() == Queue(map[], map[], map[], map[], 0)
    {
      deliveries, leases, sequences, events, deliveryIDs := map[], map[], map[], map[], 0;
    }

    ghost function Value(): Queue
      reads this
    {
      Queue(deliveries, leases, sequences, events, deliveryIDs)
    }

    method PutEvent(e: Event)
      modifies this`events
      ensures Value() == old(Value()).(events := old(events)[e.id := e])
    {
      events := events[e.id := e];
    }

    method NextSequence(tenant: string, ref: string) returns (n: int)
      modifies this`sequences
      ensures n == LastSequence(old(Value()), tenant, ref) + 1
      ensures Value() == old(Value()).(sequences := old(sequences)[SequenceKey(tenant, ref) := n])
    {
      var key := tenant + "|" + ref;
      n := (if key in sequences then sequences[key] else 0) + 1;
      sequences := sequences[key := n];
    }

    method EnqueueDelivery(d: Delivery) returns (id: int)
      modifies this`deliveries, this`deliveryIDs
      ensures id == old(deliveryIDs) + 1
      ensures Value() == old(Value()).(
                deliveries := old(deliveries)[id := d.(id := id,
                  ref := if d.ref == "" && d.eventId in events then events[d.eventId].ref else d.ref)],
                lastId := id)
    {
      deliveryIDs := deliveryIDs + 1;
      id := deliveryIDs;
      var filed := d.(id := id);
      if filed.ref == "" && filed.eventId in events {
        filed := filed.(ref := events[filed.eventId].ref);
      }
      deliveries := deliveries[id := filed];
    }

    /** The keys with something in flight: the first loop of `ClaimDue`. */
    method BlockedKeys(now: Time) returns (blocked: set<string>)
      ensures blocked == InFlightKeys(Value(), now)
    {
      var ids := MapOrder(deliveries.Keys);
      blocked := {};
      for n := 0 to |ids|
        invariant forall k :: k in blocked <==>
          exists i :: 0 <= i < n && Live(Value(), ids[i], now) && KeyOf(Value(), deliveries[ids[i]]) == k
      {
        var d := deliveries[ids[n]];
        if d.status != InFlight {
          continue;
        }
        if ids[n] in leases && leases[ids[n]] < now {
          continue;
        }
        blocked := blocked + {KeyFor(events, d)};
      }
    }

    /** The due deliveries, in map order: the second loop of `ClaimDue`. */
    method Candidates(shard: int, now: Time) returns (ds: seq<Delivery>)
      requires Filed(deliveries)
      ensures ListsDue(Value(), shard, now, ds)
    {
      var ids := MapOrder(deliveries.Keys);
      ds := [];
      for n := 0 to |ids|
        invariant forall i :: 0 <= i < |ds| ==> Due(Value(), shard, now, ds[i].id) && ds[i] == deliveries[ds[i].id]
        invariant forall i, j :: 0 <= i < |ds| && n <= j < |ids| ==> ds[i].id != ids[j]
        invariant forall i, j :: 0 <= i < j < |ds| ==> ds[i].id != ds[j].id
        invariant forall i :: 0 <= i < n && Due(Value(), shard, now, ids[i]) ==> deliveries[ids[i]] in ds
      {
        assert ids[n] in deliveries && deliveries[ids[n]].id == ids[n];
        var d := deliveries[ids[n]];
        if d.shard != shard || IsTerminal(d.status) {
          continue;
        }
        if d.status == InFlight && d.id in leases && leases[d.id] > now {
          continue;
        }
        if d.nextRetryAt.Some? && d.nextRetryAt.value > now {
          continue;
        }
        ds := ds + [d];
      }
    }

    /** The claiming loop of `ClaimDue`, over the sorted candidates. */
    method LeaseInTurn(limit: int, expiry: Time, candidates: seq<Delivery>, inFlight: set<string>)
      returns (claimed: seq<Delivery>, ghost stop: nat)
      requires 0 < limit
      modifies this`deliveries, this`leases
      ensures stop <= |candidates| && |claimed| <= limit && (stop == |candidates| || |claimed| == limit)
      ensures var end := Turns(Loop(inFlight, [], old(Value())), candidates, stop, expiry);
              claimed == end.claimed && Value() == end.q
    {
      ghost var start := Loop(inFlight, [], Value());
      var blocked := inFlight;
      claimed := [];
      var i := 0;
      while i < |candidates| && |claimed| < limit
        invariant 0 <= i <= |candidates| && |claimed| <= limit
        invariant Loop(blocked, claimed, Value()) == Turns(start, candidates, i, expiry)
      {
        var d := candidates[i];
        var key := KeyFor(events, d);
        i := i + 1;
        if key in blocked {
          continue;
        }
        blocked := blocked + {key};
        d := d.(status := InFlight, attempt := d.attempt + 1);
        deliveries := deliveries[d.id := d];
        leases := leases[d.id := expiry];
        claimed := claimed + [d];
      }
      stop := i;
    }

    method ClaimDue(shard: int, now: Time, limit: int, lease: Time) returns (claimed: seq<Delivery>)
      requires Filed(deliveries)
      modifies this`deliveries, this`leases
      ensures Filed(deliveries)
      ensures Selects(old(Value()), shard, now, if limit <= 0 then 32 else limit, Ids(claimed))
      ensures Claimed(old(Value()), Ids(claimed), now + if lease <= 0 then MINUTE else lease, Value())
      ensures Snapshots(old(Value()), Ids(claimed), claimed)
    {
      ghost var q := Value();
      var max := if limit <= 0 then 32 else limit;
      var term := if lease <= 0 then MINUTE else lease;
      var blocked := BlockedKeys(now);
      var found := Candidates(shard, now);
      var candidates := SortByClaimOrder(found);
      SortingKeepsTheList(q, shard, now, found, candidates);
      ghost var stop;
      claimed, stop := LeaseInTurn(max, now + term, candidates, blocked);
      TurnsClaim(q, shard, now, max, now + term, candidates, stop, blocked, claimed, Value());
    }

    method CompleteDelivery(d: Delivery) returns (r: Outcome)
      requires Filed(deliveries)
      modifies this`deliveries, this`leases
      ensures Filed(deliveries)
      ensures r == Ok <==> d.id in old(deliveries) && old(deliveries)[d.id].tenant == d.tenant
      ensures Value() == if r == Ok then Completed(old(Value()), d) else old(Value())
    {
      if d.id !in deliveries || deliveries[d.id].tenant != d.tenant {
        return NotFound;
      }
      var done := d.(createdAt := deliveries[d.id].createdAt);
      deliveries := deliveries[d.id := done];
      leases := leases - {d.id};
      return Ok;
    }
  }
}
