/**
 Replay by filter: the cursor-paged read of stored events, against a one-shot filter. Other
 requests may store newer events between two pages, so the store is seen through a sequence of
 views, one for each query.
 */
module Replay {
  import opened Deliveries
  import opened Text

  const MAX_BULK_REPLAY := 10_000

  datatype StoredEvent = StoredEvent(
    id: string,
    tenant: string,
    provider: string,
    status: string,
    eventType: string,
    ref: string,
    mappingComplete: bool,
    occurredAt: Time)

  /** The empty string, and `None`, leave a field unconstrained. */
  datatype EventQuery = EventQuery(
    provider: string,
    status: string,
    eventType: string,
    ref: string,
    mappingComplete: Option<bool>,
    from: Option<Time>,
    to: Option<Time>,
    cursor: string,
    limit: int)

  /** Go's order on strings: byte by byte. */
  predicate Before(a: string, b: string) {
    b != "" && (a == "" || a[0] < b[0] || (a[0] == b[0] && Before(a[1..], b[1..])))
  }

  lemma {:induction false} BeforeIsTransitive(a: string, b: string, c: string)
    requires Before(a, b) && Before(b, c)
    ensures Before(a, c)
  {
    if a != "" && a[0] == b[0] == c[0] {
      BeforeIsTransitive(a[1..], b[1..], c[1..]);
    }
  }

  lemma {:induction false} BeforeIsAsymmetric(a: string, b: string)
    requires Before(a, b)
    ensures !Before(b, a)
  {
    if a != "" && a[0] == b[0] {
      BeforeIsAsymmetric(a[1..], b[1..]);
    }
  }

  predicate Matches(e: StoredEvent, q: EventQuery) {
    && (q.provider != "" ==> Upper(e.provider) == Upper(q.provider))
    && (q.status != "" ==> e.status == q.status)
    && (q.eventType != "" ==> e.eventType == q.eventType)
    && (q.ref != "" ==> e.ref == q.ref)
    && (q.mappingComplete.Some? ==> e.mappingComplete == q.mappingComplete.value)
    && (q.from.Some? ==> q.from.value <= e.occurredAt)
    && (q.to.Some? ==> e.occurredAt <= q.to.value)
  }

  predicate Wanted(e: StoredEvent, tenant: string, q: EventQuery) {
    e.tenant == tenant && Matches(e, q)
  }

  predicate Hit(e: StoredEvent, tenant: string, q: EventQuery) {
    Wanted(e, tenant, q) && (q.cursor != "" ==> Before(e.id, q.cursor))
  }

  // ---- One query ----

  /** The one-shot filter: the hits among the first `n` events, newest first. */
  function Newest(list: seq<StoredEvent>, n: nat, tenant: string, q: EventQuery): seq<StoredEvent>
    requires n <= |list|
  {
    if n == 0 then []
    else if Hit(list[n - 1], tenant, q) then [list[n - 1]] + Newest(list, n - 1, tenant, q)
    else Newest(list, n - 1, tenant, q)
  }

  function First<T>(s: seq<T>, n: nat): seq<T> {
    if n <= |s| then s[..n] else s
  }

  method QueryEvents(list: seq<StoredEvent>, tenant: string, q: EventQuery) returns (out: seq<StoredEvent>)
    ensures out == First(Newest(list, |list|, tenant, q), if 1 <= q.limit <= 500 then q.limit else 100)
  {
    var limit := q.limit;
    if limit <= 0 || limit > 500 {
      limit := 100;
    }
    out := [];
    var i := |list|;
    while i > 0 && |out| < limit
      invariant 0 <= i <= |list| && |out| <= limit
      invariant Newest(list, |list|, tenant, q) == out + Newest(list, i, tenant, q)
    {
      i := i - 1;
      if Hit(list[i], tenant, q) {
        out := out + [list[i]];
      }
    }
  }

  // ---- The filter is what its definition should be ----

  lemma {:induction false} NewestAreTheHits(list: seq<StoredEvent>, n: nat, tenant: string, q: EventQuery, e: StoredEvent)
    requires n <= |list|
    ensures e in Newest(list, n, tenant, q) <==> e in list[..n] && Hit(e, tenant, q)
  {
    if n > 0 {
      NewestAreTheHits(list, n - 1, tenant, q, e);
      assert list[..n] == list[..n - 1] + [list[n - 1]];
    }
  }

  /** What a query returns, field by field: the tenant's own events, before the cursor if there is
      one, that agree with every constraint given, and all of those. */
  lemma QueriedInPlainTerms(list: seq<StoredEvent>, tenant: string, q: EventQuery, e: StoredEvent)
    ensures e in Newest(list, |list|, tenant, q) <==>
            && e in list && e.tenant == tenant
            && (q.cursor == "" || Before(e.id, q.cursor))
            && (q.provider == "" || Upper(e.provider) == Upper(q.provider))
            && (q.status == "" || e.status == q.status)
            && (q.eventType == "" || e.eventType == q.eventType)
            && (q.ref == "" || e.ref == q.ref)
            && (q.mappingComplete == None || q.mappingComplete == Some(e.mappingComplete))
            && (q.from == None || (q.from.Some? && q.from.value <= e.occurredAt))
            && (q.to == None || (q.to.Some? && e.occurredAt <= q.to.value))
  {
    NewestAreTheHits(list, |list|, tenant, q, e);
    assert list[..|list|] == list;
  }

  /** The order of IDs is that of their first difference, a prefix coming first. */
  lemma {:induction false} BeforeAtFirstDifference(p: string, a: string, b: string)
    requires a == "" || b == "" || a[0] != b[0]
    ensures Before(p + a, p + b) <==> b != "" && (a == "" || a[0] < b[0])
  {
    if p == "" {
      assert p + a == a && p + b == b;
    } else {
      BeforeAtFirstDifference(p[1..], a, b);
      assert (p + a)[1..] == p[1..] + a && (p + b)[1..] == p[1..] + b;
    }
  }

  /** Newest first by ID, and every event has one. */
  predicate Descends(hits: seq<StoredEvent>) {
    && (forall i :: 0 <= i < |hits| ==> hits[i].id != "")
    && (forall i, j :: 0 <= i < j < |hits| ==> Before(hits[j].id, hits[i].id))
  }

  /** The hits descend if and only if they have IDs and were stored in increasing order of them. */
  lemma {:induction false} NewestDescends(list: seq<StoredEvent>, n: nat, tenant: string, q: EventQuery)
    requires n <= |list|
    ensures Descends(Newest(list, n, tenant, q)) <==>
            && (forall i :: 0 <= i < n && Hit(list[i], tenant, q) ==> list[i].id != "")
            && (forall i, j :: 0 <= i < j < n && Hit(list[i], tenant, q) && Hit(list[j], tenant, q) ==> Before(list[i].id, list[j].id))
  {
    if n > 0 {
      var older, all := Newest(list, n - 1, tenant, q), Newest(list, n, tenant, q);
      NewestDescends(list, n - 1, tenant, q);
      if Hit(list[n - 1], tenant, q) {
        assert all[1..] == older;
        forall e ensures e in older <==> exists i :: 0 <= i < n - 1 && list[i] == e && Hit(e, tenant, q) {
          NewestAreTheHits(list, n - 1, tenant, q, e);
        }
        DescendsFromFirst(all);
        assert (forall e :: e in older ==> Before(e.id, all[0].id)) <==>
               forall i :: 0 <= i < n - 1 && Hit(list[i], tenant, q) ==> Before(list[i].id, list[n - 1].id);
      }
    }
  }

  lemma DescendsFromFirst(hits: seq<StoredEvent>)
    requires hits != []
    ensures Descends(hits) <==>
            hits[0].id != "" && Descends(hits[1..]) && forall e :: e in hits[1..] ==> Before(e.id, hits[0].id)
  {
    var rest := hits[1..];
    assert forall i :: 1 <= i < |hits| ==> hits[i] == rest[i - 1];
    if Descends(hits) {
      forall e | e in rest ensures Before(e.id, hits[0].id) {
        var i :| 0 <= i < |rest| && rest[i] == e;
        assert hits[i + 1] == e;
      }
      forall i, j | 0 <= i < j < |rest| ensures Before(rest[j].id, rest[i].id) {
        assert rest[i] == hits[i + 1] && rest[j] == hits[j + 1];
      }
    }
  }

  // ---- Turning a page ----

  /** The events with an ID before `c`. */
  function Below(hits: seq<StoredEvent>, c: string): seq<StoredEvent> {
    if hits == [] then []
    else if Before(hits[0].id, c) then [hits[0]] + Below(hits[1..], c)
    else Below(hits[1..], c)
  }

  /** Moving the cursor back filters the hits. */
  lemma {:induction false} CursorFilters(list: seq<StoredEvent>, n: nat, tenant: string, q: EventQuery, c: string)
    requires n <= |list| && c != "" && (q.cursor != "" ==> Before(c, q.cursor))
    ensures Newest(list, n, tenant, q.(cursor := c)) == Below(Newest(list, n, tenant, q), c)
  {
    if n > 0 {
      CursorFilters(list, n - 1, tenant, q, c);
      var e, older := list[n - 1], Newest(list, n - 1, tenant, q);
      if q.cursor != "" && Before(e.id, c) {
        BeforeIsTransitive(e.id, c, q.cursor);
      }
      if Hit(e, tenant, q) {
        assert ([e] + older)[1..] == older;
      }
    }
  }

  lemma {:induction false} BelowSplits(hits: seq<StoredEvent>, c: string, m: nat)
    requires m <= |hits|
    requires forall i :: 0 <= i < m ==> !Before(hits[i].id, c)
    requires forall i :: m <= i < |hits| ==> Before(hits[i].id, c)
    ensures Below(hits, c) == hits[m..]
    decreases |hits|
  {
    if hits != [] {
      BelowSplits(hits[1..], c, if m == 0 then 0 else m - 1);
    }
  }

  /** A cursor on the last event of a page leaves exactly the events after the page. */
  lemma BelowSkipsThePage(hits: seq<StoredEvent>, m: nat)
    requires Descends(hits) && 0 < m <= |hits|
    ensures Below(hits, hits[m - 1].id) == hits[m..]
  {
    var c := hits[m - 1].id;
    forall i | 0 <= i < m ensures !Before(hits[i].id, c) {
      if i == m - 1 {
        BeforeIsIrreflexive(c);
      } else {
        BeforeIsAsymmetric(c, hits[i].id);
      }
    }
    BelowSplits(hits, c, m);
  }

  lemma BeforeIsIrreflexive(a: string)
    ensures !Before(a, a)
  {
  }

  // ---- The store while a replay reads it ----

  /** `later` is `list` with events appended, and those the replay wants have larger IDs than the
      wanted ones before them. */
  predicate Grows(list: seq<StoredEvent>, later: seq<StoredEvent>, tenant: string, q: EventQuery) {
    && |list| <= |later| && later[..|list|] == list
    && forall i, j :: 0 <= i < |list| <= j < |later| && Wanted(list[i], tenant, q) && Wanted(later[j], tenant, q)
                      ==> Before(list[i].id, later[j].id)
  }

  /** What the store lists at each query of one replay: the events it listed at the first, with
      others appended. The events the replay wants have IDs. */
  ghost predicate Views(view: nat -> seq<StoredEvent>, tenant: string, q: EventQuery) {
    && (forall k: nat :: Grows(view(0), view(k), tenant, q))
    && forall e :: e in view(0) && Wanted(e, tenant, q) ==> e.id != ""
  }

  lemma LastHit(list: seq<StoredEvent>, tenant: string, q: EventQuery, m: nat)
    requires 0 < m <= |Newest(list, |list|, tenant, q)|
    ensures var e := Newest(list, |list|, tenant, q)[m - 1]; e in list && Hit(e, tenant, q)
  {
    NewestAreTheHits(list, |list|, tenant, q, Newest(list, |list|, tenant, q)[m - 1]);
    assert list[..|list|] == list;
  }

  /** Events stored after the page was read have larger IDs and stay out of sight. */
  lemma {:induction false} NewerAreHidden(list: seq<StoredEvent>, later: seq<StoredEvent>, n: nat, tenant: string, q: EventQuery, e: StoredEvent)
    requires Grows(list, later, tenant, q) && |list| <= n <= |later|
    requires e in list && Wanted(e, tenant, q) && q.cursor == e.id != ""
    ensures Newest(later, n, tenant, q) == Newest(later, |list|, tenant, q)
  {
    if n > |list| {
      NewerAreHidden(list, later, n - 1, tenant, q, e);
      var i :| 0 <= i < |list| && list[i] == e;
      if Wanted(later[n - 1], tenant, q) {
        BeforeIsAsymmetric(e.id, later[n - 1].id);
      }
    }
  }

  lemma {:induction false} SamePrefix(list: seq<StoredEvent>, later: seq<StoredEvent>, n: nat, tenant: string, q: EventQuery)
    requires n <= |list| <= |later| && later[..|list|] == list
    ensures Newest(later, n, tenant, q) == Newest(list, n, tenant, q)
  {
    if n > 0 {
      SamePrefix(list, later, n - 1, tenant, q);
      assert later[n - 1] == later[..|list|][n - 1];
    }
  }

  /** However the store has grown since, a cursor on an event it listed shows what it would have
      shown then: the hits before that event's ID. */
  lemma NewerStayOutOfSight(list: seq<StoredEvent>, later: seq<StoredEvent>, tenant: string, q: EventQuery, e: StoredEvent)
    requires Grows(list, later, tenant, q) && e in list && Wanted(e, tenant, q) && q.cursor == e.id != ""
    ensures Newest(later, |later|, tenant, q) == Newest(list, |list|, tenant, q)
  {
    NewerAreHidden(list, later, |later|, tenant, q, e);
    SamePrefix(list, later, |list|, tenant, q);
  }

  /** Turning a page: where the hits descend, the next query finds exactly what follows the page. */
  lemma PageTurns(list: seq<StoredEvent>, tenant: string, q: EventQuery, m: nat)
    requires 0 < m <= |Newest(list, |list|, tenant, q)| && Newest(list, |list|, tenant, q)[m - 1].id != ""
    ensures var hits := Newest(list, |list|, tenant, q);
            var next := Newest(list, |list|, tenant, q.(cursor := hits[m - 1].id));
            next == Below(hits, hits[m - 1].id) && |next| < |hits| && (Descends(hits) ==> next == hits[m..])
  {
    var hits := Newest(list, |list|, tenant, q);
    LastHit(list, tenant, q, m);
    CursorFilters(list, |list|, tenant, q, hits[m - 1].id);
    BelowIsFewer(hits, hits[m - 1].id, m - 1);
    if Descends(hits) {
      BelowSkipsThePage(hits, m);
    }
  }

  lemma {:induction false} BelowIsFewer(hits: seq<StoredEvent>, c: string, i: nat)
    requires i < |hits| && hits[i].id == c
    ensures |Below(hits, c)| < |hits|
    decreases |hits|
  {
    BelowIsShorter(hits[1..], c);
    if i == 0 {
      BeforeIsIrreflexive(c);
    } else {
      BelowIsFewer(hits[1..], c, i - 1);
    }
  }

  lemma {:induction false} BelowIsShorter(hits: seq<StoredEvent>, c: string)
    ensures |Below(hits, c)| <= |hits|
    decreases |hits|
  {
    if hits != [] {
      BelowIsShorter(hits[1..], c);
    }
  }

  lemma SuffixDescends(hits: seq<StoredEvent>, m: nat)
    requires Descends(hits) && m <= |hits|
    ensures Descends(hits[m..])
  {
  }

  // ---- Exactly when paging is right ----

  /** What `rounds` pages over a store at rest yield, without the cap. */
  function Paged(list: seq<StoredEvent>, tenant: string, q: EventQuery, rounds: nat): seq<StoredEvent>
    requires 1 <= q.limit
    decreases rounds
  {
    if rounds == 0 then []
    else
      var page := First(Newest(list, |list|, tenant, q), q.limit);
      if |page| < q.limit then page
      else page + Paged(list, tenant, q.(cursor := page[|page| - 1].id), rounds - 1)
  }

  lemma OnePage(list: seq<StoredEvent>, tenant: string, q: EventQuery, rounds: nat, hits: seq<StoredEvent>)
    requires 1 <= q.limit <= |hits| && 0 < rounds && hits == Newest(list, |list|, tenant, q)
    ensures Paged(list, tenant, q, rounds)
         == hits[..q.limit] + Paged(list, tenant, q.(cursor := hits[q.limit - 1].id), rounds - 1)
  {
  }

  lemma FollowingHits(list: seq<StoredEvent>, tenant: string, q: EventQuery, hits: seq<StoredEvent>)
    requires hits == Newest(list, |list|, tenant, q) && Descends(hits) && 1 <= q.limit <= |hits|
    ensures Newest(list, |list|, tenant, q.(cursor := hits[q.limit - 1].id)) == hits[q.limit..] && Descends(hits[q.limit..])
  {
    PageTurns(list, tenant, q, q.limit);
    SuffixDescends(hits, q.limit);
  }

  lemma {:induction false} PagingIsRight(list: seq<StoredEvent>, tenant: string, q: EventQuery, rounds: nat, hits: seq<StoredEvent>)
    requires 1 <= q.limit && hits == Newest(list, |list|, tenant, q) && Descends(hits) && |hits| < rounds
    ensures Paged(list, tenant, q, rounds) == hits
    decreases rounds
  {
    if q.limit <= |hits| {
      OnePage(list, tenant, q, rounds, hits);
      FollowingHits(list, tenant, q, hits);
      PagingIsRight(list, tenant, q.(cursor := hits[q.limit - 1].id), rounds - 1, hits[q.limit..]);
      assert hits == hits[..q.limit] + hits[q.limit..];
    } else {
      LastPage(list, tenant, q, rounds, hits);
    }
  }

  lemma LastPage(list: seq<StoredEvent>, tenant: string, q: EventQuery, rounds: nat, hits: seq<StoredEvent>)
    requires 1 <= q.limit && |hits| < q.limit && 0 < rounds && hits == Newest(list, |list|, tenant, q)
    ensures Paged(list, tenant, q, rounds) == hits
  {
  }

  /** A wanted event without an ID sends the cursor back to the start: one-event pages never end. */
  lemma {:induction false} PagingNeverEnds(list: seq<StoredEvent>, tenant: string, q: EventQuery, e: StoredEvent, rounds: nat)
    requires q.limit == 1 && e in list && Wanted(e, tenant, q) && e.id == ""
    ensures |Paged(list, tenant, q, rounds)| == rounds
    decreases rounds
  {
    if rounds > 0 {
      NewestAreTheHits(list, |list|, tenant, q, e);
      assert list[..|list|] == list;
      var c := Newest(list, |list|, tenant, q)[0].id;
      PagingNeverEnds(list, tenant, q.(cursor := c), e, rounds - 1);
    }
  }

  /** Everything paged lies before the cursor it started from. */
  lemma {:induction false} PagedIsBelow(list: seq<StoredEvent>, tenant: string, q: EventQuery, rounds: nat, i: nat)
    requires q.limit == 1 && q.cursor != "" && i < |Paged(list, tenant, q, rounds)|
    requires forall e :: e in list && Wanted(e, tenant, q) ==> e.id != ""
    ensures Before(Paged(list, tenant, q, rounds)[i].id, q.cursor)
    decreases rounds
  {
    var hits := Newest(list, |list|, tenant, q);
    LastHit(list, tenant, q, 1);
    if i > 0 {
      var next := q.(cursor := hits[0].id);
      assert Paged(list, tenant, q, rounds) == [hits[0]] + Paged(list, tenant, next, rounds - 1);
      PagedIsBelow(list, tenant, next, rounds - 1, i - 1);
      BeforeIsTransitive(Paged(list, tenant, next, rounds - 1)[i - 1].id, hits[0].id, q.cursor);
    }
  }

  /** If one-event pages find all hits, the hits descend. */
  lemma {:induction false} RightPagingDescends(list: seq<StoredEvent>, tenant: string, q: EventQuery, hits: seq<StoredEvent>)
    requires q.limit == 1 && forall e :: e in list && Wanted(e, tenant, q) ==> e.id != ""
    requires hits == Newest(list, |list|, tenant, q) && Paged(list, tenant, q, |hits| + 1) == hits
    ensures Descends(hits)
    decreases |hits|
  {
    if hits != [] {
      var next := q.(cursor := hits[0].id);
      LastHit(list, tenant, q, 1);
      RestIsPaged(list, tenant, q, hits);
      NextHits(list, tenant, q, hits);
      RightPagingDescends(list, tenant, next, hits[1..]);
      DescendsFrom(hits);
    }
  }

  lemma DescendsFrom(hits: seq<StoredEvent>)
    requires hits != [] && hits[0].id != "" && Descends(hits[1..])
    requires forall i :: 1 <= i < |hits| ==> Before(hits[i].id, hits[0].id)
    ensures Descends(hits)
  {
    assert forall i :: 1 <= i < |hits| ==> hits[i] == hits[1..][i - 1];
  }

  lemma RestIsPaged(list: seq<StoredEvent>, tenant: string, q: EventQuery, hits: seq<StoredEvent>)
    requires q.limit == 1 && hits != [] && forall e :: e in list && Wanted(e, tenant, q) ==> e.id != ""
    requires hits == Newest(list, |list|, tenant, q) && Paged(list, tenant, q, |hits| + 1) == hits && hits[0].id != ""
    ensures Paged(list, tenant, q.(cursor := hits[0].id), |hits|) == hits[1..]
    ensures forall i :: 1 <= i < |hits| ==> Before(hits[i].id, hits[0].id)
  {
    var next := q.(cursor := hits[0].id);
    var rest := Paged(list, tenant, next, |hits|);
    OnePage(list, tenant, q, |hits| + 1, hits);
    assert hits == hits[..1] + rest;
    forall i | 1 <= i < |hits| ensures Before(hits[i].id, hits[0].id) {
      PagedIsBelow(list, tenant, next, |hits|, i - 1);
      assert hits[i] == rest[i - 1];
    }
  }

  lemma NextHits(list: seq<StoredEvent>, tenant: string, q: EventQuery, hits: seq<StoredEvent>)
    requires hits != [] && hits == Newest(list, |list|, tenant, q) && hits[0].id != "" && Hit(hits[0], tenant, q)
    requires forall i :: 1 <= i < |hits| ==> Before(hits[i].id, hits[0].id)
    ensures Newest(list, |list|, tenant, q.(cursor := hits[0].id)) == hits[1..]
  {
    var c := hits[0].id;
    CursorFilters(list, |list|, tenant, q, c);
    BeforeIsIrreflexive(c);
    BelowSplits(hits, c, 1);
  }

  ghost predicate PagesRight(list: seq<StoredEvent>, tenant: string, q: EventQuery, limit: int)
    requires 1 <= limit
  {
    var hits := Newest(list, |list|, tenant, q);
    Paged(list, tenant, q.(limit := limit), |hits| + 1) == hits
  }

  /** Over a store at rest, paging equals the one-shot filter for every page size if and only if
      every hit has an ID and the IDs descend as listed. */
  lemma PagingIsRightExactly(list: seq<StoredEvent>, tenant: string, q: EventQuery)
    ensures (forall limit :: 1 <= limit <= 500 ==> PagesRight(list, tenant, q, limit))
       <==> Descends(Newest(list, |list|, tenant, q))
  {
    var hits := Newest(list, |list|, tenant, q);
    if Descends(hits) {
      forall limit | 1 <= limit <= 500 ensures PagesRight(list, tenant, q, limit) {
        SameHits(list, |list|, tenant, q, q.(limit := limit));
        PagingIsRight(list, tenant, q.(limit := limit), |hits| + 1, hits);
      }
    } else if PagesRight(list, tenant, q, 1) {
      var one := q.(limit := 1);
      SameHits(list, |list|, tenant, q, one);
      if e :| e in list && Wanted(e, tenant, one) && e.id == "" {
        PagingNeverEnds(list, tenant, one, e, |hits| + 1);
      } else {
        RightPagingDescends(list, tenant, one, hits);
      }
      assert false;
    }
  }

  // ---- The paged read ----

  /** What paging over the store yields in the end, without the cap. */
  function AllPages(list: seq<StoredEvent>, tenant: string, q: EventQuery): seq<StoredEvent>
    requires 1 <= q.limit
  {
    Paged(list, tenant, q, |Newest(list, |list|, tenant, q)| + 1)
  }

  function Clamped(q: EventQuery): (r: EventQuery)
    ensures 1 <= r.limit <= 500
  {
    if q.limit <= 0 || q.limit > 500 then q.(limit := 500) else q
  }

  /** The paged read returns the pages of the store as it was at the start, up to the cap; where
      the hits descend by ID, these are all the hits, as one unbounded query would have found them. */
  method ResolveEvents(view: nat -> seq<StoredEvent>, tenant: string, filter: EventQuery)
    returns (out: seq<StoredEvent>, truncated: bool)
    requires Views(view, tenant, filter)
    ensures var all := AllPages(view(0), tenant, if 1 <= filter.limit <= 500 then filter else filter.(limit := 500));
            out == First(all, 10_000) && (truncated <==> |all| > 10_000)
    ensures var hits := Newest(view(0), |view(0)|, tenant, filter);
            Descends(hits) ==> out == First(hits, 10_000) && (truncated <==> |hits| > 10_000)
  {
    var q := filter;
    if q.limit <= 0 || q.limit > 500 {
      q := q.(limit := 500);
    }
    AllPagesAreTheHits(view(0), tenant, filter);
    forall k: nat ensures Grows(view(0), view(k), tenant, q) {
      GrowsRegardless(view(0), view(k), tenant, filter, q);
    }
    assert forall e :: Wanted(e, tenant, q) ==> Wanted(e, tenant, filter);
    out, truncated := ReadPages(view, tenant, q);
  }

  /** The paging loop. */
  method ReadPages(view: nat -> seq<StoredEvent>, tenant: string, filter: EventQuery)
    returns (out: seq<StoredEvent>, truncated: bool)
    requires Views(view, tenant, filter) && 1 <= filter.limit <= 500
    ensures var all := AllPages(view(0), tenant, filter);
            out == First(all, MAX_BULK_REPLAY) && (truncated <==> |all| > MAX_BULK_REPLAY)
  {
    var q := filter;
    out, truncated := [], false;
    ghost var list := view(0);
    ghost var all := AllPages(list, tenant, q);
    ghost var hits := Newest(list, |list|, tenant, q);
    ghost var rounds: nat, rest := |hits| + 1, all;
    var k := 0;
    while true
      invariant !truncated && Reading(list, tenant, filter, q, rounds, hits, rest)
      invariant Newest(view(k), |view(k)|, tenant, q) == hits && ReadSoFar(all, out, rest)
      decreases rounds
    {
      var page := QueryEvents(view(k), tenant, q);
      PageIsNext(list, view(k + 1), tenant, filter, q, rounds, hits, rest, page);
      if |page| == 0 {
        NothingMore(all, out, rest);
        break;
      }
      out, truncated := AddPage(out, page, all, rest);
      if truncated || |page| < q.limit {
        break;
      }
      var next := q.(cursor := page[|page| - 1].id);
      assert Reading(list, tenant, filter, next, rounds - 1, Newest(list, |list|, tenant, next), rest[|page|..]);
      q, hits, rest := next, Newest(list, |list|, tenant, next), rest[|page|..];
      k, rounds := k + 1, rounds - 1;
    }
  }

  /** Where a paged read of `list` stands: the hits of its query, and the pages still to come. */
  ghost predicate Reading(list: seq<StoredEvent>, tenant: string, filter: EventQuery, q: EventQuery, rounds: nat,
                          hits: seq<StoredEvent>, rest: seq<StoredEvent>) {
    && 1 <= q.limit && q == filter.(cursor := q.cursor)
    && hits == Newest(list, |list|, tenant, q) && |hits| < rounds && rest == Paged(list, tenant, q, rounds)
  }

  /** `out` has been read of `all` and `rest` is still to come. */
  predicate ReadSoFar<T(==)>(all: seq<T>, out: seq<T>, rest: seq<T>) {
    |out| <= MAX_BULK_REPLAY && all == out + rest
  }

  /** The next query sees the store as it was, and fewer events of it. */
  lemma NextQuery(list: seq<StoredEvent>, later: seq<StoredEvent>, tenant: string, filter: EventQuery, q: EventQuery, hits: seq<StoredEvent>)
    requires Grows(list, later, tenant, filter) && q == filter.(limit := q.limit, cursor := q.cursor)
    requires forall e :: e in list && Wanted(e, tenant, filter) ==> e.id != ""
    requires hits == Newest(list, |list|, tenant, q) && 1 <= q.limit <= |hits|
    ensures var next := q.(cursor := hits[q.limit - 1].id);
            Newest(later, |later|, tenant, next) == Newest(list, |list|, tenant, next) && |Newest(list, |list|, tenant, next)| < |hits|
  {
    var e := hits[q.limit - 1];
    var next := q.(cursor := e.id);
    LastHit(list, tenant, q, q.limit);
    assert Wanted(e, tenant, filter) && Wanted(e, tenant, next);
    PageTurns(list, tenant, q, q.limit);
    GrowsRegardless(list, later, tenant, filter, next);
    NewerStayOutOfSight(list, later, tenant, next, e);
  }

  lemma AllPagesAreTheHits(list: seq<StoredEvent>, tenant: string, filter: EventQuery)
    ensures var hits := Newest(list, |list|, tenant, filter);
            && Newest(list, |list|, tenant, Clamped(filter)) == hits
            && (Descends(hits) ==> AllPages(list, tenant, Clamped(filter)) == hits)
  {
    var hits := Newest(list, |list|, tenant, filter);
    SameHits(list, |list|, tenant, filter, Clamped(filter));
    if Descends(hits) {
      PagingIsRight(list, tenant, Clamped(filter), |hits| + 1, hits);
    }
  }

  /** A page is the beginning of what is still to come: all of it if it is not full, and else the
      read goes on after it. */
  lemma PageIsNext(list: seq<StoredEvent>, later: seq<StoredEvent>, tenant: string, filter: EventQuery, q: EventQuery, rounds: nat,
                   hits: seq<StoredEvent>, rest: seq<StoredEvent>, page: seq<StoredEvent>)
    requires Grows(list, later, tenant, filter) && forall e :: e in list && Wanted(e, tenant, filter) ==> e.id != ""
    requires Reading(list, tenant, filter, q, rounds, hits, rest) && page == First(hits, q.limit)
    ensures |page| <= |rest| && page == rest[..|page|] && (|page| < q.limit ==> rest == page)
    ensures q.limit <= |page| ==>
              var next := q.(cursor := page[|page| - 1].id);
              && Reading(list, tenant, filter, next, rounds - 1, Newest(list, |list|, tenant, next), rest[|page|..])
              && Newest(later, |later|, tenant, next) == Newest(list, |list|, tenant, next)
  {
    if q.limit <= |hits| {
      OnePage(list, tenant, q, rounds, hits);
      NextQuery(list, later, tenant, filter, q, hits);
    } else {
      LastPage(list, tenant, q, rounds, hits);
    }
  }

  lemma GrowsRegardless(list: seq<StoredEvent>, later: seq<StoredEvent>, tenant: string, a: EventQuery, b: EventQuery)
    requires Grows(list, later, tenant, a) && b == a.(limit := b.limit, cursor := b.cursor)
    ensures Grows(list, later, tenant, b)
  {
    assert forall e :: Wanted(e, tenant, b) ==> Wanted(e, tenant, a);
  }

  /** What one page adds to the events already read. */
  lemma PageAccounts<T>(all: seq<T>, have: seq<T>, page: seq<T>, rest: seq<T>)
    requires ReadSoFar(all, have, rest) && |page| <= |rest| && page == rest[..|page|]
    ensures |have + page| > MAX_BULK_REPLAY ==>
              First(have + page, MAX_BULK_REPLAY) == First(all, MAX_BULK_REPLAY) && |all| > MAX_BULK_REPLAY
    ensures |have + page| <= MAX_BULK_REPLAY ==>
              First(have + page, MAX_BULK_REPLAY) == have + page && ReadSoFar(all, have + page, rest[|page|..])
    ensures rest == page ==> all == have + page
  {
    assert rest == page + rest[|page|..];
  }

  lemma NothingMore<T>(all: seq<T>, out: seq<T>, rest: seq<T>)
    requires ReadSoFar(all, out, rest) && rest == []
    ensures out == First(all, MAX_BULK_REPLAY) && |all| <= MAX_BULK_REPLAY
  {
  }

  /** The inner loop: append until the cap. */
  method AddPage(have: seq<StoredEvent>, page: seq<StoredEvent>, ghost all: seq<StoredEvent>, ghost rest: seq<StoredEvent>)
    returns (out: seq<StoredEvent>, truncated: bool)
    requires ReadSoFar(all, have, rest) && |page| <= |rest| && page == rest[..|page|]
    ensures truncated ==> out == First(all, MAX_BULK_REPLAY) && |all| > MAX_BULK_REPLAY
    ensures !truncated ==> ReadSoFar(all, out, rest[|page|..])
    ensures !truncated && rest == page ==> out == First(all, MAX_BULK_REPLAY) && |all| <= MAX_BULK_REPLAY
  {
    out, truncated := have, false;
    PageAccounts(all, have, page, rest);
    for i := 0 to |page|
      invariant out == have + page[..i] && |out| <= MAX_BULK_REPLAY && !truncated
    {
      if |out| >= MAX_BULK_REPLAY {
        assert out == First(have + page, MAX_BULK_REPLAY);
        truncated := true;
        break;
      }
      out := out + [page[i]];
    }
  }

  lemma {:induction false} SameHits(list: seq<StoredEvent>, n: nat, tenant: string, a: EventQuery, b: EventQuery)
    requires n <= |list| && b == a.(limit := b.limit)
    ensures Newest(list, n, tenant, a) == Newest(list, n, tenant, b)
  {
    if n > 0 {
      SameHits(list, n - 1, tenant, a, b);
    }
  }
}
