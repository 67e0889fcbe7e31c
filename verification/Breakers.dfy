/**
 The per-destination circuit breaker. Each destination's entry is independent, so its
 behaviour is a function of the calls made for that destination: `Replay` folds a call
 history through the breaker, and the lemmas read the state off the history alone.
 */
module Breakers {
  import opened Deliveries

  datatype State = Closed | Open | HalfOpen

  datatype Entry = Entry(
    state: State,
    consecutive: nat,
    openedAt: Time,
    nextProbeAt: Time,
    cooldown: Time,
    probeInFlight: bool,
    trips: nat)

  datatype Config = Config(threshold: int, cooldown: Time, maxCooldown: Time) {
    predicate Valid() {
      0 < threshold && 0 < cooldown && 0 < maxCooldown
    }
  }

  function Min(a: int, b: int): int {
    if a < b then a else b
  }

  function StateOf(e: Option<Entry>): State {
    if e.Some? then e.value.state else Closed
  }

  // ---- One call, as a change of one entry ----

  predicate Allows(e: Option<Entry>, now: Time) {
    match StateOf(e)
    case Closed => true
    case Open => e.value.nextProbeAt <= now
    case HalfOpen => !e.value.probeInFlight
  }

  function AfterAllow(e: Option<Entry>, now: Time): Option<Entry> {
    if StateOf(e) == Closed || !Allows(e, now) then e
    else Some(e.value.(state := HalfOpen, probeInFlight := true))
  }

  function AfterSuccess(e: Option<Entry>): Option<Entry> {
    if e.None? then None
    else Some(e.value.(state := Closed, consecutive := 0, probeInFlight := false, cooldown := 0, nextProbeAt := 0))
  }

  function AfterFailure(c: Config, e: Option<Entry>, now: Time): Option<Entry> {
    var was := if e.Some? then e.value else Entry(Closed, 0, 0, 0, 0, false, 0);
    var hit := was.(consecutive := was.consecutive + 1, probeInFlight := false);
    if was.state == HalfOpen then
      var doubled := Min(was.cooldown * 2, c.maxCooldown);
      var wait := if doubled == 0 then c.cooldown else doubled;
      Some(hit.(state := Open, cooldown := wait, nextProbeAt := now + wait))
    else if was.state == Closed && hit.consecutive >= c.threshold then
      Some(hit.(state := Open, openedAt := now, cooldown := c.cooldown, nextProbeAt := now + c.cooldown,
                trips := was.trips + 1))
    else
      Some(hit)
  }

  class Breaker {
    const config: Config
    var entries: map<string, Entry>

    constructor (threshold: int, cooldown: Time, maxCooldown: Time)
      ensures config.Valid() && entries == map[]
      ensures config.threshold == if 0 < threshold then threshold else 5
      ensures config.cooldown == if 0 < cooldown then cooldown else 30 * SECOND
      ensures config.maxCooldown == if 0 < maxCooldown then maxCooldown else 5 * MINUTE
    {
      config := Config(if threshold <= 0 then 5 else threshold,
                       if cooldown <= 0 then 30 * SECOND else cooldown,
                       if maxCooldown <= 0 then 5 * MINUTE else maxCooldown);
      entries := map[];
    }

    function Lookup(destination: string): Option<Entry>
      reads this
    {
      if destination in entries then Some(entries[destination]) else None
    }

    /** Every other destination keeps its entry. */
    twostate predicate OnlyTouches(destination: string)
      reads this
    {
      forall d :: d != destination ==> Lookup(d) == old(Lookup(d))
    }

    method Allow(destination: string, now: Time) returns (allowed: bool)
      modifies this`entries
      ensures allowed == Allows(old(Lookup(destination)), now)
      ensures Lookup(destination) == AfterAllow(old(Lookup(destination)), now)
      ensures OnlyTouches(destination)
    {
      if destination !in entries || entries[destination].state == Closed {
        return true;
      }
      var e := entries[destination];
      if e.state == Open {
        if now < e.nextProbeAt {
          return false;
        }
        entries := entries[destination := e.(state := HalfOpen, probeInFlight := true)];
        return true;
      }
      if e.probeInFlight {
        return false;
      }
      entries := entries[destination := e.(probeInFlight := true)];
      return true;
    }

    method Succeeded(destination: string)
      modifies this`entries
      ensures Lookup(destination) == AfterSuccess(old(Lookup(destination)))
      ensures OnlyTouches(destination)
    {
      if destination !in entries {
        return;
      }
      var e := entries[destination];
      if e.state != Closed {
        e := e.(state := Closed);
      }
      e := e.(consecutive := 0, probeInFlight := false);
      e := e.(cooldown := 0, nextProbeAt := 0);
      entries := entries[destination := e];
    }

    method Failed(destination: string, now: Time) returns (state: State)
      modifies this`entries
      ensures Lookup(destination) == AfterFailure(config, old(Lookup(destination)), now)
      ensures state == StateOf(Lookup(destination))
      ensures OnlyTouches(destination)
    {
      var e := Entry(Closed, 0, 0, 0, 0, false, 0);
      if destination in entries {
        e := entries[destination];
      }
      e := e.(consecutive := e.consecutive + 1, probeInFlight := false);
      if e.state == HalfOpen {
        e := e.(state := Open, cooldown := Min(e.cooldown * 2, config.maxCooldown));
        if e.cooldown == 0 {
          e := e.(cooldown := config.cooldown);
        }
        e := e.(nextProbeAt := now + e.cooldown);
      } else if e.state == Closed && e.consecutive >= config.threshold {
        e := e.(state := Open, openedAt := now, cooldown := config.cooldown);
        e := e.(nextProbeAt := now + e.cooldown, trips := e.trips + 1);
      }
      entries := entries[destination := e];
      return e.state;
    }

    method State(destination: string) returns (state: State)
      ensures state == StateOf(Lookup(destination))
    {
      if destination in entries {
        return entries[destination].state;
      }
      return Closed;
    }

    method Reset(destination: string)
      modifies this`entries
      ensures Lookup(destination) == None
      ensures OnlyTouches(destination)
    {
      entries := entries - {destination};
    }
  }

  // ---- Histories ----

  /** A call made for one destination. */
  datatype Call = Ask(now: Time) | Success | Failure(now: Time) | Reset

  function Init(h: seq<Call>): seq<Call>
    requires h != []
  {
    h[..|h| - 1]
  }

  function Last(h: seq<Call>): Call
    requires h != []
  {
    h[|h| - 1]
  }

  /** The entry after the calls of `h`, starting from no entry. */
  function Replay(c: Config, h: seq<Call>): Option<Entry> {
    if h == [] then None
    else
      var e := Replay(c, Init(h));
      match Last(h)
      case Ask(now) => AfterAllow(e, now)
      case Success => AfterSuccess(e)
      case Failure(now) => AfterFailure(c, e, now)
      case Reset => None
  }

  predicate Granted(c: Config, h: seq<Call>, i: nat)
    requires i < |h|
  {
    h[i].Ask? && Allows(Replay(c, h[..i]), h[i].now)
  }

  /** Failures reported since the last success or reset. */
  function Failures(h: seq<Call>): nat {
    if h == [] then 0
    else match Last(h)
         case Ask(_) => Failures(Init(h))
         case Failure(_) => Failures(Init(h)) + 1
         case _ => 0
  }

  /** The destination is in an outage: `threshold` failures without a success or reset. */
  predicate Outage(c: Config, h: seq<Call>) {
    c.threshold <= Failures(h)
  }

  /** The position after the last report, that is, after the last call that is not an `Ask`. */
  function LastReport(h: seq<Call>): (r: nat)
    ensures r <= |h|
    ensures forall i :: r <= i < |h| ==> h[i].Ask?
    ensures r > 0 ==> !h[r - 1].Ask?
  {
    if h == [] then 0
    else if Last(h).Ask? then LastReport(Init(h))
    else |h|
  }

  /** During the outage an attempt was let through that nothing has been reported about. */
  predicate Probing(c: Config, h: seq<Call>) {
    Outage(c, h) && exists i :: LastReport(h) <= i < |h| && Granted(c, h, i)
  }

  /** The breaker's state is a function of its history. */
  lemma {:induction false} StateFromHistory(c: Config, h: seq<Call>)
    requires c.Valid()
    ensures var e := Replay(c, h);
            && Failures(h) == (if e.Some? then e.value.consecutive else 0)
            && (StateOf(e) == Closed <==> !Outage(c, h))
            && (StateOf(e) == HalfOpen <==> Probing(c, h))
            && (e.Some? ==> (e.value.probeInFlight <==> Probing(c, h)))
  {
    if h != [] {
      var p := Init(h);
      StateFromHistory(c, p);
      assert forall i :: 0 <= i < |p| ==> h[..i] == p[..i];
      assert forall i :: 0 <= i < |p| ==> (Granted(c, h, i) <==> Granted(c, p, i));
      assert h[..|p|] == p;
      if Last(h).Ask? {
        if Probing(c, p) {
          var i :| LastReport(p) <= i < |p| && Granted(c, p, i);
          assert Granted(c, h, i);
        } else if Outage(c, h) && Allows(Replay(c, p), Last(h).now) {
          assert Granted(c, h, |p|);
        }
      }
    }
  }

  /** During an outage two attempts are let through only with a report between them. */
  lemma OneProbePerReport(c: Config, h: seq<Call>, i: nat, j: nat)
    requires c.Valid() && i < j < |h|
    requires Granted(c, h, i) && Granted(c, h, j)
    requires Outage(c, h[..j])
    ensures exists k :: i < k < j && !h[k].Ask?
  {
    var p := h[..j];
    StateFromHistory(c, p);
    assert p[..i] == h[..i];
    assert Granted(c, p, i);
    var r := LastReport(p);
    assert i < r;
    assert !h[r - 1].Ask?;
    assert h[i].Ask?;
  }

  /** Availability, exactly: the breaker will let something through at some time if and only if no
      probe is unreported. */
  lemma AvailableUnlessProbing(c: Config, h: seq<Call>)
    requires c.Valid()
    ensures (exists t :: Allows(Replay(c, h), t)) <==> !Probing(c, h)
  {
    StateFromHistory(c, h);
    var e := Replay(c, h);
    if !Probing(c, h) {
      assert Allows(e, if e.Some? then e.value.nextProbeAt else 0);
    }
  }

  lemma {:induction false} StillProbing(c: Config, h: seq<Call>, asks: seq<Call>)
    requires c.Valid() && Probing(c, h) && forall i :: 0 <= i < |asks| ==> asks[i].Ask?
    ensures Probing(c, h + asks)
    decreases |asks|
  {
    if asks == [] {
      assert h + asks == h;
    } else {
      var front, last := asks[..|asks| - 1], asks[|asks| - 1];
      StillProbing(c, h, front);
      assert Init(h + asks) == h + front && Last(h + asks) == last;
      StateFromHistory(c, h + front);
      StateFromHistory(c, h + asks);
    }
  }

  /** While a probe stays unreported, every question is refused. */
  lemma ProbingRefusesAll(c: Config, h: seq<Call>, asks: seq<Call>)
    requires c.Valid() && Probing(c, h) && forall i :: 0 <= i < |asks| ==> asks[i].Ask?
    ensures forall i :: |h| <= i < |h + asks| ==> !Granted(c, h + asks, i)
  {
    forall i | |h| <= i < |h + asks| ensures !Granted(c, h + asks, i) {
      var before := asks[..i - |h|];
      assert (h + asks)[..i] == h + before;
      StillProbing(c, h, before);
      AvailableUnlessProbing(c, h + before);
      assert (h + asks)[i].Ask? ==> !Allows(Replay(c, h + before), (h + asks)[i].now);
    }
  }

  /** `n` failures reported at time zero. */
  function FailedTimes(n: nat): seq<Call> {
    if n == 0 then [] else FailedTimes(n - 1) + [Failure(0)]
  }

  lemma LastFailure(n: nat)
    requires 0 < n
    ensures FailedTimes(n) != [] && Init(FailedTimes(n)) == FailedTimes(n - 1) && Last(FailedTimes(n)) == Failure(0)
  {
  }

  lemma {:induction false} FailuresCount(n: nat)
    ensures Failures(FailedTimes(n)) == n && LastReport(FailedTimes(n)) == |FailedTimes(n)|
  {
    if n > 0 {
      LastFailure(n);
      FailuresCount(n - 1);
    }
  }

  lemma {:induction false} FailuresTrip(c: Config, n: nat)
    requires c.Valid() && n <= c.threshold
    ensures Replay(c, FailedTimes(n)) ==
            if n == 0 then None
            else if n < c.threshold then Some(Entry(Closed, n, 0, 0, 0, false, 0))
            else Some(Entry(Open, n, 0, c.cooldown, c.cooldown, false, 1))
  {
    if n > 0 {
      LastFailure(n);
      FailuresTrip(c, n - 1);
    }
  }

  /** Every configuration can be shut off: after enough failures and one probe that nothing is
      reported about, the breaker refuses, however often and however late it is asked. */
  lemma AShutOffDestination(c: Config, asks: seq<Call>)
    requires c.Valid() && forall i :: 0 <= i < |asks| ==> asks[i].Ask?
    ensures var h := FailedTimes(c.threshold) + [Ask(c.cooldown)];
            && Granted(c, h, |h| - 1)
            && forall i :: |h| <= i < |h + asks| ==> !Granted(c, h + asks, i)
  {
    var p := FailedTimes(c.threshold);
    var h := p + [Ask(c.cooldown)];
    FailuresTrip(c, c.threshold);
    FailuresCount(c.threshold);
    assert Init(h) == p && Last(h) == Ask(c.cooldown) && h[..|p|] == p;
    assert Granted(c, h, |p|) && LastReport(h) == |p|;
    ProbingRefusesAll(c, h, asks);
  }

  // ---- Probe backoff ----

  function Pow2(k: nat): (r: nat)
    ensures r >= 1
  {
    if k == 0 then 1 else 2 * Pow2(k - 1)
  }

  /** The wait after `k` failed probes. The ceiling applies to the doublings, not to the first wait. */
  function Backoff(c: Config, k: nat): Time {
    if k == 0 then c.cooldown else Min(c.cooldown * Pow2(k), c.maxCooldown)
  }

  /** Failures reported in the current outage while a probe was in flight: the probe's own, or that
      of an attempt let through before, which the breaker cannot tell apart. */
  function FailedProbes(c: Config, h: seq<Call>): nat {
    if h == [] then 0
    else match Last(h)
         case Ask(_) => FailedProbes(c, Init(h))
         case Failure(_) => if Failures(h) <= c.threshold then 0
                            else FailedProbes(c, Init(h)) + if Probing(c, Init(h)) then 1 else 0
         case _ => 0
  }

  lemma BackoffDoubles(c: Config, k: nat)
    requires c.Valid()
    ensures Min(Backoff(c, k) * 2, c.maxCooldown) == Backoff(c, k + 1)
    ensures 0 < Backoff(c, k)
  {
  }

  /** Probe backoff is exact: after k failed probes the wait is the k-th of the schedule. */
  lemma {:induction false} CooldownFromHistory(c: Config, h: seq<Call>)
    requires c.Valid()
    ensures Outage(c, h) ==> Replay(c, h).Some? && Replay(c, h).value.cooldown == Backoff(c, FailedProbes(c, h))
  {
    StateFromHistory(c, h);
    if h != [] {
      var p := Init(h);
      StateFromHistory(c, p);
      CooldownFromHistory(c, p);
      BackoffDoubles(c, FailedProbes(c, p));
    }
  }

  /** When the wait that is running began: at the failure that tripped the breaker, or at the latest
      one reported while a probe was in flight. Failures reported while it is open do not move it. */
  function LastOpening(c: Config, h: seq<Call>): Time {
    if h == [] then 0
    else if Last(h).Failure? && (Failures(h) == c.threshold || Probing(c, Init(h))) then Last(h).now
    else LastOpening(c, Init(h))
  }

  lemma {:induction false} NextProbeFromHistory(c: Config, h: seq<Call>)
    requires c.Valid()
    ensures Outage(c, h) && !Probing(c, h) ==>
              Replay(c, h).Some? && Replay(c, h).value.state == Open
              && Replay(c, h).value.nextProbeAt == LastOpening(c, h) + Backoff(c, FailedProbes(c, h))
  {
    if h != [] {
      NextProbeFromHistory(c, Init(h));
      StateFromHistory(c, Init(h));
      StateFromHistory(c, h);
      CooldownFromHistory(c, h);
    }
  }

  /** The answer in an outage, exactly: with no probe unreported, a question is granted from the
      moment the wait of the latest opening is over. */
  lemma GrantsFromHistory(c: Config, h: seq<Call>, t: Time)
    requires c.Valid() && Outage(c, h) && !Probing(c, h)
    ensures Allows(Replay(c, h), t) <==> LastOpening(c, h) + Backoff(c, FailedProbes(c, h)) <= t
  {
    NextProbeFromHistory(c, h);
  }

  /** How often the breaker tripped since the last reset. */
  function Trips(c: Config, h: seq<Call>): nat {
    if h == [] || Last(h).Reset? then 0
    else Trips(c, Init(h)) + if Last(h).Failure? && Failures(h) == c.threshold then 1 else 0
  }

  /** What the dashboard shows of an outage: when it began, and how many there were. */
  lemma {:induction false} TripsFromHistory(c: Config, h: seq<Call>)
    requires c.Valid()
    ensures var e := Replay(c, h);
            && Trips(c, h) == (if e.Some? then e.value.trips else 0)
            && (Outage(c, h) ==> e.Some? && e.value.openedAt == Trip(c, h))
  {
    if h != [] {
      TripsFromHistory(c, Init(h));
      StateFromHistory(c, Init(h));
    }
  }

  /** Clock readings never decrease along the history. */
  predicate Monotone(h: seq<Call>) {
    h == [] || (Monotone(Init(h)) && (Last(h).Ask? || Last(h).Failure? ==> Clock(Init(h)) <= Last(h).now))
  }

  /** The latest clock reading. */
  function Clock(h: seq<Call>): Time {
    if h == [] then 0
    else if Last(h).Ask? || Last(h).Failure? then Last(h).now
    else Clock(Init(h))
  }

  /** When the current outage began. */
  function Trip(c: Config, h: seq<Call>): Time {
    if h == [] then 0
    else if Last(h).Failure? && Failures(h) == c.threshold then Last(h).now
    else Trip(c, Init(h))
  }

  /** Probes let through in the current outage. */
  function Probes(c: Config, h: seq<Call>): nat {
    if h == [] || !Outage(c, h) then 0
    else if Last(h).Ask? then Probes(c, Init(h)) + if Granted(c, h, |h| - 1) then 1 else 0
    else Probes(c, Init(h))
  }

  /** When the latest probe was let through. */
  function LastProbe(c: Config, h: seq<Call>): Time {
    if h == [] then 0
    else if Last(h).Ask? && Outage(c, h) && Granted(c, h, |h| - 1) then Last(h).now
    else LastProbe(c, Init(h))
  }

  function TotalBackoff(c: Config, n: nat): Time {
    if n == 0 then 0 else TotalBackoff(c, n - 1) + Backoff(c, n - 1)
  }

  /** What the clock and the schedule say at every point of an outage. */
  ghost predicate Paced(c: Config, h: seq<Call>) {
    var e := Replay(c, h);
    && e.Some?
    && Probes(c, h) == FailedProbes(c, h) + (if e.value.state == HalfOpen then 1 else 0)
    && Trip(c, h) + TotalBackoff(c, Probes(c, h)) <= Clock(h)
    && (e.value.state == Open ==>
          && Trip(c, h) + TotalBackoff(c, FailedProbes(c, h) + 1) <= e.value.nextProbeAt
          && (0 < Probes(c, h) ==> LastProbe(c, h) + Backoff(c, FailedProbes(c, h)) <= e.value.nextProbeAt))
    && (0 < Probes(c, h) ==> LastProbe(c, h) <= Clock(h))
  }

  lemma {:induction false} OutageIsPaced(c: Config, h: seq<Call>)
    requires c.Valid() && Monotone(h)
    ensures Outage(c, h) ==> Paced(c, h)
  {
    if h != [] {
      var p := Init(h);
      assert h[..|p|] == p;
      OutageIsPaced(c, p);
      StateFromHistory(c, p);
      StateFromHistory(c, h);
      CooldownFromHistory(c, h);
    }
  }

  /** A probe goes out only after the whole scheduled wait since the one before it. */
  lemma ProbesAreSpaced(c: Config, h: seq<Call>, now: Time)
    requires c.Valid() && Monotone(h + [Ask(now)])
    requires Outage(c, h) && 0 < Probes(c, h) && Granted(c, h + [Ask(now)], |h|)
    ensures now - LastProbe(c, h) >= Backoff(c, FailedProbes(c, h))
  {
    assert Init(h + [Ask(now)]) == h;
    assert (h + [Ask(now)])[..|h|] == h;
    OutageIsPaced(c, h);
    StateFromHistory(c, h);
  }

  /** The number of probes is bounded by the outage's length: the scheduled waits of all of
      them fit into it, so each costs at least the smaller of the two configured cooldowns. */
  lemma ProbesFitTheOutage(c: Config, h: seq<Call>)
    requires c.Valid() && Monotone(h) && Outage(c, h)
    ensures TotalBackoff(c, Probes(c, h)) <= Clock(h) - Trip(c, h)
    ensures Probes(c, h) * Min(c.cooldown, c.maxCooldown) <= Clock(h) - Trip(c, h)
  {
    OutageIsPaced(c, h);
    TotalAtLeast(c, Probes(c, h));
  }

  lemma {:induction false} TotalAtLeast(c: Config, n: nat)
    requires c.Valid()
    ensures n * Min(c.cooldown, c.maxCooldown) <= TotalBackoff(c, n)
  {
    if n > 0 {
      TotalAtLeast(c, n - 1);
      var m := Min(c.cooldown, c.maxCooldown);
      assert c.cooldown * Pow2(n - 1) >= c.cooldown by {
        assert c.cooldown * Pow2(n - 1) - c.cooldown == c.cooldown * (Pow2(n - 1) - 1);
      }
      assert n * m == (n - 1) * m + m;
    }
  }
}
