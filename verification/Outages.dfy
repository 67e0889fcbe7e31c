/**
 The queue and the breaker together. A worker that was handed a delivery first asks the
 destination's breaker and later reports what came of the attempt and completes the delivery;
 between the two, other workers ask and report. The theorems bound the attempts made on a
 destination in an outage, and say when it is never attempted again.
 */
module Outages {
  import opened Deliveries
  import opened Dispatcher
  import opened DeliveryRuns
  import B = Breakers

  /** `calls` is what each destination's breaker was asked and told; `asked` the answers the
      handouts got. */
  datatype System = System(w: World, calls: map<string, seq<B.Call>>, asked: map<nat, bool>)

  datatype Move = Ask(token: nat) | Reset(destination: string) | Do(step: Step)

  function History(x: System, destination: string): seq<B.Call> {
    if destination in x.calls then x.calls[destination] else []
  }

  /** What an attempt tells the breaker. */
  function Report(a: Attempt, now: Time): seq<B.Call> {
    match a
    case PrivateAddress => [B.Failure(now)]
    case TransportError => [B.Failure(now)]
    case Response(code) => if IsSuccess(code) then [B.Success]
                           else if 500 <= code || code == 429 then [B.Failure(now)]
                           else []
    case _ => []
  }

  /** Telling the breaker is what the dispatcher does to its entry. */
  lemma ReportIsReported(b: B.Config, h: seq<B.Call>, a: Attempt, now: Time)
    ensures B.Replay(b, h + Report(a, now)) == Reported(b, B.Replay(b, h), a, now)
  {
    var r := Report(a, now);
    if r == [] {
      assert h + r == h;
    } else {
      assert B.Init(h + r) == h && B.Last(h + r) == r[0];
    }
  }

  function Target(w: World, token: nat): string
    requires token < |w.handed|
  {
    w.handed[token].snapshot.destination
  }

  /** Handout `token` asks its destination's breaker, once. */
  ghost predicate Asks(b: B.Config, x: System, token: nat, y: System) {
    && token < |x.w.handed| && !x.w.handed[token].done && token !in x.asked
    && var destination, now := Target(x.w, token), x.w.clock;
       var h := History(x, destination);
       y == System(x.w, x.calls[destination := h + [B.Ask(now)]], x.asked[token := B.Allows(B.Replay(b, h), now)])
  }

  /** A completion goes by the answer its handout got, and reports if it was let through. The
      breaker is not asked for a delivery whose event or destination is gone. */
  ghost predicate Completing(b: B.Config, x: System, s: Step, y: System)
    requires s.Complete?
  {
    && s.token < |x.w.handed|
    && (s.found <==> s.token in x.asked)
    && (s.found ==> s.allowed == x.asked[s.token])
    && var destination := Target(x.w, s.token);
       && y.calls == (if s.found && s.allowed
                      then x.calls[destination := History(x, destination) + Report(s.result, x.w.clock)]
                      else x.calls)
       && (s.closed <==> B.StateOf(B.Replay(b, History(y, destination))) == B.Closed)
  }

  ghost predicate Moves(c: Config, b: B.Config, x: System, m: Move, y: System) {
    match m
    case Ask(token) => Asks(b, x, token, y)
    case Reset(destination) => y == x.(calls := x.calls[destination := History(x, destination) + [B.Reset]])
    case Do(s) =>
      && Next(c, x.w, s, y.w) && y.asked == x.asked
      && if s.Complete? then Completing(b, x, s, y) else y.calls == x.calls
  }

  ghost predicate MoveAt(c: Config, b: B.Config, xs: seq<System>, ms: seq<Move>, k: int)
    requires |xs| == |ms| + 1 && 0 <= k < |ms|
  {
    Moves(c, b, xs[k], ms[k], xs[k + 1])
  }

  /** A run of workers, queue and breaker from the start. */
  ghost predicate JointRun(c: Config, b: B.Config, xs: seq<System>, ms: seq<Move>) {
    && |xs| == |ms| + 1
    && xs[0] == System(START, map[], map[])
    && forall k :: 0 <= k < |ms| ==> MoveAt(c, b, xs, ms, k)
  }

  /** The queue's part of a joint run is a run, so everything proved of runs holds here. */
  lemma {:induction false} JointRunsAreRuns(c: Config, b: B.Config, xs: seq<System>, ms: seq<Move>, k: nat)
    returns (ws: seq<World>, steps: seq<Step>)
    requires JointRun(c, b, xs, ms) && k < |xs|
    ensures Run(c, ws, steps) && ws[|steps|] == xs[k].w
  {
    if k == 0 {
      ws, steps := [START], [];
    } else {
      ws, steps := JointRunsAreRuns(c, b, xs, ms, k - 1);
      assert MoveAt(c, b, xs, ms, k - 1);
      if ms[k - 1].Do? {
        ExtendRun(c, ws, steps, ms[k - 1].step, xs[k].w);
        ws, steps := ws + [xs[k].w], steps + [ms[k - 1].step];
      }
    }
  }

  // ---- What every move keeps ----

  /** The breaker has been called at clock readings in order. */
  ghost predicate Timed(x: System, destination: string) {
    B.Monotone(History(x, destination)) && B.Clock(History(x, destination)) <= x.w.clock
  }

  ghost predicate Sane(x: System) {
    && (forall t :: t in x.asked ==> t < |x.w.handed|)
    && (forall d :: Timed(x, d))
  }

  lemma CallKeepsClock(h: seq<B.Call>, call: B.Call, clock: Time)
    requires B.Monotone(h) && B.Clock(h) <= clock && (call.Ask? || call.Failure? ==> call.now == clock)
    ensures B.Monotone(h + [call]) && B.Clock(h + [call]) <= clock
  {
    assert B.Init(h + [call]) == h && B.Last(h + [call]) == call;
  }

  lemma ReportKeepsClock(h: seq<B.Call>, a: Attempt, clock: Time)
    requires B.Monotone(h) && B.Clock(h) <= clock
    ensures B.Monotone(h + Report(a, clock)) && B.Clock(h + Report(a, clock)) <= clock
  {
    var r := Report(a, clock);
    if r == [] {
      assert h + r == h;
    } else {
      CallKeepsClock(h, r[0], clock);
      assert r == [r[0]];
    }
  }

  lemma MoveKeepsTimed(c: Config, b: B.Config, x: System, m: Move, y: System, d: string)
    requires Timed(x, d) && Moves(c, b, x, m, y)
    ensures Timed(y, d)
  {
    match m
    case Ask(token) =>
      CallKeepsClock(History(x, d), B.Ask(x.w.clock), x.w.clock);
    case Reset(_) =>
      CallKeepsClock(History(x, d), B.Reset, x.w.clock);
    case Do(s) =>
      NextHandsOn(c, x.w, s, y.w);
      if s.Complete? {
        ReportKeepsClock(History(x, d), s.result, x.w.clock);
      }
  }

  lemma MoveKeepsSane(c: Config, b: B.Config, x: System, m: Move, y: System)
    requires Sane(x) && Moves(c, b, x, m, y)
    ensures Sane(y)
  {
    forall d ensures Timed(y, d) {
      MoveKeepsTimed(c, b, x, m, y, d);
    }
    if m.Do? {
      NextHandsOn(c, x.w, m.step, y.w);
    }
  }

  lemma {:induction false} RunsStaySane(c: Config, b: B.Config, xs: seq<System>, ms: seq<Move>, k: nat)
    requires JointRun(c, b, xs, ms) && k < |xs|
    ensures Sane(xs[k])
  {
    if k > 0 {
      RunsStaySane(c, b, xs, ms, k - 1);
      assert MoveAt(c, b, xs, ms, k - 1);
      MoveKeepsSane(c, b, xs[k - 1], ms[k - 1], xs[k]);
    }
  }

  // ---- Attempts in an outage ----

  /** The attempts on the destination that were let through and are still under way. */
  ghost function UnderWay(x: System, destination: string): set<nat> {
    set t | t in x.asked && IsUnderWay(x, destination, t)
  }

  predicate IsUnderWay(x: System, destination: string, t: nat) {
    t in x.asked && t < |x.w.handed| && x.asked[t] && !x.w.handed[t].done && Target(x.w, t) == destination
  }

  /** The move ends an attempt on the destination that was let through. */
  predicate EndsAttempt(x: System, m: Move, destination: string) {
    && m.Do? && m.step.Complete? && m.step.found && m.step.allowed
    && m.step.token < |x.w.handed| && Target(x.w, m.step.token) == destination
  }

  /** How many attempts on the destination ended in the first `k` moves. */
  function Ended(xs: seq<System>, ms: seq<Move>, destination: string, k: nat): nat
    requires |xs| == |ms| + 1 && k <= |ms|
  {
    if k == 0 then 0
    else Ended(xs, ms, destination, k - 1) + if EndsAttempt(xs[k - 1], ms[k - 1], destination) then 1 else 0
  }

  /** Every attempt that ends in an outage was under way before, or was let through as a probe. */
  lemma MoveBalances(c: Config, b: B.Config, x: System, m: Move, y: System, destination: string)
    requires b.Valid() && Sane(x) && Moves(c, b, x, m, y)
    requires B.Outage(b, History(x, destination)) && B.Outage(b, History(y, destination))
    ensures (if EndsAttempt(x, m, destination) then 1 else 0) + |UnderWay(y, destination)| + B.Probes(b, History(x, destination))
         == |UnderWay(x, destination)| + B.Probes(b, History(y, destination))
  {
    match m
    case Ask(token) => AskBalances(b, x, token, y, destination);
    case Reset(d) =>
      assert UnderWay(y, destination) == UnderWay(x, destination);
      if d == destination {
        CallChangesProbes(b, History(x, d), B.Reset);
      }
    case Do(s) =>
      NextHandsOn(c, x.w, s, y.w);
      if s.Complete? {
        CompleteBalances(b, x, s, y, destination);
      } else {
        assert UnderWay(y, destination) == UnderWay(x, destination);
      }
  }

  /** How one call changes the number of an outage's probes. */
  lemma CallChangesProbes(b: B.Config, h: seq<B.Call>, call: B.Call)
    requires b.Valid() && B.Outage(b, h)
    ensures var p := h + [call];
            && (B.Outage(b, p) <==> call.Ask? || call.Failure?)
            && (B.Outage(b, p) ==>
                B.Probes(b, p) == B.Probes(b, h) + if call.Ask? && B.Allows(B.Replay(b, h), call.now) then 1 else 0)
  {
    var p := h + [call];
    assert B.Init(p) == h && B.Last(p) == call && p[..|h|] == h;
  }

  lemma AskBalances(b: B.Config, x: System, token: nat, y: System, destination: string)
    requires b.Valid() && Asks(b, x, token, y) && B.Outage(b, History(x, destination))
    ensures |UnderWay(y, destination)| + B.Probes(b, History(x, destination))
         == |UnderWay(x, destination)| + B.Probes(b, History(y, destination))
  {
    UnderWayAfterAsk(b, x, token, y, destination);
    if Target(x.w, token) == destination {
      CallChangesProbes(b, History(x, destination), B.Ask(x.w.clock));
    }
  }

  /** A question that is granted puts one more attempt under way. */
  lemma UnderWayAfterAsk(b: B.Config, x: System, token: nat, y: System, destination: string)
    requires Asks(b, x, token, y)
    ensures |UnderWay(y, destination)|
         == |UnderWay(x, destination)| + if Target(x.w, token) == destination && y.asked[token] then 1 else 0
  {
    var granted := Target(x.w, token) == destination && y.asked[token];
    forall t: nat ensures IsUnderWay(y, destination, t) <==> IsUnderWay(x, destination, t) || (granted && t == token) {
    }
    if granted {
      assert UnderWay(y, destination) == UnderWay(x, destination) + {token};
    } else {
      assert UnderWay(y, destination) == UnderWay(x, destination);
    }
  }

  lemma ReportKeepsProbes(b: B.Config, h: seq<B.Call>, a: Attempt, now: Time)
    requires b.Valid() && B.Outage(b, h) && B.Outage(b, h + Report(a, now))
    ensures B.Probes(b, h + Report(a, now)) == B.Probes(b, h)
  {
    var r := Report(a, now);
    if r == [] {
      assert h + r == h;
    } else {
      assert r == [r[0]];
      CallChangesProbes(b, h, r[0]);
    }
  }

  lemma CompleteBalances(b: B.Config, x: System, s: Step, y: System, destination: string)
    requires b.Valid() && Sane(x) && s.Complete? && HandsOn(x.w, s, y.w) && y.asked == x.asked && Completing(b, x, s, y)
    requires B.Outage(b, History(x, destination)) && B.Outage(b, History(y, destination))
    ensures (if EndsAttempt(x, Do(s), destination) then 1 else 0) + |UnderWay(y, destination)| + B.Probes(b, History(x, destination))
         == |UnderWay(x, destination)| + B.Probes(b, History(y, destination))
  {
    UnderWayAfter(b, x, s, y, destination);
    if EndsAttempt(x, Do(s), destination) {
      ReportKeepsProbes(b, History(x, destination), s.result, x.w.clock);
    }
  }

  /** A completion takes its own attempt from those under way, if it was one. */
  lemma UnderWayAfter(b: B.Config, x: System, s: Step, y: System, destination: string)
    requires Sane(x) && s.Complete? && HandsOn(x.w, s, y.w) && y.asked == x.asked && Completing(b, x, s, y)
    ensures |UnderWay(x, destination)| == |UnderWay(y, destination)| + if EndsAttempt(x, Do(s), destination) then 1 else 0
  {
    forall t: nat ensures IsUnderWay(x, destination, t) <==> IsUnderWay(y, destination, t) || (EndsAttempt(x, Do(s), destination) && t == s.token) {
      WhetherUnderWay(b, x, s, y, destination, t);
    }
    if EndsAttempt(x, Do(s), destination) {
      WhetherUnderWay(b, x, s, y, destination, s.token);
      assert UnderWay(x, destination) == UnderWay(y, destination) + {s.token};
    } else {
      assert UnderWay(x, destination) == UnderWay(y, destination);
    }
  }

  lemma WhetherUnderWay(b: B.Config, x: System, s: Step, y: System, destination: string, t: nat)
    requires Sane(x) && s.Complete? && HandsOn(x.w, s, y.w) && y.asked == x.asked && Completing(b, x, s, y)
    ensures IsUnderWay(x, destination, t) <==> IsUnderWay(y, destination, t) || (EndsAttempt(x, Do(s), destination) && t == s.token)
    ensures !IsUnderWay(y, destination, s.token)
  {
  }

  ghost predicate OutageThroughout(b: B.Config, xs: seq<System>, destination: string, from: nat, k: nat)
    requires from <= k < |xs|
  {
    forall i :: from <= i <= k ==> B.Outage(b, History(xs[i], destination))
  }

  lemma {:induction false} AttemptsBalance(c: Config, b: B.Config, xs: seq<System>, ms: seq<Move>, destination: string, from: nat, k: nat)
    requires b.Valid() && JointRun(c, b, xs, ms) && from <= k < |xs| && OutageThroughout(b, xs, destination, from, k)
    ensures Ended(xs, ms, destination, k) - Ended(xs, ms, destination, from) + |UnderWay(xs[k], destination)|
         == |UnderWay(xs[from], destination)| + B.Probes(b, History(xs[k], destination)) - B.Probes(b, History(xs[from], destination))
    decreases k
  {
    if from < k {
      AttemptsBalance(c, b, xs, ms, destination, from, k - 1);
      RunsStaySane(c, b, xs, ms, k - 1);
      assert MoveAt(c, b, xs, ms, k - 1);
      MoveBalances(c, b, xs[k - 1], ms[k - 1], xs[k], destination);
    }
  }

  /** In an outage the attempts that end on a destination number at most those under way when it
      began and its probes; and its probes, each waiting out a cooldown, fit the time since. */
  lemma OutageLimitsAttempts(c: Config, b: B.Config, xs: seq<System>, ms: seq<Move>, destination: string, from: nat, k: nat)
    requires b.Valid() && JointRun(c, b, xs, ms) && from <= k < |xs| && OutageThroughout(b, xs, destination, from, k)
    ensures var probes := B.Probes(b, History(xs[k], destination));
            && Ended(xs, ms, destination, k) - Ended(xs, ms, destination, from) <= |UnderWay(xs[from], destination)| + probes
            && B.TotalBackoff(b, probes) <= xs[k].w.clock - B.Trip(b, History(xs[k], destination))
            && probes * B.Min(b.cooldown, b.maxCooldown) <= xs[k].w.clock - B.Trip(b, History(xs[k], destination))
  {
    AttemptsBalance(c, b, xs, ms, destination, from, k);
    RunsStaySane(c, b, xs, ms, k);
    ProbesFitTheClock(b, xs[k], destination);
  }

  lemma ProbesFitTheClock(b: B.Config, x: System, destination: string)
    requires b.Valid() && Sane(x) && B.Outage(b, History(x, destination))
    ensures var h := History(x, destination);
            && B.TotalBackoff(b, B.Probes(b, h)) <= x.w.clock - B.Trip(b, h)
            && B.Probes(b, h) * B.Min(b.cooldown, b.maxCooldown) <= x.w.clock - B.Trip(b, h)
  {
    assert Timed(x, destination);
    B.ProbesFitTheOutage(b, History(x, destination));
  }

  // ---- A destination that is never attempted again ----

  /** A probe of the destination ended without a report: nothing is under way and nobody will tell. */
  ghost predicate ShutOff(b: B.Config, x: System, destination: string) {
    B.Probing(b, History(x, destination)) && UnderWay(x, destination) == {}
  }

  lemma MoveKeepsShutOff(c: Config, b: B.Config, x: System, m: Move, y: System, destination: string)
    requires b.Valid() && Sane(x) && Moves(c, b, x, m, y) && ShutOff(b, x, destination) && m != Reset(destination)
    ensures ShutOff(b, y, destination) && !EndsAttempt(x, m, destination)
  {
    match m
    case Ask(token) =>
      AskIsRefused(b, x, token, y, destination);
    case Reset(_) =>
      assert UnderWay(y, destination) <= UnderWay(x, destination);
    case Do(s) =>
      NextHandsOn(c, x.w, s, y.w);
      if EndsAttempt(x, m, destination) {
        EndsWhatWasUnderWay(c, b, x, m, y, destination);
        assert false;
      }
      assert UnderWay(y, destination) <= UnderWay(x, destination);
  }

  lemma EndsWhatWasUnderWay(c: Config, b: B.Config, x: System, m: Move, y: System, destination: string)
    requires Moves(c, b, x, m, y) && EndsAttempt(x, m, destination)
    ensures m.step.token in UnderWay(x, destination)
  {
    NextHandsOn(c, x.w, m.step, y.w);
  }

  lemma AskIsRefused(b: B.Config, x: System, token: nat, y: System, destination: string)
    requires b.Valid() && Asks(b, x, token, y) && ShutOff(b, x, destination)
    ensures ShutOff(b, y, destination)
  {
    var h := History(x, destination);
    B.AvailableUnlessProbing(b, h);
    B.StillProbing(b, h, [B.Ask(x.w.clock)]);
    assert !B.Allows(B.Replay(b, h), x.w.clock);
    assert UnderWay(y, destination) <= UnderWay(x, destination);
  }

  /** Nobody attempts a destination that is shut off for the rest of the run, unless an operator
      resets its breaker: every delivery to it is parked, again and again, whatever its age. */
  lemma {:induction false} ShutOffForGood(c: Config, b: B.Config, xs: seq<System>, ms: seq<Move>, destination: string, from: nat, k: nat)
    requires b.Valid() && JointRun(c, b, xs, ms) && from <= k < |xs| && ShutOff(b, xs[from], destination)
    requires forall i :: from <= i < k ==> ms[i] != Reset(destination)
    ensures ShutOff(b, xs[k], destination) && Ended(xs, ms, destination, k) == Ended(xs, ms, destination, from)
    decreases k
  {
    if from < k {
      ShutOffForGood(c, b, xs, ms, destination, from, k - 1);
      RunsStaySane(c, b, xs, ms, k - 1);
      assert MoveAt(c, b, xs, ms, k - 1);
      MoveKeepsShutOff(c, b, xs[k - 1], ms[k - 1], xs[k], destination);
    }
  }
}
