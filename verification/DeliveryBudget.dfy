/**
 The retry budget over whole runs. A completion of the latest handout, late or not, finds the
 record it was handed, so attempts can be counted: `attempt` is claims minus parks, the budget is
 exceeded only by lost leases, and once the outage window has passed the number of further
 attempts is bounded.
 */
module DeliveryBudget {
  import opened Deliveries
  import opened ClaimQueue
  import opened Dispatcher
  import opened DeliveryRuns
  import opened DeliveryLeases

  // ---- Attempt accounting ----

  /** `tries` counts the attempts the breaker let through, `sends` those that reached for the destination. */
  datatype Tally = Tally(claims: nat, parks: nat, lost: nat, tries: nat, sends: nat)

  function Budget(c: Config, d: Delivery): nat {
    InForce(c.policy(d.destination)).Attempts()
  }

  /** The completion parks: the breaker refused the attempt, or it is open at the end of the budget. */
  predicate IsPark(c: Config, w: World, s: Step)
    requires s.Complete? && s.token < |w.handed|
  {
    var del := Snapshot(w, s);
    match Judge(s.found, s.allowed, s.result)
    case Parks => true
    case Retries => Budget(c, del) <= del.attempt && !s.closed && w.clock - del.createdAt < MAX_OUTAGE_PARKING
    case _ => false
  }

  /** What one step adds to the tally of `id`. A claim of a delivery still in flight is of a lost lease. */
  function Counted(c: Config, w: World, s: Step, id: int): Tally {
    if s.Claim? && id in s.ids then
      Tally(1, 0, if id in w.q.deliveries && w.q.deliveries[id].status == InFlight then 1 else 0, 0, 0)
    else if CompletesId(w, s, id) then
      Tally(0, if IsPark(c, w, s) then 1 else 0, 0,
            if s.found && s.allowed then 1 else 0,
            if Sent(s.found, s.allowed, s.result) then 1 else 0)
    else Tally(0, 0, 0, 0, 0)
  }

  function Plus(a: Tally, b: Tally): Tally {
    Tally(a.claims + b.claims, a.parks + b.parks, a.lost + b.lost, a.tries + b.tries, a.sends + b.sends)
  }

  /** The tally of `id` over the first `k` steps. */
  function Tallied(c: Config, ws: seq<World>, steps: seq<Step>, id: int, k: nat): Tally
    requires |ws| == |steps| + 1 && k <= |steps|
  {
    if k == 0 then Tally(0, 0, 0, 0, 0)
    else Plus(Tallied(c, ws, steps, id, k - 1), Counted(c, ws[k - 1], steps[k - 1], id))
  }

  ghost predicate Accounted(c: Config, q: Queue, id: int, t: Tally) {
    if id !in q.deliveries then t == Tally(0, 0, 0, 0, 0)
    else
      var d := q.deliveries[id];
      && 0 <= d.attempt == t.claims - t.parks
      && (d.status == InFlight ==> 1 <= d.attempt <= Budget(c, d) + t.lost)
      && (d.status == Pending || d.status == Failed ==> d.attempt < Budget(c, d) + t.lost)
  }

  /** What step `s` makes of the record of `id`. */
  ghost predicate Becomes(c: Config, w: World, s: Step, v: World, id: int) {
    if id !in w.q.deliveries then
      && Counted(c, w, s, id) == Tally(0, 0, 0, 0, 0)
      && (id in v.q.deliveries ==> v.q.deliveries[id].status == Pending && v.q.deliveries[id].attempt == 0)
    else
      var d := w.q.deliveries[id];
      && id in v.q.deliveries
      && (if s.Claim? && id in s.ids then !IsTerminal(d.status) && v.q.deliveries[id] == Leased(d)
          else if CompletesId(w, s, id) then
            d == Snapshot(w, s) && d.status == InFlight && v.q.deliveries[id] == Result(c, w, s)
          else v.q.deliveries[id] == d)
  }

  lemma StepBecomes(c: Config, w: World, s: Step, v: World, id: int)
    requires Inv(c, w) && Faithful(w, id) && Next(c, w, s, v)
    requires CompletesId(w, s, id) ==> Latest(w, id, s.token)
    ensures Becomes(c, w, s, v, id)
    ensures w.clock <= v.clock
  {
    match s
    case Tick(_) =>
    case PutEvent(_) =>
    case Enqueue(_, _) =>
      assert id in w.q.deliveries ==> FiledRight(c, w.q, id);
    case Claim(_, _, _, _, _) =>
      assert id in s.ids ==> Winner(w.q, s.shard, s.now, id);
    case Complete(_, _, _, _, _, _) =>
      CompletionIsOf(c, w, s, v);
  }

  lemma StepKeepsAccount(c: Config, w: World, s: Step, v: World, id: int, t: Tally)
    requires Becomes(c, w, s, v, id) && Accounted(c, w.q, id, t)
    ensures Accounted(c, v.q, id, Plus(t, Counted(c, w, s, id)))
  {
  }

  /** Attempt accounting over whole runs: `attempt` is claims minus parks; at rest it is below
      the budget, and in flight within it, up to the leases lost. */
  lemma {:induction false} AttemptsAreAccounted(c: Config, ws: seq<World>, steps: seq<Step>, id: int, k: nat)
    requires Run(c, ws, steps) && Undisturbed(ws, steps, id) && k < |ws|
    ensures Accounted(c, ws[k].q, id, Tallied(c, ws, steps, id, k))
    decreases k
  {
    if k > 0 {
      AttemptsAreAccounted(c, ws, steps, id, k - 1);
      RunsStayFaithful(c, ws, steps, id, k - 1);
      assert StepAt(c, ws, steps, k - 1) && UndisturbedAt(ws, steps, id, k - 1);
      StepBecomes(c, ws[k - 1], steps[k - 1], ws[k], id);
      StepKeepsAccount(c, ws[k - 1], steps[k - 1], ws[k], id, Tallied(c, ws, steps, id, k - 1));
    }
  }

  /** Where completions are of the latest handout, a finished delivery has no other open one that
      would change it. */
  lemma {:induction false} FinishedUndisturbed(c: Config, ws: seq<World>, steps: seq<Step>, id: int, a: nat, b: nat)
    requires Run(c, ws, steps) && Undisturbed(ws, steps, id) && a <= b < |ws|
    requires id in ws[a].q.deliveries && IsTerminal(ws[a].q.deliveries[id].status)
    ensures id in ws[b].q.deliveries && ws[b].q.deliveries[id] == ws[a].q.deliveries[id]
    decreases b
  {
    if a < b {
      FinishedUndisturbed(c, ws, steps, id, a, b - 1);
      RunsStayFaithful(c, ws, steps, id, b - 1);
      assert StepAt(c, ws, steps, b - 1) && UndisturbedAt(ws, steps, id, b - 1);
      StepBecomes(c, ws[b - 1], steps[b - 1], ws[b], id);
    }
  }

  /** A delivery is dead-lettered for a spent budget exactly at the budget when no lease was
      lost, and never more than the lost leases beyond it. */
  lemma BudgetIsSpentExactly(c: Config, ws: seq<World>, steps: seq<Step>, id: int, k: nat)
    requires Run(c, ws, steps) && Undisturbed(ws, steps, id) && k < |steps|
    requires CompletesId(ws[k], steps[k], id)
    requires Judge(steps[k].found, steps[k].allowed, steps[k].result) == Retries
    requires Result(c, ws[k], steps[k]).status == DeadLetter
    ensures var del := Snapshot(ws[k], steps[k]);
            Budget(c, del) <= del.attempt <= Budget(c, del) + Tallied(c, ws, steps, id, k).lost
  {
    RunsStayFaithful(c, ws, steps, id, k);
    AttemptsAreAccounted(c, ws, steps, id, k);
    assert StepAt(c, ws, steps, k) && UndisturbedAt(ws, steps, id, k);
    assert Latest(ws[k], id, steps[k].token);
  }

  lemma HeldInFlight(c: Config, ws: seq<World>, steps: seq<Step>, id: int, k: nat)
    requires Run(c, ws, steps) && Undisturbed(ws, steps, id) && k < |steps| && CompletesId(ws[k], steps[k], id)
    ensures 1 <= Snapshot(ws[k], steps[k]).attempt
  {
    RunsStayFaithful(c, ws, steps, id, k);
    AttemptsAreAccounted(c, ws, steps, id, k);
    assert StepAt(c, ws, steps, k) && UndisturbedAt(ws, steps, id, k);
    assert Latest(ws[k], id, steps[k].token);
  }

  /** A retry that is scheduled waits for an entry after the first: the schedule's first entry and
      the clamps on the index are never used. */
  lemma SchedulesPastTheFirstEntry(c: Config, ws: seq<World>, steps: seq<Step>, id: int, k: nat)
    requires Run(c, ws, steps) && Undisturbed(ws, steps, id) && k < |steps| && CompletesId(ws[k], steps[k], id)
    requires Judge(steps[k].found, steps[k].allowed, steps[k].result) == Retries
    requires Result(c, ws[k], steps[k]).status == Failed && !IsPark(c, ws[k], steps[k])
    ensures var del := Snapshot(ws[k], steps[k]);
            var p := InForce(c.policy(del.destination));
            && 1 <= del.attempt < |p.backoff|
            && Result(c, ws[k], steps[k]).nextRetryAt == Some(ws[k].clock + Wait(p.backoff[del.attempt], p.jitter, steps[k].roll))
  {
    HeldInFlight(c, ws, steps, id, k);
    ScheduledWait(Snapshot(ws[k], steps[k]), c.policy(Snapshot(ws[k], steps[k]).destination), steps[k].closed, ws[k].clock, steps[k].roll);
  }

  lemma ScheduledWait(del: Delivery, p: RetryPolicy, closed: bool, now: Time, roll: Option<nat>)
    requires 1 <= del.attempt < InForce(p).Attempts()
    ensures Settle(del, p, Retries, closed, now, roll).nextRetryAt == Some(now + Wait(InForce(p).backoff[del.attempt], InForce(p).jitter, roll))
  {
  }

  /** In every run, what an answered attempt leaves behind: 2xx a success; 408, 429, 5xx or no code
      a retry to come while the budget lasts; any other code a dead letter. */
  lemma AnswersAreRecorded(c: Config, ws: seq<World>, steps: seq<Step>, id: int, k: nat, code: int)
    requires Run(c, ws, steps) && k < |steps| && CompletesId(ws[k], steps[k], id)
    requires steps[k].found && steps[k].allowed && steps[k].result == Response(code)
    ensures id in ws[k + 1].q.deliveries
    ensures var d := ws[k + 1].q.deliveries[id];
            var attempt, retried := Snapshot(ws[k], steps[k]).attempt, code == 0 || code == 408 || code == 429 || 500 <= code;
            && (200 <= code < 300 ==> d.status == Succeeded)
            && (retried && attempt < Budget(c, Snapshot(ws[k], steps[k])) ==>
                  d.status == Failed && d.nextRetryAt.Some? && d.attempt == attempt)
            && (!retried && !(200 <= code < 300) ==> d.status == DeadLetter)
  {
    assert StepAt(c, ws, steps, k);
    CompletionIsOf(c, ws[k], steps[k], ws[k + 1]);
    JudgedByCode(code);
  }

  // ---- After the outage window ----

  function Max(a: int, b: int): int {
    if a > b then a else b
  }

  /** How many more attempts the breaker can still let through for the delivery. */
  function TriesLeft(c: Config, d: Delivery): int {
    if IsTerminal(d.status) then 0
    else if d.status == InFlight then Max(Budget(c, d) - d.attempt + 1, 1)
    else Max(Budget(c, d) - d.attempt, 1)
  }

  /** Past the window every attempt the breaker lets through, sent or not, uses up one of the tries
      left; parks leave them as they are; claims and lost leases never add one. */
  lemma StepSpendsTries(c: Config, w: World, s: Step, v: World, id: int)
    requires Becomes(c, w, s, v, id) && id in w.q.deliveries
    requires w.q.deliveries[id].createdAt + MAX_OUTAGE_PARKING <= w.clock
    requires w.q.deliveries[id].status == InFlight ==> 1 <= w.q.deliveries[id].attempt
    ensures v.q.deliveries[id].createdAt == w.q.deliveries[id].createdAt
    ensures TriesLeft(c, v.q.deliveries[id]) + Counted(c, w, s, id).tries <= TriesLeft(c, w.q.deliveries[id])
    ensures CompletesId(w, s, id) && s.found && s.allowed ==>
              TriesLeft(c, v.q.deliveries[id]) < TriesLeft(c, w.q.deliveries[id])
    ensures CompletesId(w, s, id) && IsPark(c, w, s) ==>
              TriesLeft(c, v.q.deliveries[id]) == TriesLeft(c, w.q.deliveries[id])
  {
  }

  /** The delivery exists and its outage window is over. */
  predicate PastWindow(w: World, id: int) {
    id in w.q.deliveries && w.q.deliveries[id].createdAt + MAX_OUTAGE_PARKING <= w.clock
  }

  /** Attempts let through so far and tries left. */
  function Outlay(c: Config, ws: seq<World>, steps: seq<Step>, id: int, k: nat): int
    requires |ws| == |steps| + 1 && k <= |steps| && id in ws[k].q.deliveries
  {
    Tallied(c, ws, steps, id, k).tries + TriesLeft(c, ws[k].q.deliveries[id])
  }

  lemma OutlayStep(c: Config, ws: seq<World>, steps: seq<Step>, id: int, k: nat)
    requires Run(c, ws, steps) && Undisturbed(ws, steps, id) && k < |steps| && PastWindow(ws[k], id)
    ensures PastWindow(ws[k + 1], id)
    ensures Outlay(c, ws, steps, id, k + 1) <= Outlay(c, ws, steps, id, k)
  {
    RunsStayFaithful(c, ws, steps, id, k);
    AttemptsAreAccounted(c, ws, steps, id, k);
    assert StepAt(c, ws, steps, k) && UndisturbedAt(ws, steps, id, k);
    StepBecomes(c, ws[k], steps[k], ws[k + 1], id);
    StepSpendsTries(c, ws[k], steps[k], ws[k + 1], id);
  }

  lemma {:induction false} OutlayNeverGrows(c: Config, ws: seq<World>, steps: seq<Step>, id: int, from: nat, k: nat)
    requires Run(c, ws, steps) && Undisturbed(ws, steps, id) && from <= k < |ws| && PastWindow(ws[from], id)
    ensures PastWindow(ws[k], id)
    ensures Outlay(c, ws, steps, id, k) <= Outlay(c, ws, steps, id, from)
    decreases k
  {
    if from < k {
      OutlayNeverGrows(c, ws, steps, id, from, k - 1);
      OutlayStep(c, ws, steps, id, k - 1);
    }
  }

  lemma {:induction false} SendsAreTries(c: Config, ws: seq<World>, steps: seq<Step>, id: int, from: nat, k: nat)
    requires |ws| == |steps| + 1 && from <= k <= |steps|
    ensures var a, b := Tallied(c, ws, steps, id, from), Tallied(c, ws, steps, id, k);
            0 <= b.sends - a.sends <= b.tries - a.tries
  {
    if from < k {
      SendsAreTries(c, ws, steps, id, from, k - 1);
      SendIsTry(c, ws[k - 1], steps[k - 1], id);
    }
  }

  lemma SendIsTry(c: Config, w: World, s: Step, id: int)
    ensures Counted(c, w, s, id).sends <= Counted(c, w, s, id).tries
  {
  }

  /** Once 24 hours have passed since a delivery was created, the breaker lets at most the policy's
      number of attempts through for it, however long the run goes on, and after that many it is
      finished. So many at most are sent. */
  lemma TriesAreBounded(c: Config, ws: seq<World>, steps: seq<Step>, id: int, from: nat, k: nat)
    requires Run(c, ws, steps) && Undisturbed(ws, steps, id) && from <= k < |ws| && PastWindow(ws[from], id)
    ensures id in ws[k].q.deliveries
    ensures var tries := Tallied(c, ws, steps, id, k).tries - Tallied(c, ws, steps, id, from).tries;
            var sends := Tallied(c, ws, steps, id, k).sends - Tallied(c, ws, steps, id, from).sends;
            var budget := Budget(c, ws[from].q.deliveries[id]);
            sends <= tries <= budget && (tries == budget ==> IsTerminal(ws[k].q.deliveries[id].status))
  {
    OutlayNeverGrows(c, ws, steps, id, from, k);
    AttemptsAreAccounted(c, ws, steps, id, from);
    SendsAreTries(c, ws, steps, id, from, k);
  }
}
