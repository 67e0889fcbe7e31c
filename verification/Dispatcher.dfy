/**
 The dispatcher: how one attempt is judged and recorded. Sending is abstracted to an
 arbitrary `Attempt`; clock readings and the jitter's random number are parameters.
 */
module Dispatcher {
  import opened Deliveries
  import opened ClaimQueue
  import opened MemoryQueue
  import opened Breakers

  const MAX_OUTAGE_PARKING: Time := 24 * HOUR

  datatype RetryPolicy = RetryPolicy(backoff: seq<Time>, jitter: real, timeout: Time) {
    function Attempts(): nat {
      |backoff|
    }
  }

  function DefaultRetryPolicy(): RetryPolicy {
    RetryPolicy([0, 10 * SECOND, MINUTE, 5 * MINUTE, 30 * MINUTE, 2 * HOUR, 6 * HOUR], 0.2, 10 * SECOND)
  }

  /** The policy in force: the default stands in for an empty schedule. */
  function InForce(p: RetryPolicy): (r: RetryPolicy)
    ensures 1 <= r.Attempts()
  {
    if p.backoff == [] then DefaultRetryPolicy() else p
  }

  /** What came of trying to send, once the event and the destination were loaded. */
  datatype Attempt =
    | EncodeError
    | SecretError
    | RequestError
    | PrivateAddress
    | TransportError
    | Response(code: int)

  datatype Verdict = Succeeds | Parks | Retries | Fails

  /** `DeliverOnce` as a decision: `found` says that the event and destination exist. */
  function Judge(found: bool, allowed: bool, a: Attempt): Verdict {
    if !found then Fails
    else if !allowed then Parks
    else match a
         case EncodeError => Fails
         case SecretError => Retries
         case RequestError => Fails
         case PrivateAddress => Fails
         case TransportError => Retries
         case Response(code) => if IsSuccess(code) then Succeeds else if ShouldRetry(code) then Retries else Fails
  }

  /** The attempt got as far as the network: it was answered, or failed on the way. */
  predicate Sent(found: bool, allowed: bool, a: Attempt) {
    found && allowed && (a.TransportError? || a.Response?)
  }

  /** The breaker entry after the attempt's report, if it makes one. */
  function Reported(c: Config, e: Option<Entry>, a: Attempt, now: Time): Option<Entry> {
    match a
    case PrivateAddress => AfterFailure(c, e, now)
    case TransportError => AfterFailure(c, e, now)
    case Response(code) => if IsSuccess(code) then AfterSuccess(e)
                           else if 500 <= code || code == 429 then AfterFailure(c, e, now)
                           else e
    case _ => e
  }

  /** How long a parked delivery waits before the breaker is asked again. */
  function ParkDelay(p: RetryPolicy): Time {
    var timeout := InForce(p).timeout;
    if 0 < timeout < 30 * SECOND then timeout else 15 * SECOND
  }

  /** The wait before attempt `attempt`; `roll` is the random number, `None` if none was to be had. */
  function BackoffFor(p: RetryPolicy, attempt: int, roll: Option<nat>): Time
    requires p.backoff != []
  {
    var top := |p.backoff| - 1;
    Wait(p.backoff[if attempt > top then top else if attempt < 0 then 0 else attempt], p.jitter, roll)
  }

  function Wait(base: Time, jitter: real, roll: Option<nat>): Time {
    if base <= 0 || jitter <= 0.0 || roll.None? then base
    else Jittered(base, base as real * jitter, roll.value)
  }

  function Jittered(base: Time, spread: real, roll: nat): Time
    requires 0.0 <= spread
  {
    base + roll % ((2.0 * spread).Floor + 1) - spread.Floor
  }

  function Parked(del: Delivery, p: RetryPolicy, now: Time): Delivery {
    del.(attempt := if del.attempt > 0 then del.attempt - 1 else del.attempt,
         status := Failed,
         nextRetryAt := Some(now + ParkDelay(p)))
  }

  function Buried(del: Delivery): Delivery {
    del.(status := DeadLetter, nextRetryAt := None)
  }

  /** The record `DeliverOnce` completes the delivery with. `closed` is the breaker after the report. */
  function Settle(del: Delivery, p: RetryPolicy, v: Verdict, closed: bool, now: Time, roll: Option<nat>): Delivery {
    match v
    case Succeeds => del.(status := Succeeded, nextRetryAt := None)
    case Parks => Parked(del, p, now)
    case Fails => Buried(del)
    case Retries =>
      if del.attempt >= InForce(p).Attempts() then
        if !closed && now - del.createdAt < MAX_OUTAGE_PARKING then Parked(del, p, now) else Buried(del)
      else
        del.(status := Failed, nextRetryAt := Some(now + BackoffFor(InForce(p), del.attempt, roll)))
  }

  /** A wait stays within the spread of its schedule entry, up to the rounding of the spread
      to whole nanoseconds, and is never negative while the spread is at most the entry. */
  lemma JitterStaysInBand(base: Time, spread: real, roll: nat)
    requires 0.0 <= spread <= base as real
    ensures var wait := Jittered(base, spread, roll);
            0 <= wait && base as real - spread <= wait as real < base as real + spread + 1.0
  {
  }

  // ---- In plain terms ----

  /** What an answer means, by its code: 2xx is a success; 408, 429, 5xx and above, and no code at
      all, are tried again; every other answer is final. */
  lemma JudgedByCode(code: int)
    ensures Judge(true, true, Response(code)) == Succeeds <==> 200 <= code < 300
    ensures Judge(true, true, Response(code)) == Retries <==> code == 0 || code == 408 || code == 429 || 500 <= code
    ensures Judge(true, true, Response(code)) == Fails <==>
            !(200 <= code < 300) && code != 0 && code != 408 && code != 429 && code < 500
  {
  }

  /** What everything else means. */
  lemma JudgedWithoutAnswer(allowed: bool, a: Attempt)
    ensures Judge(false, allowed, a) == Fails
    ensures Judge(true, false, a) == Parks
    ensures a == SecretError || a == TransportError ==> Judge(true, true, a) == Retries
    ensures a == EncodeError || a == RequestError || a == PrivateAddress ==> Judge(true, true, a) == Fails
  {
  }

  /** What the breaker is told: a success for 2xx, a failure for 429, 5xx and above, a private
      address or no connection, and nothing for anything else. */
  lemma ReportedByCode(c: Config, e: Option<Entry>, a: Attempt, now: Time)
    ensures a == PrivateAddress || a == TransportError || (a.Response? && (a.code == 429 || 500 <= a.code)) ==>
              Reported(c, e, a, now) == AfterFailure(c, e, now)
    ensures a.Response? && 200 <= a.code < 300 ==> Reported(c, e, a, now) == AfterSuccess(e)
    ensures a == EncodeError || a == SecretError || a == RequestError
            || (a.Response? && a.code < 500 && a.code != 429 && !(200 <= a.code < 300)) ==>
              Reported(c, e, a, now) == e
  {
  }

  /** The default schedule, in seconds, and when it applies. */
  lemma DefaultSchedule(p: RetryPolicy)
    ensures var s := 1_000_000_000;
            DefaultRetryPolicy().backoff == [0, 10 * s, 60 * s, 300 * s, 1_800 * s, 7_200 * s, 21_600 * s]
            && DefaultRetryPolicy().jitter == 0.2 && DefaultRetryPolicy().timeout == 10 * s
    ensures InForce(p) == if |p.backoff| == 0 then DefaultRetryPolicy() else p
    ensures InForce(p).Attempts() == if |p.backoff| == 0 then 7 else |p.backoff|
  {
  }

  /** A parked delivery is asked about again after the attempt timeout, or after 15 seconds if that
      is not between 0 and 30 seconds. */
  lemma ParkedFor(del: Delivery, p: RetryPolicy, now: Time)
    ensures var s := 1_000_000_000;
            var timeout := if |p.backoff| == 0 then 10 * s else p.timeout;
            Parked(del, p, now).nextRetryAt == Some(now + if 0 < timeout < 30 * s then timeout else 15 * s)
  {
  }

  /** A retry is scheduled around the entry of its attempt: exactly there without jitter, and else
      within the jitter's share of it, up to rounding. */
  lemma ScheduledAround(del: Delivery, p: RetryPolicy, closed: bool, now: Time, roll: Option<nat>)
    requires 0 <= del.attempt < |p.backoff| && 0 <= p.backoff[del.attempt] && 0.0 <= p.jitter <= 1.0
    ensures var at := Settle(del, p, Retries, closed, now, roll).nextRetryAt;
            var entry := p.backoff[del.attempt];
            && at.Some?
            && (p.jitter == 0.0 || roll.None? ==> at.value == now + entry)
            && now <= at.value
            && entry as real * (1.0 - p.jitter) <= (at.value - now) as real < entry as real * (1.0 + p.jitter) + 1.0
  {
    WaitIsAround(p.backoff[del.attempt], p.jitter, roll);
  }

  lemma WaitIsAround(base: Time, jitter: real, roll: Option<nat>)
    requires 0 <= base && 0.0 <= jitter <= 1.0
    ensures var wait := Wait(base, jitter, roll);
            && (jitter == 0.0 || roll.None? ==> wait == base)
            && 0 <= wait
            && base as real * (1.0 - jitter) <= wait as real < base as real * (1.0 + jitter) + 1.0
  {
    var spread := base as real * jitter;
    SpreadOf(base as real, jitter);
    if base > 0 && jitter > 0.0 && roll.Some? {
      JitterStaysInBand(base, spread, roll.value);
    }
  }

  lemma SpreadOf(base: real, jitter: real)
    requires 0.0 <= base && 0.0 <= jitter <= 1.0
    ensures 0.0 <= base * jitter <= base
    ensures base * (1.0 - jitter) == base - base * jitter && base * (1.0 + jitter) == base + base * jitter
  {
  }

  /** Every wait of the band can be drawn. */
  lemma JitterReachesItsBand(base: Time, spread: real, wait: Time)
    requires 0.0 <= spread && base - spread.Floor <= wait <= base - spread.Floor + (2.0 * spread).Floor
    ensures exists roll: nat :: Jittered(base, spread, roll) == wait
  {
    var roll: nat := wait - base + spread.Floor;
    assert roll % ((2.0 * spread).Floor + 1) == roll;
    assert Jittered(base, spread, roll) == wait;
  }

  /** An attempt that ends for want of a signing secret is refunded if and only if the budget is
      spent and the breaker happens to be open less than a day after the delivery was created;
      otherwise it counts. */
  lemma SecretFailuresAreRefundedExactly(del: Delivery, p: RetryPolicy, closed: bool, now: Time, roll: Option<nat>)
    requires 0 < del.attempt
    ensures var d := Settle(del, p, Judge(true, true, SecretError), closed, now, roll);
            var day := 24 * 60 * 60 * 1_000_000_000;
            && (d.attempt == del.attempt - 1 <==>
                InForce(p).Attempts() <= del.attempt && !closed && now - del.createdAt < day)
            && (d.attempt == del.attempt - 1 || d.attempt == del.attempt)
            && (d.status == DeadLetter <==> InForce(p).Attempts() <= del.attempt && (closed || day <= now - del.createdAt))
  {
  }

  /** Attempts that say nothing to the breaker: nothing was sent, or the answer is about the payload. */
  predicate Unreported(a: Attempt) {
    a.EncodeError? || a.SecretError? || a.RequestError?
    || (a.Response? && !(200 <= a.code < 300) && a.code != 429 && a.code < 500)
  }

  /** What shuts a destination off: in an outage, an attempt that was let through leaves the breaker
      refusing at every later time if and only if it reports nothing. What ends that is a report from
      an attempt let through earlier and still under way, or a reset. */
  lemma UnreportedProbesShutOff(c: Config, h: seq<Call>, a: Attempt, start: Time, end: Time)
    requires c.Valid() && Outage(c, h) && Allows(Replay(c, h), start)
    ensures (forall t :: !Allows(Reported(c, AfterAllow(Replay(c, h), start), a, end), t)) <==> Unreported(a)
  {
    StateFromHistory(c, h);
    var e := Reported(c, AfterAllow(Replay(c, h), start), a, end);
    if !Unreported(a) {
      assert Allows(e, e.value.nextProbeAt);
    }
  }

  class Dispatcher {
    const queue: MemoryQueue
    const breaker: Breaker
    const shardOf: string -> int

    constructor (queue: MemoryQueue, breaker: Breaker, shardOf: string -> int)
      ensures this.queue == queue && this.breaker == breaker && this.shardOf == shardOf
    {
      this.queue, this.breaker, this.shardOf := queue, breaker, shardOf;
    }

    /** One delivery per matching destination, all under one new sequence number. */
    method Enqueue(e: Event, destinations: seq<string>, now: Time)
      modifies queue
      ensures Enqueued(old(queue.Value()), e, destinations, |destinations|, shardOf(e.ref), now, queue.Value())
    {
      ghost var q := queue.Value();
      var n := queue.NextSequence(e.tenant, e.ref);
      var shard := shardOf(e.ref);
      for i := 0 to |destinations|
        invariant Enqueued(q, e, destinations, i, shard, now, queue.Value())
      {
        var id := queue.EnqueueDelivery(
          Delivery(0, e.tenant, e.id, destinations[i], "", shard, n, 0, Pending, None, now));
      }
    }

    /** A replayed event gets a new sequence number of its own, for one destination. */
    method EnqueueReplay(e: Event, destination: string, now: Time)
      modifies queue
      ensures Enqueued(old(queue.Value()), e, [destination], 1, shardOf(e.ref), now, queue.Value())
    {
      var n := queue.NextSequence(e.tenant, e.ref);
      var id := queue.EnqueueDelivery(
        Delivery(0, e.tenant, e.id, destination, "", shardOf(e.ref), n, 0, Pending, None, now));
    }

    method Park(del: Delivery, p: RetryPolicy, now: Time) returns (r: Outcome)
      requires Filed(queue.deliveries)
      modifies queue
      ensures RecordedAs(Parked(del, p, now), r)
    {
      var parked := del;
      if parked.attempt > 0 {
        parked := parked.(attempt := parked.attempt - 1);
      }
      parked := parked.(status := Failed, nextRetryAt := Some(now + ParkDelay(p)));
      r := queue.CompleteDelivery(parked);
    }

    method Retry(del: Delivery, p: RetryPolicy, now: Time, roll: Option<nat>) returns (r: Outcome)
      requires Filed(queue.deliveries)
      modifies queue
      ensures RecordedAs(Settle(del, p, Retries, StateOf(breaker.Lookup(del.destination)) == Closed, now, roll), r)
    {
      var policy := InForce(p);
      if del.attempt >= policy.Attempts() {
        var state := breaker.State(del.destination);
        if state != Closed && now - del.createdAt < MAX_OUTAGE_PARKING {
          r := Park(del, p, now);
          return;
        }
        r := queue.CompleteDelivery(del.(status := DeadLetter, nextRetryAt := None));
        return;
      }
      r := queue.CompleteDelivery(del.(status := Failed,
                                       nextRetryAt := Some(now + BackoffFor(policy, del.attempt, roll))));
    }

    method Fail(del: Delivery) returns (r: Outcome)
      requires Filed(queue.deliveries)
      modifies queue
      ensures RecordedAs(Buried(del), r)
    {
      r := queue.CompleteDelivery(del.(status := DeadLetter, nextRetryAt := None));
    }

    /** The queue took `d` as its delivery's new record, or reported that it holds no such delivery. */
    twostate predicate RecordedAs(d: Delivery, r: Outcome)
      reads queue
    {
      && Filed(queue.deliveries)
      && (r == Ok <==> d.id in old(queue.deliveries) && old(queue.deliveries)[d.id].tenant == d.tenant)
      && queue.Value() == if r == Ok then Completed(old(queue.Value()), d) else old(queue.Value())
    }

    /** The destination answered with `code`. */
    method Answered(del: Delivery, p: RetryPolicy, code: int, end: Time, roll: Option<nat>) returns (r: Outcome)
      requires Filed(queue.deliveries)
      modifies queue, breaker
      ensures var after := Reported(breaker.config, old(breaker.Lookup(del.destination)), Response(code), end);
              && breaker.Lookup(del.destination) == after
              && breaker.OnlyTouches(del.destination)
              && RecordedAs(Settle(del, p, Judge(true, true, Response(code)), StateOf(after) == Closed, end, roll), r)
    {
      if IsSuccess(code) {
        breaker.Succeeded(del.destination);
        r := queue.CompleteDelivery(del.(status := Succeeded, nextRetryAt := None));
      } else if code >= 500 || code == 429 {
        var _ := breaker.Failed(del.destination, end);
        r := Retry(del, p, end, roll);
      } else if ShouldRetry(code) {
        r := Retry(del, p, end, roll);
      } else {
        r := Fail(del);
      }
    }

    /** The breaker let the attempt through and it ended as `a`. */
    method Attempted(del: Delivery, p: RetryPolicy, a: Attempt, end: Time, roll: Option<nat>) returns (r: Outcome)
      requires Filed(queue.deliveries)
      modifies queue, breaker
      ensures var after := Reported(breaker.config, old(breaker.Lookup(del.destination)), a, end);
              && breaker.Lookup(del.destination) == after
              && breaker.OnlyTouches(del.destination)
              && RecordedAs(Settle(del, p, Judge(true, true, a), StateOf(after) == Closed, end, roll), r)
    {
      match a {
        case EncodeError =>
          r := Fail(del);
        case SecretError =>
          r := Retry(del, p, end, roll);
        case RequestError =>
          r := Fail(del);
        case PrivateAddress =>
          var _ := breaker.Failed(del.destination, end);
          r := Fail(del);
        case TransportError =>
          var _ := breaker.Failed(del.destination, end);
          r := Retry(del, p, end, roll);
        case Response(code) =>
          r := Answered(del, p, code, end, roll);
      }
    }

    /** One attempt: `start` is when the breaker is asked, `end` when the outcome is recorded. */
    method DeliverOnce(del: Delivery, policy: Option<RetryPolicy>, a: Attempt, start: Time, end: Time, roll: Option<nat>)
      returns (r: Outcome)
      requires Filed(queue.deliveries)
      modifies queue, breaker
      ensures var found := del.eventId in old(queue.events) && old(queue.events)[del.eventId].tenant == del.tenant && policy.Some?;
              var before := old(breaker.Lookup(del.destination));
              var allowed := Allows(before, start);
              var after := if !found then before
                           else if !allowed then AfterAllow(before, start)
                           else Reported(breaker.config, AfterAllow(before, start), a, end);
              && breaker.Lookup(del.destination) == after
              && breaker.OnlyTouches(del.destination)
              && RecordedAs(Settle(del, if policy.Some? then policy.value else DefaultRetryPolicy(),
                                   Judge(found, allowed, a), StateOf(after) == Closed,
                                   if found && !allowed then start else end, roll), r)
    {
      if del.eventId !in queue.events || queue.events[del.eventId].tenant != del.tenant {
        r := Fail(del);
        return;
      }
      if policy.None? {
        r := Fail(del);
        return;
      }
      var allowed := breaker.Allow(del.destination, start);
      if !allowed {
        r := Park(del, policy.value, start);
        return;
      }
      r := Attempted(del, policy.value, a, end, roll);
    }
  }
}
