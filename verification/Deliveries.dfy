/** Values shared by the delivery modules: statuses, deliveries, events and retry policies. */
module Deliveries {

  datatype Option<+T> = None | Some(value: T)

  /** A reading of the clock, in nanoseconds. Durations use the same unit. */
  type Time = int

  const SECOND: Time := 1_000_000_000
  const MINUTE: Time := 60 * SECOND
  const HOUR: Time := 60 * MINUTE

  datatype Status = Pending | InFlight | Succeeded | Failed | DeadLetter

  predicate IsTerminal(s: Status) {
    s == Succeeded || s == DeadLetter
  }

  /** One event's journey to one destination. `nextRetryAt == None` is the zero time. */
  datatype Delivery = Delivery(
    id: int,
    tenant: string,
    eventId: string,
    destination: string,
    ref: string,
    shard: int,
    sequence: int,
    attempt: int,
    status: Status,
    nextRetryAt: Option<Time>,
    createdAt: Time)

  /** The part of a canonical event the queue reads. */
  datatype Event = Event(id: string, tenant: string, ref: string)

  /** The fields no worker ever changes. */
  predicate SameIdentity(a: Delivery, b: Delivery) {
    && a.id == b.id
    && a.tenant == b.tenant
    && a.eventId == b.eventId
    && a.destination == b.destination
    && a.ref == b.ref
    && a.shard == b.shard
    && a.sequence == b.sequence
    && a.createdAt == b.createdAt
  }

  predicate IsSuccess(code: int) {
    200 <= code < 300
  }

  predicate ShouldRetry(code: int) {
    code == 0 || code == 408 || code == 429 || 500 <= code
  }
}
