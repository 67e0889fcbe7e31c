# StatusHub delivery core: a verified model

StatusHub receives payment webhooks, normalises them, and delivers canonical events to its
customers' endpoints. This project models the parts whose correctness is hard to see in the code
and proves what they promise. It is written in Dafny 4.11; `dafny verify dfyconfig.toml` checks all
of it.

| File | What it holds |
|---|---|
| `Deliveries.dfy`, `ClaimQueue.dfy` | deliveries, the abstract queue, and what a claim selects |
| `MemoryQueue.dfy` | the in-memory store's delivery methods, loops included |
| `Breakers.dfy` | the per-destination circuit breaker, over every call history |
| `Dispatcher.dfy` | how one attempt is judged and recorded |
| `DeliveryRuns.dfy` | the protocol as a transition system; lease exclusivity |
| `DeliveryLeases.dfy` | late completions: exactly what they can break |
| `DeliveryOrder.dfy`, `DeliveryBudget.dfy` | ordering and retry budgets over whole runs |
| `Passes.dfy` | a worker's pass: exactly which of its deliveries are completed in time |
| `Outages.dfy` | queue and breaker in one system: attempts in an outage, and destinations shut off |
| `StrictOrder.dfy` | what a stricter claim rule would gain |
| `Witnesses.dfy` | runs that show what the code does not promise |
| `Audit.dfy` | the audit hash chain |
| `Redact.dfy` | card-number redaction |
| `Amount.dfy` | decimal amounts and minor units |
| `JsonPath.dfy` | path expressions against flattening |
| `Replay.dfy`, `ReplayOrder.dfy` | cursor-paged replay against a one-shot filter, and the order it is queued in |
| `RateLimit.dfy` | the token bucket and its sweeping |
| `Signatures.dfy` | signature headers and the two verifiers |
| `Decimal.dfy`, `Hex.dfy`, `Text.dfy` | the library functions these rest on |

## How the model reads the code

**Delivery protocol.** A `World` is the queue, the clock, and every delivery ever handed to a
worker. A run is any sequence of clock ticks, stored events, enqueues, claims and completions;
workers are the handouts, so there may be any number of them, they may crash (never complete) and
they may complete after their lease expired. A worker reads the clock once per pass
(`internal/dispatch/dispatcher.go:642-668`), so a claim may use any time up to the current one. What an attempt does
at the destination, and what the breaker says, is arbitrary in a run; in `Outages.dfy` the breaker
is part of the system, each worker asks it and later reports to it, and others ask and report in
between. The methods of
`MemoryQueue` and `Dispatcher` are proved against the same predicates (`Selects`, `Claimed`,
`Completed`, `Enqueued`, `Settle`) that the steps of a run are made of.

**Where code and comments differ**, the model follows the code:
- Sequence numbers alone do not keep order under retry (`internal/dispatch/dispatcher.go:154-157` says they
  do): an undue retry is filtered out before the sort, so a later event can be claimed. `ARetryIsOvertaken` is such a run;
  `OvertakesExactlyTheWaiting` says exactly when it happens, and `ClaimsFollowSequence` and
  `OutcomesFollowSequence` prove order for every stream that never rests in `failed`. Under a claim
  rule in which unfinished deliveries block their key, every stream completed in time would be in
  order (`StrictRunsAreOrdered`); the configuration flag `strict` stands for that rule, and the
  code is the case without it.
- A granted probe that ends in an encoding failure, a secret failure, a request that cannot be
  built, or an answer that is none of 2xx, 429 and 5xx reports nothing to the breaker, and those are
  exactly the results that leave it refusing at every later time (`UnreportedProbesShutOff`). Some
  question will be answered yes if and only if no probe is unreported (`AvailableUnlessProbing`).
  An attempt let through before the trip and still under way can end this by its own report; if
  there is none, the destination is never attempted again until an operator resets it, and its
  deliveries are parked without limit (`ShutOffForGood`). `ANotFoundShutsOff` is a run in which one
  404 does this.
- A completion is accepted whatever became of its lease. The lease map stays exact and live records
  stay unique (`RunsAreExclusive`), but a late completion can put a delivery that succeeded back to
  `failed` (`ALateCompletionReopens`) and put two workers on one delivery (`TwoWorkersAtOnce`),
  against the promise at `internal/store/memory_delivery.go:41-46`. Exactly when: a finished delivery can be
  reopened if and only if some handout of it is still open (`ReopenedExactly`), and with none open
  it never changes again (`FinishedStaysFinished`); and the holders of a delivery's leases are
  protected throughout a run if and only if no completion of it comes while someone else holds a
  lease on it (`StepKeepsCurrentExactly`, `HoldersAreProtectedExactly`), in which case a key has one
  worker (`OneWorkerPerKey`). The budget theorems assume only that completions are of the latest
  handout, late or not, and count the leases that were lost.
- The lease is meant to outlast the attempts (`internal/dispatch/dispatcher.go:607-610`). A pass reads the clock once
  and attempts its deliveries one after the other, so delivery number `j` is sure to be completed in
  time if and only if `j` times the longest attempt fits the lease (`InTimeExactlyIfEarly`): twelve
  deliveries under the defaults (`DefaultsCoverTwelve`), where one shard's batch is 32.
- A secret that cannot be resolved uses up the budget, against the comment at
  `internal/dispatch/dispatcher.go:272-274`. `SecretFailuresAreRefundedExactly` says when it does not, and
  `SecretFailuresBury` is a run that dead-letters a delivery of which nothing was ever sent.
- `Attempts()` is the length of the schedule, without the extra one its comment adds
  (`internal/domain/config.go:84-86` against `:117`), and a scheduled retry never uses the schedule's first entry
  (`SchedulesPastTheFirstEntry`).
- After `k` failed probes the cooldown is `min(cooldown * 2^k, maxCooldown)` for `k > 0` and the
  plain cooldown for `k = 0`; this needs no assumption that the cooldown is at most the maximum.
- The smallest 64-bit amount does not survive rendering; every other one does (`MinorRoundTrips`).
- Sweeping idle rate-limit buckets is invisible exactly when an idle bucket has had time to fill
  (`SweepingIsInvisibleExactly`); the constructor's defaults satisfy this.
- The age check of a signature is meant to be symmetric (`internal/dispatch/sign.go:108-110`). It is, up to 2^63
  nanoseconds ahead; a second further in the future than that saturates, its negation stays
  negative, and it passes (`WindowIsSymmetric`, `AFarFutureHeaderIsAccepted`).
- Filtered replay enqueues newest first, so of two events of one transaction the older one gets the
  larger sequence number (`OlderEventsGetLargerNumbers`).
- The server verifier's text comparison after a failed hex decoding never decides anything
  (`MatchesAgree`).

**Parameters.** Clock readings, the jitter's random number, SHA-256, HMAC (RFC 2104) and the shard
hash are parameters, so every statement holds for all of them. "No collision" is never assumed:
where it matters, a collision is one of the conclusion's cases. Times are integers in
nanoseconds (seconds as reals in `RateLimit.dfy`), numbers are unbounded except where the code's
64-bit width matters (`ParseInt`, negation in amounts, saturating durations in signatures), and
text is a sequence of bytes with ASCII white space and case.

## Model

| member | source | states |
|---|---|---|
| `MemoryQueue.MemoryQueue.EnqueueDelivery` | internal/store/memory_delivery.go:13-29 | files the delivery under a fresh ID, with its event's reference if it has none, and changes nothing else |
| `MemoryQueue.MemoryQueue.NextSequence` | internal/store/memory_delivery.go:31-37 | returns one more than the last number of the tenant and reference, and remembers it |
| `MemoryQueue.MemoryQueue.ClaimDue` | internal/store/memory_delivery.go:47-116 | leases exactly the first `limit` winners in claim order, returns their leased snapshots, and leaves everything else unchanged |
| `MemoryQueue.MemoryQueue.BlockedKeys` | internal/store/memory_delivery.go:60-69 | the keys with an in-flight delivery not known to have outlived its lease |
| `MemoryQueue.MemoryQueue.Candidates` | internal/store/memory_delivery.go:71-85 | lists every due delivery of the shard once |
| `MemoryQueue.SortByClaimOrder` | internal/store/memory_delivery.go:90-95 | a permutation in (sequence, id) order |
| `MemoryQueue.MemoryQueue.LeaseInTurn` | internal/store/memory_delivery.go:97-115 | the claim loop: skips blocked keys, stops at the limit |
| `MemoryQueue.WinsSelect` | internal/store/memory_delivery.go:90-115 | taking each key's first sight in sorted order yields the declarative selection |
| `MemoryQueue.MemoryQueue.CompleteDelivery` | internal/store/memory_delivery.go:132-144 | replaces the record and drops the lease if the tenant holds it, keeps the creation time, and otherwise changes nothing |
| `ClaimQueue.SelectionIsUnique` | internal/store/memory_delivery.go:71-115 | a claim's result is determined by the queue, whatever order Go's maps are visited in |
| `ClaimQueue.OvertakesExactlyTheWaiting` | internal/store/memory_delivery.go:60-114 | a due delivery of a free key is claimable if and only if every earlier unfinished one of its key waits for a future retry time |
| `ClaimQueue.ClaimMakesProgress` | internal/store/memory_delivery.go:71-115 | a claim is non-empty whenever an unblocked delivery is due, and serves that delivery's key if the batch has room |
| `ClaimQueue.KeysArePairs` | internal/store/memory_delivery.go:118-130 | two deliveries share a key if and only if destination and reference agree, the reference being the delivery's own, else its event's, else the event |
| `ClaimQueue.WinnersInPlainTerms` | internal/store/memory_delivery.go:41-114 | who can be claimed, by shard, status, times, destination and reference alone; other references of the destination do not matter |
| `ClaimQueue.SequencesArePairs` | internal/store/memory_delivery.go:31-37 | numbers are counted for each tenant and reference apart |
| `ClaimQueue.FreshInPlainTerms` | internal/dispatch/dispatcher.go:175-188 | every field of a new delivery |
| `ClaimQueue.CompletedInPlainTerms` | internal/store/memory_delivery.go:132-144 | what completing changes and what it leaves |
| `Breakers.Breaker.constructor` | internal/dispatch/breaker.go:83-105 | non-positive options fall back to five failures, 30 seconds and five minutes |
| `Breakers.Breaker.Allow` | internal/dispatch/breaker.go:112-139 | answers and changes one destination's entry only |
| `Breakers.Breaker.Succeeded` | internal/dispatch/breaker.go:147-163 | closes the entry, touching no other destination |
| `Breakers.Breaker.Failed` | internal/dispatch/breaker.go:171-205 | counts, trips or reopens one entry, touching no other destination |
| `Breakers.Breaker.State` | internal/dispatch/breaker.go:209-218 | closed for a destination never seen |
| `Breakers.Breaker.Reset` | internal/dispatch/breaker.go:258-262 | forgets one destination |
| `Breakers.StateFromHistory` | internal/dispatch/breaker.go:112-205 | for every call history: closed iff fewer than `threshold` failures since the last success or reset, half open iff a probe was let through since the last report |
| `Breakers.OneProbePerReport` | internal/dispatch/breaker.go:112-139 | in an outage two grants always have a reported outcome between them |
| `Breakers.AvailableUnlessProbing` | internal/dispatch/breaker.go:112-139 | for every history: some later question is granted if and only if no probe is unreported |
| `Breakers.ProbingRefusesAll` | internal/dispatch/breaker.go:112-139 | while a probe is unreported every question is refused |
| `Breakers.AShutOffDestination` | internal/dispatch/breaker.go:112-139 | under every configuration, a history after which every question is refused |
| `Breakers.CooldownFromHistory` | internal/dispatch/breaker.go:185-203 | after k failed probes of an outage the cooldown is the doubled, capped one |
| `Breakers.GrantsFromHistory` | internal/dispatch/breaker.go:112-205 | in an outage with no probe unreported a question is granted exactly from the latest opening plus the wait after k failed probes; failures reported while open do not move it |
| `Breakers.TripsFromHistory` | internal/dispatch/breaker.go:195-203 | when the outage began and how often the breaker tripped |
| `Breakers.OutageIsPaced` | internal/dispatch/breaker.go:121-203 | what clock, probes and next probe time satisfy at every point of an outage |
| `Breakers.ProbesAreSpaced` | internal/dispatch/breaker.go:121-131 | consecutive probes are at least the current cooldown apart |
| `Breakers.ProbesFitTheOutage` | internal/dispatch/breaker.go:121-203 | the cooldowns of an outage's probes add up to at most its length, which bounds their number |
| `Dispatcher.Dispatcher.Enqueue` | internal/dispatch/dispatcher.go:158-198 | one pending delivery per destination, all under one new sequence number |
| `Dispatcher.Dispatcher.EnqueueReplay` | internal/dispatch/dispatcher.go:202-234 | one pending delivery under a new sequence number of its own |
| `Dispatcher.Dispatcher.DeliverOnce` | internal/dispatch/dispatcher.go:237-357 | the recorded outcome and the breaker's entry for every combination of missing event, refused probe and attempt result |
| `Dispatcher.Dispatcher.Attempted` | internal/dispatch/dispatcher.go:264-356 | what each attempt result reports to the breaker and records in the queue |
| `Dispatcher.Dispatcher.Answered` | internal/dispatch/dispatcher.go:326-356 | 2xx succeeds, 5xx and 429 count against the breaker and retry, 408 retries, the rest fail |
| `Dispatcher.Dispatcher.Park` | internal/dispatch/dispatcher.go:365-393 | refunds the attempt and waits for the breaker |
| `Dispatcher.Dispatcher.Retry` | internal/dispatch/dispatcher.go:444-506 | schedules, parks for an outage younger than 24 hours, or dead-letters, by budget and breaker state |
| `Dispatcher.Dispatcher.Fail` | internal/dispatch/dispatcher.go:509-532 | dead-letters the delivery |
| `Dispatcher.JitterStaysInBand` | internal/dispatch/dispatcher.go:540-561 | a jittered wait stays within the spread of its entry and is never negative |
| `Dispatcher.JitterReachesItsBand` | internal/dispatch/dispatcher.go:550-560 | every wait of the band can be drawn |
| `Dispatcher.ScheduledAround` | internal/dispatch/dispatcher.go:444-561 | a retry is scheduled within the jitter's share of the entry of its attempt, and exactly there without jitter |
| `Dispatcher.ParkedFor` | internal/dispatch/dispatcher.go:365-393 | a parked delivery waits for the attempt timeout, or 15 seconds if that is not between 0 and 30 |
| `Dispatcher.DefaultSchedule` | internal/domain/config.go:97-117 | the default schedule in seconds, its seven attempts, and when it applies |
| `Dispatcher.JudgedByCode` | internal/domain/delivery.go:92-109 | over every code: 2xx succeeds, 408, 429, 5xx and above and 0 are retried, the rest fail |
| `Dispatcher.JudgedWithoutAnswer` | internal/dispatch/dispatcher.go:237-333 | what every other attempt result means |
| `Dispatcher.ReportedByCode` | internal/dispatch/dispatcher.go:300-356 | which results the breaker is told of, and how |
| `Dispatcher.UnreportedProbesShutOff` | internal/dispatch/dispatcher.go:264-356 | in an outage, an attempt let through leaves the breaker's entry refusing at every later time if and only if it is one of the unreported results |
| `Dispatcher.SecretFailuresAreRefundedExactly` | internal/dispatch/dispatcher.go:270-275 | a secret failure is refunded if and only if the budget is spent in a young outage with the breaker open, and buries the delivery if and only if the budget is spent otherwise |
| `DeliveryRuns.RunsAreExclusive` | internal/store/memory_delivery.go:47-144 | in every reachable state of every run, late completions and crashes included, the lease map holds exactly the in-flight deliveries and each key has at most one unexpired one |
| `DeliveryRuns.PairsAreExclusive` | internal/store/memory_delivery.go:41-46 | in every reachable state two in-flight deliveries of one destination and reference do not both have a lease that holds |
| `DeliveryRuns.ClaimKeepsExclusive` | internal/store/memory_delivery.go:60-114 | a claim, even with a stale clock reading, never puts a second live delivery on a key |
| `DeliveryRuns.CompleteKeepsInv` | internal/store/memory_delivery.go:132-144 | completions, stale ones too, keep the invariant |
| `DeliveryRuns.SettleKeepsIdentity` | internal/dispatch/dispatcher.go:365-532 | no outcome touches what identifies a delivery, and none leaves it in flight or pending |
| `DeliveryOrder.ClaimedOverWaiting` | internal/store/memory_delivery.go:60-114 | in a run, whatever a claim passes over in a stream is finished or waiting |
| `DeliveryOrder.ClaimsFollowSequence` | internal/dispatch/dispatcher.go:154-188 | if no attempt of a stream rests in `failed`, its claims follow sequence order over the whole run |
| `DeliveryOrder.OutcomesFollowSequence` | internal/dispatch/dispatcher.go:154-188 | and a delivery is finished only after all earlier ones of its stream |
| `StrictOrder.StrictRunsAreOrdered` | internal/dispatch/dispatcher.go:154-157 | under the stricter rule, in every run that completes a stream's deliveries by their latest handouts, whatever has been started in a stream has only finished deliveries before it |
| `Witnesses.ARetryIsOvertaken` | internal/store/memory_delivery.go:81-85 | a run in which a later event is claimed over an earlier one in backoff |
| `DeliveryBudget.AttemptsAreAccounted` | internal/dispatch/dispatcher.go:365-379 | over every run `Attempt` is claims minus parks; below the budget at rest and within it in flight, up to the leases lost |
| `DeliveryBudget.BudgetIsSpentExactly` | internal/dispatch/dispatcher.go:455-505 | dead-lettering for a spent budget happens at the budget, plus at most the leases lost |
| `DeliveryBudget.SchedulesPastTheFirstEntry` | internal/dispatch/dispatcher.go:540-547 | a scheduled retry waits for the entry at its attempt, which is neither the first nor beyond the last |
| `DeliveryBudget.AnswersAreRecorded` | internal/dispatch/dispatcher.go:335-356 | in every run, what a delivery is after an answer: by code and budget succeeded, failed with a retry to come, or a dead letter |
| `DeliveryBudget.FinishedUndisturbed` | internal/store/memory_delivery.go:132-144 | where completions are of the latest handout, a finished record never changes again |
| `DeliveryLeases.ReopenedExactly` | internal/store/memory_delivery.go:132-144 | in every reachable state a finished delivery can be reopened by a next step if and only if some handout of it is open |
| `DeliveryLeases.FinishedStaysFinished` | internal/store/memory_delivery.go:132-144 | in every run a finished delivery with no open handout never changes again |
| `DeliveryLeases.StepKeepsCurrentExactly` | internal/store/memory_delivery.go:41-144 | a step leaves a lease holder the only one, with the record, if and only if it is no completion by another while the lease holds |
| `DeliveryLeases.HoldersAreProtectedExactly` | internal/store/memory_delivery.go:41-144 | the same over whole runs, as an if and only if |
| `DeliveryLeases.InTimeIsNeverSuperseded` | internal/store/memory_delivery.go:41-144 | completing in time is enough for it |
| `DeliveryLeases.OneWorkerPerKey` | internal/store/memory_delivery.go:41-46 | under it, at most one worker holds a lease on a key |
| `DeliveryLeases.InTimeIsUndisturbed` | internal/store/memory_delivery.go:47-144 | completions in time are of the latest handout |
| `Passes.EarlyPassesAreInTime` | internal/dispatch/dispatcher.go:642-668 | a delivery that every pass gets to early enough is always completed in time |
| `Passes.InTimeExactlyIfEarly` | internal/dispatch/dispatcher.go:642-668 | over all runs, delivery number j of a pass is completed in time whatever the attempts take up to T if and only if j * T fits the lease |
| `Passes.DefaultsCoverTwelve` | internal/dispatch/dispatcher.go:607-614 | with the default lease and timeout that holds for the first twelve deliveries and no more |
| `DeliveryBudget.StepSpendsTries` | internal/dispatch/dispatcher.go:237-379 | past the 24-hour window every attempt the breaker lets through strictly lowers the tries left, sent or not, and a park leaves them unchanged |
| `DeliveryBudget.TriesAreBounded` | internal/dispatch/dispatcher.go:444-532 | past the window the breaker lets at most the policy's attempts through, and after that many the delivery is finished |
| `Witnesses.ALateCompletionReopens` | internal/store/memory_delivery.go:132-144 | a run in which a completion after its lease turns a succeeded delivery into a failed one |
| `Witnesses.TwoWorkersAtOnce` | internal/store/memory_delivery.go:132-144 | a run in which two workers hold leases on one delivery |
| `Witnesses.SecretFailuresBury` | internal/dispatch/dispatcher.go:270-275 | a run that dead-letters a delivery with nothing ever sent |
| `Outages.ReportIsReported` | internal/dispatch/dispatcher.go:396-414 | what an attempt tells the breaker is what the dispatcher does to its entry |
| `Outages.JointRunsAreRuns` | internal/dispatch/dispatcher.go:237-357 | the queue's part of a joint run is a run |
| `Outages.AttemptsBalance` | internal/dispatch/dispatcher.go:251-356 | through an outage, attempts ended and under way are those under way before and the probes let through |
| `Outages.OutageLimitsAttempts` | internal/dispatch/breaker.go:112-205 | in an outage a destination sees at most the attempts under way when it began and its probes, and their cooldowns fit the time since the trip |
| `Outages.ShutOffForGood` | internal/dispatch/dispatcher.go:251-253 | a destination whose probe ended unreported is not attempted again in the rest of the run, unless it is reset |
| `Witnesses.ANotFoundShutsOff` | internal/dispatch/dispatcher.go:346-356 | a run in which a probe answered with 404 shuts its destination off |
| `Audit.PreimageInjective` | internal/domain/audit.go:98-116 | two field lists have the same hashed bytes if and only if they are equal |
| `Audit.EqualHashes` | internal/domain/audit.go:93-117 | equal hashes mean equal hashed fields, or a collision of two distinct preimages |
| `Audit.HashedBytesAreTheFields` | internal/domain/audit.go:98-116 | two records have the same hashed bytes if and only if they agree in each of the twelve fields, time to the microsecond |
| `Audit.TamperingIsFound` | internal/store/memory_audit.go:61-98 | a record of an intact chain changed in any hashed field is the first at which verification fails, or the change collides |
| `Audit.SealedRecord` | internal/domain/audit.go:136-154 | what sealing sets and what it leaves |
| `Audit.WrittenOut` | internal/domain/audit.go:112-116 | the length-prefixed bytes and the hash text, written out |
| `Audit.HashIsNotGenesis` | internal/domain/audit.go:156-158 | no record's hash is the genesis value |
| `Audit.EqualHeadsMeanEqualHistory` | internal/store/memory_audit.go:61-98 | two intact non-empty chains with the same head have the same length and agree in every hashed field, record by record, or a collision is exhibited |
| `Audit.AuditLog.AppendAudit` | internal/store/memory_audit.go:16-29 | seals onto the tenant's head, keeps every chain intact and every other tenant untouched, refuses only what cannot be hashed |
| `Audit.AuditLog.LastAuditHash` | internal/store/memory_audit.go:48-55 | the head of the tenant's chain, or the genesis value |
| `Audit.AuditLog.VerifyChain` | internal/store/memory_audit.go:61-98 | intact if and only if every link and hash holds; otherwise names the first failing record |
| `Audit.AppendKeepsIntact` | internal/domain/audit.go:136-154 | a record sealed onto the head extends an intact chain |
| `Redact.Scan` | internal/redact/redact.go:50-97 | the output is the body with exactly the card numbers replaced, counted |
| `Redact.ScanCandidate` | internal/redact/redact.go:102-122 | the maximal group at a digit and its digits, or nothing beyond 19 digits |
| `Redact.CheckLuhn` | internal/redact/redact.go:131-145 | the Luhn check of ISO/IEC 7812-1 Annex B |
| `Redact.CheckDigit` | internal/redact/redact.go:127-145 | exactly one last digit completes a number: the one that brings the doubled and plain digits before it to a multiple of ten |
| `Redact.NumberIsReplaced` | internal/redact/redact.go:50-97 | a body that is one number of 13 to 19 digits with its check digit becomes the placeholder |
| `Redact.NumberIsKept` | internal/redact/redact.go:50-97 | one that is shorter, longer or fails the check is kept |
| `Redact.KnownNumberIsReplaced` | internal/redact/redact.go:50-97 | a well-known test number with both separators is taken out and the text around it kept |
| `Redact.GroupsAreTheMaximalNumbers` | internal/redact/redact.go:102-122 | the scanner's groups are exactly the maximal runs of digits joined by single separators |
| `Redact.PansAreCounted` | internal/redact/redact.go:70-95 | the count is the number of groups of 13 to 19 digits that pass the check |
| `Redact.RescanFindsNothing` | internal/redact/redact.go:50-97 | scanning the output again changes nothing |
| `Redact.NoPanSurvives` | internal/redact/redact.go:50-97 | no maximal group of the output is a card number |
| `Amount.MinorUnitExponent` | internal/domain/amount.go:20-38 | which codes have no decimals, which three, and two for every other, known or not |
| `Amount.CurrencyTable` | internal/domain/amount.go:20-38 | the table by code |
| `Amount.PlainTexts` | internal/domain/amount.go:94-117 | which texts are amounts, and nothing else is |
| `Amount.RendersInFull` | internal/domain/amount.go:76-92 | a rendered amount has exactly the currency's decimals and no superfluous zero in front |
| `Amount.MinorUnitsAreExact` | internal/domain/amount.go:94-150 | the reference yields v if and only if the text is a plain decimal whose value times 10^exp is exactly v and fits |
| `Amount.DecimalToMinor` | internal/domain/amount.go:99-150 | the digit-level conversion equals the reference on every text, refusals included |
| `Amount.MajorToMinor` | internal/domain/amount.go:69-72 | the same at the currency's exponent |
| `Amount.MinorRoundTrips` | internal/domain/amount.go:69-92 | rendering and converting back is the identity for every 64-bit amount and currency if and only if the amount is not the smallest integer |
| `JsonPath.Compile` | internal/jsonpath/jsonpath.go:71-136 | what the expression denotes, or its error; never more than ten steps |
| `JsonPath.ParseInvertsWriting` | internal/jsonpath/jsonpath.go:89-135 | parsing inverts writing for every list of plain steps, negative indices included, and the depth limit is exact |
| `JsonPath.KeyRoundTripsExactly` | internal/jsonpath/jsonpath.go:71-136 | a member name written as a path compiles to that member if and only if it is plain, does not end in white space and is short enough |
| `JsonPath.QuotedMembers` | internal/jsonpath/jsonpath.go:104-109 | a quoted bracket names a member outright |
| `JsonPath.CompileErrors` | internal/jsonpath/jsonpath.go:71-136 | which expressions fail, and how |
| `JsonPath.ElevenIsTooDeep` | internal/jsonpath/jsonpath.go:91-135 | more than ten steps are too deep |
| `JsonPath.RootIsOptional` | internal/jsonpath/jsonpath.go:81-88 | the root is the whole document and may be left out |
| `JsonPath.Eval` | internal/jsonpath/jsonpath.go:152-182 | follows the steps, or reports the first missing or wrongly shaped one |
| `JsonPath.StepsInPlainTerms` | internal/jsonpath/jsonpath.go:155-180 | index -i of n items is item n - i; what is missing is not found, and a step into something else has the wrong shape |
| `JsonPath.Flatten` | internal/jsonpath/value.go:124-128 | the map of the document's leaves, up to the key limit |
| `JsonPath.Flattening.Flatten` | internal/jsonpath/value.go:135-157 | the recursion adds exactly the leaves below its node to the shared map |
| `JsonPath.LeavesAre` | internal/jsonpath/value.go:135-157 | the leaves are exactly the scalars that paths within the depth limit reach |
| `JsonPath.PathsAreUnique` | internal/jsonpath/value.go:139-151 | distinct positions of a plain document have distinct paths |
| `JsonPath.FlattenKeepsEveryPath` | internal/jsonpath/value.go:124-157 | one map entry for each leaf, up to 512 |
| `JsonPath.FlattenRoundTrips` | internal/jsonpath/value.go:124-157 | every flattened path leads to its value, and compiles to its position if it has at most ten steps and 254 bytes and does not end in white space |
| `JsonPath.FlattenIsComplete` | internal/jsonpath/value.go:124-157 | every scalar within the depth limit is in the map while it has room |
| `Replay.QueryEvents` | internal/store/memory.go:371-392 | the first page of the one-shot filter, newest first |
| `Replay.NewestAreTheHits` | internal/store/memory.go:371-417 | the filter holds exactly the matching events |
| `Replay.QueriedInPlainTerms` | internal/store/memory.go:371-417 | a query returns exactly the tenant's events that agree with every field given |
| `Replay.BeforeAtFirstDifference` | internal/store/memory.go:386-388 | IDs are ordered by their first difference |
| `Replay.NewestDescends` | internal/store/memory.go:379-381 | the hits descend by ID if and only if they have IDs and were stored in increasing order of them |
| `Replay.CursorFilters` | internal/store/memory.go:386-388 | a cursor moved back filters the hits, whatever their order |
| `Replay.PageTurns` | internal/dispatch/replay.go:196-198 | the next page's query finds the hits before the cursor, which are fewer, and where the hits descend exactly those after the page |
| `Replay.NewerStayOutOfSight` | internal/dispatch/replay.go:196-198 | matching events stored since with larger IDs change no later page |
| `Replay.PagingNeverEnds` | internal/dispatch/replay.go:168-199 | a matching event without an ID makes pages of one event go on for ever |
| `Replay.PagingIsRightExactly` | internal/dispatch/replay.go:168-199 | over a store at rest, paging equals the one-shot filter for every page size if and only if every hit has an ID and the IDs descend |
| `Replay.ResolveEvents` | internal/dispatch/replay.go:165-200 | the paged read terminates with the first 10000 events of the pages of the store at its start, truncated if and only if there are more; where the hits descend, these are the newest matches |
| `ReplayOrder.QueueReplay` | internal/dispatch/replay.go:88-105 | one pending delivery per event and matching destination, in order, each numbered on from the last of its sequence |
| `ReplayOrder.OlderEventsGetLargerNumbers` | internal/dispatch/replay.go:88-105 | of two replayed events of one sequence the older gets the larger number |
| `RateLimit.Limiter.constructor` | internal/ratelimit/ratelimit.go:70-91 | the options, or 1000 per second, twice the rate and ten minutes; with default burst and idle time sweeping is patient |
| `RateLimit.Limiter.AllowN` | internal/ratelimit/ratelimit.go:125-160 | the decision and the bucket's new state |
| `RateLimit.Limiter.Sweep` | internal/ratelimit/ratelimit.go:174-187 | forgets exactly the idle buckets and counts them |
| `RateLimit.AllowTakesFromLevel` | internal/ratelimit/ratelimit.go:136-159 | a call is granted if and only if the level covers it, and takes exactly what it grants |
| `RateLimit.RefusalsAreCounted` | internal/ratelimit/ratelimit.go:149-153 | a refusal is counted against its key |
| `RateLimit.RetryAfterIsExact` | internal/ratelimit/ratelimit.go:149-159 | after a refusal the same request is granted from `RetryAfter` on and not before |
| `RateLimit.SweepingIsInvisibleExactly` | internal/ratelimit/ratelimit.go:171-187 | no decision of any run depends on sweeping if and only if idleAfter * rate >= capacity |
| `RateLimit.GrantsAreBounded` | internal/ratelimit/ratelimit.go:125-160 | between any two calls of a run a key is granted at most capacity + rate * time |
| `RateLimit.GrantsAreBoundedExactly` | internal/ratelimit/ratelimit.go:125-187 | that bound holds of all runs with sweeping if and only if idleAfter * rate >= capacity |
| `Signatures.Sign` | internal/dispatch/sign.go:30-42 | the header of a single secret |
| `Signatures.SignWith` | internal/dispatch/sign.go:50-68 | one element per secret, in order, after the timestamp |
| `Signatures.HeaderInFull` | internal/dispatch/sign.go:30-68 | the header of no, one and two secrets, written out |
| `Signatures.SignedIsInjective` | internal/dispatch/sign.go:31-37 | the signed bytes determine timestamp and body |
| `Signatures.Verify` | internal/dispatch/sign.go:74-146 | the server's outcome for every header |
| `Signatures.VerifyAt` | pkg/statushub/statushub.go:71-145 | the client library's outcome for every header |
| `Signatures.ReadHeader` | internal/dispatch/sign.go:79-101 | the last timestamp and all signatures, unless a timestamp is no integer |
| `Signatures.ElementsInPlainTerms` | internal/dispatch/sign.go:83-100 | what each element of a header does |
| `Signatures.SpellingDoesNotMatter` | pkg/statushub/statushub.go:132-142 | case and surrounding white space make no difference to a signature |
| `Signatures.WindowIsSymmetric` | internal/dispatch/sign.go:109-118 | the age check accepts exactly the distances within the tolerance, or the default for a non-positive one, and timestamps so far ahead that the duration saturates |
| `Signatures.UnixTimeOf` | internal/dispatch/sign.go:111 | the time of a second |
| `Signatures.UnixTimeWraps` | internal/dispatch/sign.go:111 | the largest seconds wrap into the past |
| `Signatures.AFarFutureSecondPasses` | internal/dispatch/sign.go:111-118 | a second in the year 2603 is within five minutes of one in 2023 |
| `Signatures.AFarFutureHeaderIsAccepted` | internal/dispatch/sign.go:74-146 | a header signed for that second is accepted |
| `Signatures.MatchesAgree` | internal/dispatch/sign.go:129-144 | the two comparisons accept the same signatures |
| `Signatures.VerifiersAgree` | pkg/statushub/statushub.go:71-145 | server and client give the same outcome on every input; only a blank header is named differently |
| `Signatures.SignedHeaderVerifies` | internal/dispatch/sign.go:50-146 | exactly when a signed header is accepted for another secret and another body |
| `Signatures.SignedHeaderRoundTrips` | internal/dispatch/sign.go:50-146 | a header verifies under each of its secrets if and only if its second is non-zero and inside the window |
| `Decimal.ParseFormat` | internal/dispatch/sign.go:86-91 | printing and parsing a 64-bit integer are inverse |
| `Decimal.IntegerTexts` | internal/jsonpath/jsonpath.go:110-113 | which texts are 64-bit integers, and nothing else is |
| `Hex.EncodeOne` | internal/dispatch/sign.go:41 | two lower-case characters a byte, high half first |
| `Text.SpacesAre` | internal/domain/amount.go:100 | the six characters that are trimmed |
| `Text.FoldsLetters` | internal/domain/amount.go:43-45 | what folding the case changes |

## Left out

- Postgres stores, migrations, retention and usage accounting: they rest on database semantics.
- HTTP sending, DNS and address checks, secret resolution: an attempt is an arbitrary result.
- Concurrency inside one store call: each call is atomic under its mutex, and one `Enqueue` is one step of a run.
- `Enqueue` in a run: the event is stored first under a fresh ID, a destination belongs to one tenant, and an event's destinations are distinct.
- MemoryQueue.MemoryQueue.EnqueueDelivery: takes the creation time as given, because both callers set it; the default for a zero one is not modelled.
- Diagnostic fields of a delivery (response code and body, error text, durations, update time, replay flag), audit records of the dispatcher, metrics and logging.
- Replay by ID list, the choice of a replay's destinations, and `RetryDeadLetter`: short loops around the modelled calls.
- Replay.ResolveEvents: assumes that matching events have IDs, without which paging need not end (`PagingNeverEnds`), and that those stored meanwhile have larger IDs than those before.
- Floating-point rounding in the limiter, and negative requests or a clock that runs backwards: the run theorems take neither.
- `ParseMinor`, `String`, `Int`, `Bool` and JSON decoding: short conversions. An object is the list of its members in one traversal's order.
- Unicode white space and case folding: text is ASCII bytes.
- The client library's own `Sign`, HTTP handlers and event parsing.
- SHA-256 and HMAC themselves, and constant-time comparison as a timing property.
- `RetryPolicy.Validate`, destination filters, tenants, alerting, idempotency, adapters, the tunnel, the dashboard and the command line.
