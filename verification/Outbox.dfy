/** The workflow outbox table: claims, bounded retries and dispatch eligibility. */
module Outbox {
  import opened Rows

  predicate Active(e: Event) {
    e.status == EventPending || e.status == EventProcessing
  }

  // ---------------------------------------------------------------- operations

  /** The partial unique index: at most one active event per session. */
  predicate IndexAllows(events: seq<Event>, sessionId: nat) {
    forall i | 0 <= i < |events| :: Active(events[i]) ==> events[i].sessionId != sessionId
  }

  /** Inserts a PENDING event; None when the partial unique index rejects the row. */
  function Enqueue(events: seq<Event>, now: nat, sessionId: nat, userId: nat, phase: Phase)
    : Option<seq<Event>>
  {
    if IndexAllows(events, sessionId) then
      Some(events + [Event(sessionId, userId, phase, EventPending, 0, now, None, None, None, now)])
    else
      None
  }

  predicate Claimable(e: Event, now: nat) {
    && e.availableAt <= now
    && (|| e.status == EventPending
        || (e.status == EventProcessing && e.lockedUntil.Some? && e.lockedUntil.value <= now))
  }

  function ClaimEvent(events: seq<Event>, now: nat, id: nat, owner: Token): Option<seq<Event>> {
    if id < |events| && Claimable(events[id], now) then
      Some(events[id := events[id].(status := EventProcessing,
                                    attempts := events[id].attempts + 1,
                                    lockedBy := Some(owner),
                                    lockedUntil := Some(now + LEASE_SECONDS))])
    else
      None
  }

  /** The row `_owned_event` finds. */
  predicate Owned(events: seq<Event>, id: nat, owner: Token) {
    id < |events| && events[id].status == EventProcessing && events[id].lockedBy == Some(owner)
  }

  function Heartbeat(events: seq<Event>, now: nat, id: nat, owner: Token): Option<seq<Event>> {
    if Owned(events, id, owner) then
      Some(events[id := events[id].(lockedUntil := Some(now + LEASE_SECONDS))])
    else
      None
  }

  /** Ends the claim with a terminal status: complete (PROCESSED) and fail (FAILED). */
  function Finish(events: seq<Event>, id: nat, owner: Token, status: EventStatus): Option<seq<Event>> {
    if Owned(events, id, owner) then
      Some(events[id := events[id].(status := status, lockedBy := None, lockedUntil := None)])
    else
      None
  }

  /** Exact ownership of a claim that is still running. */
  predicate CurrentClaim(events: seq<Event>, id: nat, owner: Token, now: nat) {
    Owned(events, id, owner) && events[id].lockedUntil.Some? && events[id].lockedUntil.value > now
  }

  function Min(a: nat, b: nat): nat { if a < b then a else b }

  function Pow2(n: nat): (p: nat)
    ensures p > 0
  {
    if n == 0 then 1 else 2 * Pow2(n - 1)
  }

  /** The backoff after the given number of attempts, in seconds. */
  function RetryDelay(attempts: nat): nat {
    Min(Pow2(Min(attempts, 8)), 300)
  }

  /** None when the event is not owned or has used up its attempts. */
  function Retry(events: seq<Event>, now: nat, id: nat, owner: Token): Option<seq<Event>> {
    if Owned(events, id, owner) && events[id].attempts < MAX_ATTEMPTS then
      Some(events[id := events[id].(status := EventPending,
                                    availableAt := now + RetryDelay(events[id].attempts),
                                    dispatchedAt := None,
                                    lockedBy := None,
                                    lockedUntil := None)])
    else
      None
  }

  function MarkDispatched(events: seq<Event>, now: nat, id: nat): seq<Event> {
    if id < |events| && Active(events[id]) then
      events[id := events[id].(dispatchedAt := Some(now))]
    else
      events
  }

  /** An expired claim with no attempt left. */
  predicate Exhausted(e: Event, now: nat) {
    && e.status == EventProcessing
    && e.lockedUntil.Some? && e.lockedUntil.value <= now
    && e.attempts >= MAX_ATTEMPTS
  }

  function FailClaim(e: Event): Event {
    e.(status := EventFailed, lockedBy := None, lockedUntil := None)
  }

  /** `skipped` holds the ids of the rows another transaction has locked. */
  function FailExhausted(events: seq<Event>, now: nat, skipped: set<nat>): (r: seq<Event>)
    ensures |r| == |events|
  {
    seq(|events|, i requires 0 <= i < |events| =>
      if Exhausted(events[i], now) && i !in skipped then FailClaim(events[i]) else events[i])
  }

  function ExhaustedSessions(events: seq<Event>, now: nat, skipped: set<nat>): set<nat> {
    set i: nat | i < |events| && Exhausted(events[i], now) && i !in skipped :: events[i].sessionId
  }

  // ------------------------------------------------------ dispatch eligibility

  /** The WHERE clause of get_dispatchable. */
  predicate Eligible(e: Event, now: nat) {
    && e.availableAt <= now
    && (|| (e.status == EventPending
            && (|| (e.dispatchedAt.None? && e.createdAt <= now - UNDISPATCHED_SECONDS)
                || (e.dispatchedAt.Some? && e.dispatchedAt.value <= now - REPUBLISH_SECONDS)))
        || (e.status == EventProcessing && e.lockedUntil.Some? && e.lockedUntil.value <= now))
  }

  /** get_dispatchable: the first `limit` eligible ids at or after `from`, in id order. */
  function Dispatchable(events: seq<Event>, now: nat, limit: nat, from: nat): seq<nat>
    decreases |events| - from
  {
    if from >= |events| || limit == 0 then []
    else if Eligible(events[from], now) then [from] + Dispatchable(events, now, limit - 1, from + 1)
    else Dispatchable(events, now, limit, from + 1)
  }

  function CountEligible(events: seq<Event>, now: nat, lo: nat, hi: nat): nat
    requires lo <= hi <= |events|
    decreases hi - lo
  {
    if lo == hi then 0
    else (if Eligible(events[lo], now) then 1 else 0) + CountEligible(events, now, lo + 1, hi)
  }

  /** An event is in the batch exactly when it is eligible and fewer than `limit`
      eligible events come before it. */
  lemma {:induction false} DispatchBatchExactly(events: seq<Event>, now: nat, limit: nat, from: nat, id: nat)
    requires from <= id < |events|
    ensures id in Dispatchable(events, now, limit, from)
       <==> Eligible(events[id], now) && CountEligible(events, now, from, id) < limit
    decreases |events| - from
  {
    DispatchedFrom(events, now, limit, from);
    if limit > 0 {
      var rest := if Eligible(events[from], now) then limit - 1 else limit;
      DispatchedFrom(events, now, rest, from + 1);
      if from < id {
        DispatchBatchExactly(events, now, rest, from + 1, id);
      }
    }
  }

  lemma {:induction false} DispatchedFrom(events: seq<Event>, now: nat, limit: nat, from: nat)
    ensures forall id | id in Dispatchable(events, now, limit, from) ::
              from <= id < |events| && Eligible(events[id], now)
    decreases |events| - from
  {
    if from < |events| && limit > 0 {
      if Eligible(events[from], now) {
        DispatchedFrom(events, now, limit - 1, from + 1);
      } else {
        DispatchedFrom(events, now, limit, from + 1);
      }
    }
  }

  function Max(a: nat, b: nat): nat { if a < b then b else a }

  /** The first instant at which an untouched active event is eligible. */
  function EligibleAt(e: Event): nat
    requires Active(e) && LockFieldsMatch(e)
  {
    if e.status == EventProcessing then Max(e.availableAt, e.lockedUntil.value)
    else if e.dispatchedAt.None? then Max(e.availableAt, e.createdAt + UNDISPATCHED_SECONDS)
    else Max(e.availableAt, e.dispatchedAt.value + REPUBLISH_SECONDS)
  }

  /** The owner and the lock expiry are set exactly while the event is PROCESSING. */
  predicate LockFieldsMatch(e: Event) {
    && (e.lockedBy.Some? <==> e.status == EventProcessing)
    && (e.lockedUntil.Some? <==> e.status == EventProcessing)
  }

  // -------------------------------------------------------- unclaimed deliveries

  datatype QueueOp = Push(id: nat) | Acknowledge(id: nat)

  /** What `_handle_unclaimed_delivery` does with a delivery whose claim failed. */
  function UnclaimedDelivery(events: seq<Event>, now: nat, id: nat): seq<QueueOp> {
    if id >= |events| then [Acknowledge(id)]
    else
      var e := events[id];
      if || e.status == EventProcessed
         || e.status == EventFailed
         || (e.status == EventProcessing && e.lockedUntil.Some? && e.lockedUntil.value > now)
         || e.availableAt > now
      then [Acknowledge(id)]
      else [Push(id), Acknowledge(id)]
  }

  /** A delivery goes back on the queue, before it is acknowledged, exactly when its
      event could be claimed now; a dropped delivery of an active event leaves that
      event to the relay at a later, known instant. */
  lemma UnclaimedDeliveryExactly(events: seq<Event>, now: nat, id: nat)
    requires id < |events| ==> LockFieldsMatch(events[id])
    ensures UnclaimedDelivery(events, now, id)
         == if ClaimEvent(events, now, id, 0).Some? then [Push(id), Acknowledge(id)] else [Acknowledge(id)]
    ensures id < |events| && Active(events[id]) && Push(id) !in UnclaimedDelivery(events, now, id)
        ==> EligibleAt(events[id]) > now && Eligible(events[id], EligibleAt(events[id]))
  {
  }

  // ------------------------------------------------------------ table invariants

  /** Every claim is held by an attempt on that event, and the retry counter is in range. */
  predicate EventOk(e: Event, id: nat, attempts: map<Token, Attempt>) {
    && LockFieldsMatch(e)
    && (e.lockedBy.Some? ==> e.lockedBy.value in attempts && attempts[e.lockedBy.value].eventId == id)
    && (e.status == EventPending ==> e.attempts < MAX_ATTEMPTS)
    && (e.status == EventProcessing ==> 1 <= e.attempts)
  }

  predicate EventsOk(events: seq<Event>, attempts: map<Token, Attempt>) {
    forall id | 0 <= id < |events| :: EventOk(events[id], id, attempts)
  }

  predicate AttemptOk(a: Attempt, events: seq<Event>) {
    && a.eventId < |events|
    && a.sessionId == events[a.eventId].sessionId
    && a.userId == events[a.eventId].userId
    && a.phase == events[a.eventId].phase
  }

  predicate AttemptsOk(attempts: map<Token, Attempt>, events: seq<Event>) {
    forall t | t in attempts :: AttemptOk(attempts[t], events)
  }

  predicate OneActivePerSession(events: seq<Event>) {
    forall i, j | 0 <= i < j < |events| ::
      Active(events[i]) && Active(events[j]) ==> events[i].sessionId != events[j].sessionId
  }

  /** No timestamp lies further ahead than the operation that wrote it allows. */
  predicate EventTimesOk(e: Event, now: nat) {
    && e.createdAt <= now
    && e.availableAt <= now + RetryDelay(MAX_ATTEMPTS - 1)
    && (e.status == EventProcessing ==> e.availableAt <= now)
    && (e.lockedUntil.Some? ==> e.lockedUntil.value <= now + LEASE_SECONDS)
    && (e.dispatchedAt.Some? ==> e.dispatchedAt.value <= now)
  }

  predicate TimesOk(events: seq<Event>, now: nat) {
    forall id | 0 <= id < |events| :: EventTimesOk(events[id], now)
  }

  /** No active event is forgotten: left alone it turns eligible at EligibleAt, never
      before, and that is at most 300 seconds away. */
  lemma ActiveEventBecomesEligible(e: Event, now: nat, later: nat)
    requires Active(e) && LockFieldsMatch(e) && EventTimesOk(e, now)
    ensures Eligible(e, later) <==> later >= EligibleAt(e)
    ensures EligibleAt(e) <= now + REPUBLISH_SECONDS
  {
  }

  lemma RetryDelays()
    ensures RetryDelay(1) == 2 && RetryDelay(2) == 4 && RetryDelay(3) == 8
  {
  }

  /** Right after the relay has failed the exhausted claims, with nothing skipped and
      on the same clock reading, every event it publishes still has an attempt left. */
  lemma RelayPublishesOnlyRetryable(events: seq<Event>, attempts: map<Token, Attempt>, now: nat, id: nat)
    requires EventsOk(events, attempts)
    requires id in Dispatchable(FailExhausted(events, now, {}), now, DISPATCH_LIMIT, 0)
    ensures id < |events| && events[id].attempts < MAX_ATTEMPTS
  {
    DispatchedFrom(FailExhausted(events, now, {}), now, DISPATCH_LIMIT, 0);
    assert EventOk(events[id], id, attempts);
  }
}
