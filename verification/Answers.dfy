/** What each worker transaction answers, row by row and in plain numbers: when it changes
    anything, what every changed row is then, and that no other row changes. */
module Answers {
  import opened Rows
  import opened Tables
  import opened Workflow
  import opened Invariant
  import opened Protocol
  import Outbox
  import Leases

  // --------------------------------------------------------------------------- claims

  /** The attempt owns its event: PROCESSING under its name. */
  predicate Owns(db: Db, owner: Token) {
    && owner in db.attempts && db.attempts[owner].eventId < |db.events|
    && db.events[db.attempts[owner].eventId].status == EventProcessing
    && db.events[db.attempts[owner].eventId].lockedBy == Some(owner)
  }

  /** A claim is granted exactly to a fresh token, for an available event that is PENDING or
      whose claim has expired; it counts one attempt and lasts 300 seconds. */
  lemma ClaimAnswer(db: Db, event: nat, owner: Token)
    ensures var after := Next(db, ClaimDelivery(event, owner));
            if owner !in db.attempts && event < |db.events| && db.events[event].availableAt <= db.clock
               && (|| db.events[event].status == EventPending
                   || (db.events[event].status == EventProcessing && db.events[event].lockedUntil.Some?
                       && db.events[event].lockedUntil.value <= db.clock))
            then
              var e := db.events[event];
              after == db.(
                events := db.events[event := e.(status := EventProcessing, attempts := e.attempts + 1,
                                                lockedBy := Some(owner), lockedUntil := Some(db.clock + 300))],
                attempts := db.attempts[owner := Attempt(event, e.sessionId, e.userId, e.phase, "", Claimed)])
            else after == db
  {
  }

  /** The lease rows with the owner's open one rewritten. */
  predicate OwnLeaseBecomes(leases: seq<Lease>, after: seq<Lease>, owner: Token, change: Lease -> Lease) {
    && |after| == |leases|
    && forall i | 0 <= i < |leases| ::
         after[i] == if leases[i].owner == owner && leases[i].endedAt.None? then change(leases[i]) else leases[i]
  }

  predicate HasOpenLease(leases: seq<Lease>, owner: Token) {
    exists i | 0 <= i < |leases| :: leases[i].owner == owner && leases[i].endedAt.None?
  }

  /** The lease lookups find the owner's own open row, whatever its session and version. */
  lemma OwnLease(db: Db, owner: Token)
    requires Leases.LeasesOk(db.leases, db.attempts) && IsRunning(db, owner)
    ensures var a := db.attempts[owner];
            && (Leases.Holds(db.leases, a.sessionId, owner, a.stage.leaseVersion) <==> HasOpenLease(db.leases, owner))
            && (Leases.Holds(db.leases, a.sessionId, owner, a.stage.leaseVersion) ==>
                  forall i | 0 <= i < |db.leases| ::
                    db.leases[i].owner == owner && db.leases[i].endedAt.None?
                    <==> i == Leases.ActiveLease(db.leases, a.sessionId).value)
  {
    var a := db.attempts[owner];
    forall i | 0 <= i < |db.leases| && db.leases[i].owner == owner && db.leases[i].endedAt.None?
      ensures Leases.ActiveLease(db.leases, a.sessionId) == Some(i) && db.leases[i].version == a.stage.leaseVersion
    {
      assert Leases.LeaseOk(db.leases[i], db.attempts);
      Leases.ActiveLeaseIs(db.leases, a.sessionId, i);
    }
  }

  /** A heartbeat makes the claim last 300 seconds and the lease 90 seconds from now, for an
      attempt that owns its event and has an open lease, expired or not; else it does nothing. */
  lemma BeatAnswer(db: Db, owner: Token)
    requires ProtocolOk(db)
    ensures var after := Next(db, BeatOnce(owner));
            if IsRunning(db, owner) && Owns(db, owner) && HasOpenLease(db.leases, owner) then
              var id := db.attempts[owner].eventId;
              && after == db.(events := after.events, leases := after.leases)
              && after.events == db.events[id := db.events[id].(lockedUntil := Some(db.clock + 300))]
              && OwnLeaseBecomes(db.leases, after.leases, owner, (l: Lease) => l.(expiresAt := db.clock + 90))
            else after == db
  {
    if IsRunning(db, owner) {
      OwnLease(db, owner);
    }
  }

  /** The clean-up ends the attempt's open lease now, and nothing else. */
  lemma ReleaseAnswer(db: Db, owner: Token)
    requires ProtocolOk(db)
    ensures var after := Next(db, ReleaseSession(owner));
            if IsRunning(db, owner) then
              && after == db.(leases := after.leases)
              && OwnLeaseBecomes(db.leases, after.leases, owner, (l: Lease) => l.(endedAt := Some(db.clock)))
            else after == db
  {
    if IsRunning(db, owner) {
      OwnLease(db, owner);
    }
  }

  /** An obsolete attempt that still owns its event ends it as PROCESSED. */
  lemma CompleteAnswer(db: Db, owner: Token)
    ensures var after := Next(db, CompleteStale(owner));
            if Owns(db, owner) && db.attempts[owner].stage == Obsolete then
              var id := db.attempts[owner].eventId;
              after == db.(events := db.events[id := db.events[id].(status := EventProcessed,
                                                                    lockedBy := None, lockedUntil := None)])
            else after == db
  {
  }

  /** The event as a retry leaves it: available again after 2, 4 or 8 seconds. */
  function PutBack(e: Event, now: nat): Event {
    e.(status := EventPending,
       availableAt := now + (if e.attempts == 1 then 2 else if e.attempts == 2 then 4 else 8),
       dispatchedAt := None, lockedBy := None, lockedUntil := None)
  }

  lemma RetryPutsBack(db: Db, owner: Token)
    requires ProtocolOk(db) && owner in db.attempts
    ensures Outbox.Retry(db.events, db.clock, db.attempts[owner].eventId, owner)
         == if Owns(db, owner) && db.events[db.attempts[owner].eventId].attempts < 4 then
              var id := db.attempts[owner].eventId;
              Some(db.events[id := PutBack(db.events[id], db.clock)])
            else None
  {
    var id := db.attempts[owner].eventId;
    if id < |db.events| {
      assert Outbox.EventOk(db.events[id], id, db.attempts);
      Outbox.RetryDelays();
    }
  }

  /** A blocked attempt gives its event back, and touches no session. */
  lemma RetryLockedAnswer(db: Db, owner: Token)
    requires ProtocolOk(db)
    ensures var after := Next(db, RetryLocked(owner));
            if Owns(db, owner) && db.attempts[owner].stage == Blocked
               && db.events[db.attempts[owner].eventId].attempts < 4
            then
              var id := db.attempts[owner].eventId;
              after == db.(events := db.events[id := PutBack(db.events[id], db.clock)])
            else after == db
  {
    if owner in db.attempts {
      RetryPutsBack(db, owner);
    }
  }

  /** A running attempt whose claim still runs and that has an attempt left puts event,
      session and version back and ends its own lease; any other one changes nothing. */
  lemma RetryLaterAnswer(db: Db, owner: Token)
    requires ProtocolOk(db)
    ensures var after := Next(db, RetryLater(owner));
            if && IsRunning(db, owner) && Owns(db, owner)
               && db.events[db.attempts[owner].eventId].attempts < 4
               && db.events[db.attempts[owner].eventId].lockedUntil.Some?
               && db.events[db.attempts[owner].eventId].lockedUntil.value > db.clock
            then
              var a := db.attempts[owner];
              && a.sessionId < |db.sessions| && ActiveVersion(db, a.sessionId).Some?
              && var v := ActiveVersion(db, a.sessionId).value;
                 && after == db.(
                      events := db.events[a.eventId := PutBack(db.events[a.eventId], db.clock)],
                      sessions := db.sessions[a.sessionId := db.sessions[a.sessionId].(status := Queued)],
                      versions := db.versions[v := db.versions[v].(status := Queued, jobPhase := a.phase)],
                      leases := after.leases)
                 && OwnLeaseBecomes(db.leases, after.leases, owner, (l: Lease) => l.(endedAt := Some(db.clock)))
            else after == db
  {
    if IsRunning(db, owner) {
      ScheduleRetryShape(db, owner);
      OwnerIsTheSessions(db, owner);
      RetryPutsBack(db, owner);
      OwnLease(db, owner);
    }
  }

  // ----------------------------------------------------------------------- acquisition

  predicate OpenFor(leases: seq<Lease>, s: nat, i: nat) {
    i < |leases| && leases[i].sessionId == s && leases[i].endedAt.None?
  }

  /** The session wants a job of this phase: it is PROCESSING, or QUEUED for the phase. */
  predicate Wanted(db: Db, a: Attempt) {
    && a.sessionId < |db.sessions|
    && (|| db.sessions[a.sessionId].status == Processing
        || (db.sessions[a.sessionId].status == Queued && db.sessions[a.sessionId].jobPhase == Some(a.phase)))
  }

  /** The active version has what the phase starts from. */
  predicate HasInput(version: Version, phase: Phase) {
    && (phase == ResearchPhase ==> version.approvedOutline != "" || version.outlineData != "")
    && (phase == Revision ==> version.draft != "" || version.finalContent != "")
  }

  /** Every open lease of the session is ended now, and one of 300 seconds is added: its
      number is one more than that of the lease it replaces, or 1. */
  predicate LeaseReplaced(db: Db, after: Db, s: nat, owner: Token, number: nat) {
    && |after.leases| == |db.leases| + 1
    && after.leases[|db.leases|] == Lease(s, owner, number, db.clock + 300, db.clock, None)
    && (forall i | 0 <= i < |db.leases| ::
          after.leases[i] == if OpenFor(db.leases, s, i) then db.leases[i].(endedAt := Some(db.clock)) else db.leases[i])
    && (forall i | 0 <= i < |db.leases| :: OpenFor(db.leases, s, i) ==> number == db.leases[i].version + 1)
    && ((forall i | 0 <= i < |db.leases| :: !OpenFor(db.leases, s, i)) ==> number == 1)
  }

  /** The acquired attempt, its lease, and session and active version in PROCESSING. */
  predicate Taken(db: Db, after: Db, owner: Token, number: nat)
    requires owner in db.attempts
  {
    var a := db.attempts[owner];
    && a.sessionId < |db.sessions| && ActiveVersion(db, a.sessionId).Some?
    && var v := ActiveVersion(db, a.sessionId).value;
       var version := db.versions[v];
       && after == db.(
            leases := after.leases,
            sessions := db.sessions[a.sessionId := db.sessions[a.sessionId].(status := Processing, jobPhase := Some(a.phase))],
            versions := db.versions[v := version.(status := Processing, jobPhase := a.phase)],
            attempts := db.attempts[owner := a.(
              stage := Running(number),
              approvedOutline := if version.approvedOutline != "" then version.approvedOutline else version.outlineData)])
       && LeaseReplaced(db, after, a.sessionId, owner, number)
  }

  predicate AnyOpen(leases: seq<Lease>, s: nat) {
    exists i | 0 <= i < |leases| :: OpenFor(leases, s, i)
  }

  predicate LiveOpen(db: Db, s: nat) {
    exists i | 0 <= i < |db.leases| :: OpenFor(db.leases, s, i) && db.leases[i].expiresAt > db.clock
  }

  /** Nothing is in the way once the lease is free: an expired lease is taken over, without
      one the session has to be QUEUED, and the phase finds its input. */
  predicate Takeable(db: Db, a: Attempt)
    requires a.sessionId < |db.sessions|
  {
    && (AnyOpen(db.leases, a.sessionId) || db.sessions[a.sessionId].status == Queued)
    && ActiveVersion(db, a.sessionId).Some?
    && HasInput(db.versions[ActiveVersion(db, a.sessionId).value], a.phase)
  }

  /** Where a claimed attempt stands after its acquisition: it stops as obsolete when its job
      is no longer wanted, is blocked by an open lease that has not expired, and gives up
      when the session cannot be taken; otherwise it runs. */
  lemma AcquireVerdict(db: Db, owner: Token)
    requires Leases.LeasesOk(db.leases, db.attempts) && owner in db.attempts && db.attempts[owner].stage == Claimed
    ensures var a := db.attempts[owner];
            && (WouldAcquire(db, owner) <==> Wanted(db, a) && !LiveOpen(db, a.sessionId) && Takeable(db, a))
            && (!WouldAcquire(db, owner) ==>
                  StopStage(db, owner) == if !Wanted(db, a) then Obsolete
                                          else if LiveOpen(db, a.sessionId) then Blocked
                                          else Abandoned)
  {
    OpenLeaseLookup(db, db.attempts[owner].sessionId, owner);
  }

  /** A claimed attempt takes its session exactly when the verdict lets it, with exactly its
      lease, phase and outline; otherwise only where the attempt stands changes. */
  lemma AcquireAnswer(db: Db, owner: Token)
    requires ProtocolOk(db) && owner in db.attempts && db.attempts[owner].stage == Claimed
    ensures var after := Next(db, AcquireSession(owner));
            var a := db.attempts[owner];
            if Wanted(db, a) && !LiveOpen(db, a.sessionId) && Takeable(db, a) then
              exists number: nat :: Taken(db, after, owner, number)
            else
              after == db.(attempts := db.attempts[owner := a.(
                stage := if !Wanted(db, a) then Obsolete else if LiveOpen(db, a.sessionId) then Blocked else Abandoned)])
  {
    AcquireVerdict(db, owner);
    if WouldAcquire(db, owner) {
      TakesSession(db, owner);
    } else {
      AcquireStops(db, owner);
    }
    assert Next(db, AcquireSession(owner)) == Acquire(db, owner);
  }

  /** The lookup finds the one open lease of the session; a claimed attempt has none. */
  lemma OpenLeaseLookup(db: Db, s: nat, owner: Token)
    requires Leases.LeasesOk(db.leases, db.attempts)
    requires owner in db.attempts && db.attempts[owner].stage == Claimed
    ensures var current := Leases.ActiveLease(db.leases, s);
            && (current.Some? <==> AnyOpen(db.leases, s))
            && (forall i: nat | OpenFor(db.leases, s, i) :: current == Some(i) && db.leases[i].owner != owner)
  {
    var current := Leases.ActiveLease(db.leases, s);
    if current.Some? {
      assert OpenFor(db.leases, s, current.value);
    }
    forall i: nat | OpenFor(db.leases, s, i) ensures current == Some(i) && db.leases[i].owner != owner {
      Leases.ActiveLeaseIs(db.leases, s, i);
      assert Leases.LeaseOk(db.leases[i], db.attempts);
    }
  }

  lemma TakesSession(db: Db, owner: Token)
    requires ProtocolOk(db) && WouldAcquire(db, owner)
    ensures exists number: nat :: Taken(db, Acquire(db, owner), owner, number)
  {
    var a := db.attempts[owner];
    var acquired := AcquireLease(db, a.sessionId, a.phase, owner);
    AcquiredShape(db, owner, acquired.db, acquired.leaseVersion);
    OwnerIsTheSessions(db, owner);
    OpenLeaseLookup(db, a.sessionId, owner);
    assert Taken(db, Acquire(db, owner), owner, acquired.leaseVersion);
  }

  // -------------------------------------------------------------------- relay and grant

  /** The relay's rule in plain numbers: available, and PENDING since 30 seconds without a
      dispatch or 300 seconds after one, or PROCESSING under an expired claim. */
  lemma EligibleExactly(e: Event, now: nat)
    ensures Outbox.Eligible(e, now) <==>
              && e.availableAt <= now
              && match e.status
                 case EventPending =>
                   if e.dispatchedAt.None? then e.createdAt + 30 <= now else e.dispatchedAt.value + 300 <= now
                 case EventProcessing => e.lockedUntil.Some? && e.lockedUntil.value <= now
                 case EventProcessed => false
                 case EventFailed => false
  {
  }

  /** A batch is within its limit, and in the order of the ids. */
  lemma {:induction false} BatchInOrder(events: seq<Event>, now: nat, limit: nat, from: nat)
    ensures var batch := Outbox.Dispatchable(events, now, limit, from);
            && |batch| <= limit
            && (forall i, j | 0 <= i < j < |batch| :: batch[i] < batch[j])
            && (forall i | 0 <= i < |batch| :: from <= batch[i] < |events|)
    decreases |events| - from
  {
    if from < |events| && limit > 0 {
      BatchInOrder(events, now, if Outbox.Eligible(events[from], now) then limit - 1 else limit, from + 1);
    }
  }

  /** The relay's batch: in the order of the ids, the first 100 of the eligible events. */
  lemma RelayBatchExactly(events: seq<Event>, now: nat)
    ensures var batch := Outbox.Dispatchable(events, now, DISPATCH_LIMIT, 0);
            && (forall i, j | 0 <= i < j < |batch| :: batch[i] < batch[j])
            && (forall i | 0 <= i < |batch| :: batch[i] < |events|)
            && (forall id | 0 <= id < |events| ::
                  id in batch <==> Outbox.Eligible(events[id], now) && Outbox.CountEligible(events, now, 0, id) < 100)
  {
    BatchInOrder(events, now, DISPATCH_LIMIT, 0);
    forall id | 0 <= id < |events|
      ensures id in Outbox.Dispatchable(events, now, DISPATCH_LIMIT, 0)
         <==> Outbox.Eligible(events[id], now) && Outbox.CountEligible(events, now, 0, id) < 100
    {
      Outbox.DispatchBatchExactly(events, now, DISPATCH_LIMIT, 0, id);
    }
  }

  /** Marking a dispatch stamps an active event with the time, and nothing else. */
  lemma DispatchedAnswer(db: Db, event: nat)
    ensures Next(db, Dispatched(event))
         == if event < |db.events| && db.events[event].status in {EventPending, EventProcessing} then
              db.(events := db.events[event := db.events[event].(dispatchedAt := Some(db.clock))])
            else db
  {
  }

  /** A grant adds the amount to balance and granted total of one account, and one entry. */
  lemma GrantAnswer(db: Db, user: nat, amount: nat, tokens: nat)
    ensures var before := if user in db.accounts then db.accounts[user] else Account(0, 0, 0, 0);
            Next(db, GrantBudget(user, amount, tokens)) == db.(
              accounts := db.accounts[user := Account(before.balance + amount, before.reserved,
                                                      before.granted + amount, before.spent)],
              ledger := db.ledger + [Entry(user, None, None, Grant, tokens, amount)])
  {
  }
}
