/** Fencing: what one transaction may do to a row it did not create, and why an attempt
    that lost its claim or its lease never acts again. */
module Fencing {
  import opened Rows
  import opened Tables
  import opened Workflow
  import opened Invariant
  import opened Protocol
  import opened Transactions
  import Reachable
  import Outbox
  import Leases
  import Lifecycle

  // ------------------------------------------------------------- one step, one row

  /** An event is never handed to an attempt that already existed, never comes back from
      a terminal status, counts an attempt exactly when it changes hands, and goes back to
      PENDING only with the backoff of its attempts. */
  predicate EventAdvances(e: Event, after: Event, attempts: map<Token, Attempt>, now: nat) {
    && (e.status == EventProcessing && after.status == EventPending ==>
          after.availableAt == now + Outbox.RetryDelay(e.attempts) && after.dispatchedAt == None)
    && after.sessionId == e.sessionId && after.userId == e.userId && after.phase == e.phase
    && after.createdAt == e.createdAt
    && (!Outbox.Active(e) ==> after == e)
    && (|| (after.lockedBy == e.lockedBy && after.attempts == e.attempts)
        || (after.lockedBy == None && after.attempts == e.attempts)
        || (after.lockedBy.Some? && after.lockedBy.value !in attempts && after.attempts == e.attempts + 1))
  }

  /** A lease row keeps its owner and version, and once ended it is frozen. */
  predicate LeaseAdvances(l: Lease, after: Lease) {
    && after.sessionId == l.sessionId && after.owner == l.owner && after.version == l.version
    && after.startedAt == l.startedAt
    && (l.endedAt.Some? ==> after == l)
  }

  /** An attempt keeps its job, and its stage is final once it has left Claimed. */
  predicate AttemptAdvances(a: Attempt, after: Attempt) {
    && after.eventId == a.eventId && after.sessionId == a.sessionId && after.phase == a.phase
    && after.userId == a.userId
    && (a.stage != Claimed ==> after == a)
  }

  predicate EventsAdvance(events: seq<Event>, after: seq<Event>, attempts: map<Token, Attempt>, now: nat) {
    && |events| <= |after|
    && (forall i | 0 <= i < |events| :: EventAdvances(events[i], after[i], attempts, now))
  }

  predicate LeasesAdvance(leases: seq<Lease>, after: seq<Lease>) {
    && |leases| <= |after|
    && (forall i | 0 <= i < |leases| :: LeaseAdvances(leases[i], after[i]))
  }

  predicate AttemptsAdvance(attempts: map<Token, Attempt>, after: map<Token, Attempt>) {
    forall t | t in attempts :: t in after && AttemptAdvances(attempts[t], after[t])
  }

  predicate Advances(db: Db, after: Db) {
    && db.clock <= after.clock
    && EventsAdvance(db.events, after.events, db.attempts, db.clock)
    && LeasesAdvance(db.leases, after.leases)
    && AttemptsAdvance(db.attempts, after.attempts)
  }

  lemma FinishedAdvances(db: Db, after: Db, id: nat, owner: Token, status: EventStatus)
    requires status == EventProcessed || status == EventFailed
    requires Outbox.Finish(db.events, id, owner, status) == Some(after.events)
    requires after.leases == db.leases && after.attempts == db.attempts && after.clock == db.clock
    ensures Advances(db, after)
  {
  }

  lemma OwnLeaseAdvances(db: Db, s: nat, owner: Token, version: nat)
    ensures LeasesAdvance(db.leases, Leases.Insert(FreedLeases(db, s), db.clock, s, owner, version))
  {
  }

  lemma AcquireAdvances(db: Db, owner: Token)
    requires ProtocolOk(db)
    ensures Advances(db, Acquire(db, owner))
  {
    if owner in db.attempts && db.attempts[owner].stage == Claimed {
      if WouldAcquire(db, owner) {
        var a := db.attempts[owner];
        var acquired := AcquireLease(db, a.sessionId, a.phase, owner);
        OwnerIsTheSessions(db, owner);
        AcquiredShape(db, owner, acquired.db, acquired.leaseVersion);
        OwnLeaseAdvances(db, a.sessionId, owner, acquired.leaseVersion);
        AcquiredAdvances(db, owner, acquired.db, acquired.leaseVersion);
      } else {
        AcquireStops(db, owner);
        StoppedAdvances(db, owner, StopStage(db, owner));
      }
    }
  }

  lemma StoppedAdvances(db: Db, owner: Token, stage: Stage)
    requires owner in db.attempts && db.attempts[owner].stage == Claimed
    ensures Advances(db, SetStage(db, owner, stage))
  {
  }

  lemma AcquiredAdvances(db: Db, owner: Token, acquired: Db, version: nat)
    requires owner in db.attempts && db.attempts[owner].stage == Claimed
    requires db.attempts[owner].sessionId < |db.sessions|
    requires db.attempts[owner].userId == db.sessions[db.attempts[owner].sessionId].userId
    requires WantsJob(db, db.attempts[owner].sessionId, db.attempts[owner].phase)
    requires AcquireLease(db, db.attempts[owner].sessionId, db.attempts[owner].phase, owner) == Acquired(acquired, version)
    requires acquired.events == db.events && acquired.clock == db.clock && LeasesAdvance(db.leases, acquired.leases)
    ensures Advances(db, Acquire(db, owner))
  {
  }

  lemma RetryAdvances(db: Db, owner: Token)
    requires ProtocolOk(db) && IsRunning(db, owner)
    ensures Advances(db, ScheduleRetry(db, owner).After(db))
  {
    var a := db.attempts[owner];
    ScheduleRetryShape(db, owner);
    RetriedEventAdvances(db, a.eventId, owner);
    ReleasedLeaseAdvances(db, a.sessionId, owner, a.stage.leaseVersion);
  }

  lemma RetriedEventAdvances(db: Db, event: nat, owner: Token)
    ensures var events := Outbox.Retry(db.events, db.clock, event, owner);
            events.Some? ==> EventsAdvance(db.events, events.value, db.attempts, db.clock)
  {
  }

  lemma ReleasedLeaseAdvances(db: Db, s: nat, owner: Token, version: nat)
    ensures LeasesAdvance(db.leases, Leases.ReleaseLease(db.leases, db.clock, s, owner, version))
  {
  }

  lemma ClaimAdvances(db: Db, event: nat, owner: Token)
    ensures Advances(db, Claim(db, event, owner))
  {
  }

  lemma SuccessAdvances(db: Db, owner: Token, result: RunResult)
    requires IsRunning(db, owner)
    ensures Advances(db, PersistSuccess(db, owner, result).After(db))
  {
    var outcome := PersistSuccess(db, owner, result);
    if outcome.Committed? {
      PersistSuccessShape(db, owner, result);
      FinishedAdvances(db, outcome.db, db.attempts[owner].eventId, owner, EventProcessed);
    }
  }

  lemma FailureAdvances(db: Db, owner: Token)
    requires ProtocolOk(db) && IsRunning(db, owner)
    ensures Advances(db, PersistFailure(db, owner).After(db))
  {
    var outcome := PersistFailure(db, owner);
    if outcome.Committed? {
      assert ActiveVersionOk(db.sessions, db.attempts[owner].sessionId, db.versions);
      PersistFailureShape(db, owner);
      FinishedAdvances(db, outcome.db, db.attempts[owner].eventId, owner, EventFailed);
    }
  }

  /** The API only adds events, and leaves the workers' tables alone. */
  predicate OnlyAddsEvents(db: Db, after: Db) {
    && after.leases == db.leases && after.attempts == db.attempts && after.clock == db.clock
    && db.events <= after.events
  }

  lemma CreateOnlyAdds(db: Db, user: nat, lockFree: bool)
    ensures OnlyAddsEvents(db, CreateGeneration(db, user, lockFree).After(db))
  {
  }

  lemma OutlineReviewOnlyAdds(db: Db, user: nat, s: nat, outline: string)
    ensures OnlyAddsEvents(db, SubmitOutlineReview(db, user, s, outline).After(db))
  {
  }

  lemma FinalReviewOnlyAdds(db: Db, user: nat, s: nat, action: ReviewAction)
    ensures OnlyAddsEvents(db, SubmitFinalReview(db, user, s, action).After(db))
  {
  }

  lemma AddedAdvances(db: Db, after: Db)
    requires OnlyAddsEvents(db, after)
    ensures Advances(db, after)
  {
  }

  lemma ReaperAdvances(db: Db, skipped: set<nat>)
    ensures Advances(db, FailExhaustedClaims(db, skipped))
  {
  }

  /** Every step only advances rows. */
  lemma StepAdvances(db: Db, step: Step)
    requires ProtocolOk(db)
    ensures Advances(db, Next(db, step))
  {
    match step
    case Create(user, lockFree) =>
      CreateOnlyAdds(db, user, lockFree);
      AddedAdvances(db, Next(db, step));
    case ReviewOutline(user, session, outline) =>
      OutlineReviewOnlyAdds(db, user, session, outline);
      AddedAdvances(db, Next(db, step));
    case ReviewFinal(user, session, action) =>
      FinalReviewOnlyAdds(db, user, session, action);
      AddedAdvances(db, Next(db, step));
    case ClaimDelivery(event, owner) => ClaimAdvances(db, event, owner);
    case AcquireSession(owner) => AcquireAdvances(db, owner);
    case SaveSuccess(owner, result) => if IsRunning(db, owner) { SuccessAdvances(db, owner, result); }
    case SaveFailure(owner) => if IsRunning(db, owner) { FailureAdvances(db, owner); }
    case RetryLater(owner) => if IsRunning(db, owner) { RetryAdvances(db, owner); }
    case ReapExhausted(skipped) => ReaperAdvances(db, skipped);
    case CompleteStale(owner) => ClaimStepAdvances(db, step, owner);
    case RetryLocked(owner) => ClaimStepAdvances(db, step, owner);
    case BeatOnce(owner) => BeatAdvances(db, owner);
    case _ => SmallStepAdvances(db, step);
  }

  lemma ClaimStepAdvances(db: Db, step: Step, owner: Token)
    requires step == CompleteStale(owner) || step == RetryLocked(owner)
    ensures Advances(db, Next(db, step))
  {
  }

  lemma BeatAdvances(db: Db, owner: Token)
    ensures Advances(db, Beat(db, owner))
  {
  }

  lemma SmallStepAdvances(db: Db, step: Step)
    requires step.Tick? || step.GrantBudget? || step.Dispatched? || step.ReleaseSession?
    ensures Advances(db, Next(db, step))
  {
  }

  // ------------------------------------------------------------------------- fencing

  /** The event's claim is no longer this attempt's. */
  predicate ClaimLost(db: Db, owner: Token) {
    && owner in db.attempts && db.attempts[owner].eventId < |db.events|
    && db.events[db.attempts[owner].eventId].lockedBy != Some(owner)
  }

  /** The attempt's lease row has ended. */
  predicate LeaseLost(db: Db, owner: Token) {
    owner in db.attempts && Leases.LeaseEnded(db.leases, owner)
  }

  lemma LostStaysLost(db: Db, after: Db, owner: Token)
    requires Advances(db, after)
    ensures ClaimLost(db, owner) ==> ClaimLost(after, owner)
    ensures LeaseLost(db, owner) ==> LeaseLost(after, owner)
  {
  }

  /** Everything an attempt can do to its event. */
  predicate ActsOnClaim(step: Step, owner: Token) {
    || (step.SaveSuccess? && step.owner == owner)
    || step == SaveFailure(owner)
    || step == RetryLater(owner)
    || step == BeatOnce(owner)
    || step == CompleteStale(owner)
    || step == RetryLocked(owner)
  }

  /** Everything an attempt can do under its lease. */
  predicate ActsUnderLease(step: Step, owner: Token) {
    || (step.SaveSuccess? && step.owner == owner)
    || step == SaveFailure(owner)
    || step == BeatOnce(owner)
    || step == ReleaseSession(owner)
  }

  lemma LostClaimWritesNothing(db: Db, owner: Token, step: Step)
    requires ClaimLost(db, owner) && ActsOnClaim(step, owner)
    ensures Next(db, step) == db
  {
  }

  lemma LostLeaseWritesNothing(db: Db, owner: Token, step: Step)
    requires ProtocolOk(db) && LeaseLost(db, owner) && ActsUnderLease(step, owner)
    ensures Next(db, step) == db
  {
    if IsRunning(db, owner) {
      var a := db.attempts[owner];
      Leases.EndedHoldsNothing(db.leases, db.attempts, a.sessionId, owner, a.stage.leaseVersion);
    }
  }

  /** Fencing is permanent.  Once an attempt has lost its claim, it fails the claim check
      in every later state and nothing it does through the claim changes anything; once its
      lease has ended, the same holds of the lease check and of everything under the lease. */
  lemma {:induction false} FencedForever(db: Db, steps: seq<Step>, owner: Token, step: Step)
    requires ProtocolOk(db)
    ensures ProtocolOk(Run(db, steps))
    ensures ClaimLost(db, owner) ==>
              var later := Run(db, steps);
              && ClaimLost(later, owner)
              && !Outbox.CurrentClaim(later.events, later.attempts[owner].eventId, owner, later.clock)
              && (ActsOnClaim(step, owner) ==> Next(later, step) == later)
    ensures LeaseLost(db, owner) ==>
              var later := Run(db, steps);
              && LeaseLost(later, owner)
              && (forall version :: !Leases.CurrentLease(later.leases, later.attempts[owner].sessionId, owner, version, later.clock))
              && (ActsUnderLease(step, owner) ==> Next(later, step) == later)
  {
    var later := Run(db, steps);
    if steps != [] {
      var before := Run(db, steps[..|steps| - 1]);
      FencedForever(db, steps[..|steps| - 1], owner, step);
      StepAdvances(before, steps[|steps| - 1]);
      LostStaysLost(before, later, owner);
      Reachable.NextKeepsProtocol(before, steps[|steps| - 1]);
    }
    if ClaimLost(later, owner) && ActsOnClaim(step, owner) {
      LostClaimWritesNothing(later, owner, step);
    }
    if LeaseLost(later, owner) {
      forall version ensures !Leases.Holds(later.leases, later.attempts[owner].sessionId, owner, version) {
        Leases.EndedHoldsNothing(later.leases, later.attempts, later.attempts[owner].sessionId, owner, version);
      }
      if ActsUnderLease(step, owner) {
        LostLeaseWritesNothing(later, owner, step);
      }
    }
  }

  // ------------------------------------------------------------- at most one result

  /** The step commits a result for the event. */
  predicate CommitsResult(db: Db, step: Step, event: nat) {
    match step
    case SaveSuccess(owner, result) =>
      IsRunning(db, owner) && db.attempts[owner].eventId == event && PersistSuccess(db, owner, result).Committed?
    case SaveFailure(owner) =>
      IsRunning(db, owner) && db.attempts[owner].eventId == event && PersistFailure(db, owner).Committed?
    case _ => false
  }

  /** A result needs the claim, the PROCESSING session and the live lease of the attempt
      that brings it; and it ends the event for good. */
  lemma ResultNeedsOwnership(db: Db, step: Step, event: nat)
    requires ProtocolOk(db) && CommitsResult(db, step, event)
    ensures OwnsAttempt(db, step.owner)
    ensures event < |db.events| && Outbox.Active(db.events[event])
    ensures event < |Next(db, step).events| && !Outbox.Active(Next(db, step).events[event])
  {
    var owner := step.owner;
    OwnerIsTheSessions(db, owner);
    assert ActiveVersionOk(db.sessions, db.attempts[owner].sessionId, db.versions);
    if step.SaveSuccess? {
      PersistSuccessShape(db, owner, step.result);
    } else {
      PersistFailureShape(db, owner);
    }
  }

  lemma {:induction false} EndedStaysEnded(db: Db, steps: seq<Step>, event: nat)
    requires ProtocolOk(db) && event < |db.events| && !Outbox.Active(db.events[event])
    ensures ProtocolOk(Run(db, steps))
    ensures event < |Run(db, steps).events| && Run(db, steps).events[event] == db.events[event]
  {
    if steps != [] {
      var before := Run(db, steps[..|steps| - 1]);
      EndedStaysEnded(db, steps[..|steps| - 1], event);
      StepAdvances(before, steps[|steps| - 1]);
      assert EventAdvances(before.events[event], Run(db, steps).events[event], before.attempts, before.clock);
      Reachable.NextKeepsProtocol(before, steps[|steps| - 1]);
    }
  }

  lemma {:induction false} RunAppend(db: Db, first: seq<Step>, second: seq<Step>)
    ensures Run(db, first + second) == Run(Run(db, first), second)
  {
    if second == [] {
      assert first + second == first;
    } else {
      var last := |second| - 1;
      RunAppend(db, first, second[..last]);
      assert (first + second)[..|first + second| - 1] == first + second[..last];
    }
  }

  lemma RunOne(db: Db, x: Step)
    ensures Run(db, [x]) == Next(db, x)
  {
  }

  lemma RunThen(db: Db, steps: seq<Step>, x: Step)
    ensures Run(db, steps + [x]) == Next(Run(db, steps), x)
  {
  }

  lemma RunSplit(db: Db, steps: seq<Step>, i: nat, j: nat)
    requires i < j <= |steps|
    ensures Run(db, steps[..j]) == Run(Next(Run(db, steps[..i]), steps[i]), steps[i + 1..j])
  {
    assert steps[..i + 1][..i] == steps[..i];
    assert steps[..j] == steps[..i + 1] + steps[i + 1..j];
    RunAppend(db, steps[..i + 1], steps[i + 1..j]);
  }

  /** An event whose result a step has committed is over in every later state. */
  lemma OverAfterResult(db: Db, step: Step, rest: seq<Step>, event: nat)
    requires ProtocolOk(db) && CommitsResult(db, step, event)
    ensures var later := Run(Next(db, step), rest);
            event < |later.events| && !Outbox.Active(later.events[event])
  {
    ResultNeedsOwnership(db, step, event);
    Reachable.NextKeepsProtocol(db, step);
    EndedStaysEnded(Next(db, step), rest, event);
  }

  lemma ReachableProtocol(steps: seq<Step>)
    ensures ProtocolOk(Run(EMPTY, steps))
  {
    Reachable.ReachableIsOk(steps);
  }

  /** At most one attempt ever commits a result for an event, whatever claims, expiries,
      duplicate deliveries and stalled workers come in between. */
  lemma AtMostOneResult(steps: seq<Step>, i: nat, j: nat, event: nat)
    requires i < j < |steps|
    requires CommitsResult(Run(EMPTY, steps[..i]), steps[i], event)
    ensures !CommitsResult(Run(EMPTY, steps[..j]), steps[j], event)
  {
    ReachableProtocol(steps[..i]);
    OverAfterResult(Run(EMPTY, steps[..i]), steps[i], steps[i + 1..j], event);
    RunSplit(EMPTY, steps, i, j);
    OverHasNoResult(Run(EMPTY, steps[..j]), steps[j], event);
  }

  lemma OverHasNoResult(db: Db, step: Step, event: nat)
    requires event < |db.events| && !Outbox.Active(db.events[event])
    ensures !CommitsResult(db, step, event)
  {
  }
}
