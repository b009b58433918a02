/** When recovery works, and two reachable situations in which it does not. */
module Recovery {
  import opened Rows
  import opened Tables
  import opened Workflow
  import opened Invariant
  import opened Protocol
  import opened Transactions
  import opened Fencing
  import opened Coherence
  import Reachable
  import Histories
  import Outbox
  import Leases
  import Lifecycle
  import Budget
  import Charging

  // ------------------------------------------------------- when an acquisition succeeds

  /** A claimed attempt acquires its session exactly when the session wants the job and
      either is QUEUED with no open lease, or has an open lease that has expired.  The
      content checks of the validator never stand in the way. */
  lemma AcquiresExactly(db: Db, owner: Token)
    requires ProtocolOk(db)
    requires owner in db.attempts && db.attempts[owner].stage == Claimed
    requires db.attempts[owner].eventId < |db.events| && db.events[db.attempts[owner].eventId].lockedBy == Some(owner)
    ensures var a := db.attempts[owner];
            var current := Leases.ActiveLease(db.leases, a.sessionId);
            WouldAcquire(db, owner) <==>
              && WantsJob(db, a.sessionId, a.phase)
              && (if current.Some? then db.leases[current.value].expiresAt <= db.clock
                  else db.sessions[a.sessionId].status == Queued)
  {
    var a := db.attempts[owner];
    OwnerIsTheSessions(db, owner);
    OwnedIsActive(db, a.eventId, owner);
    assert ContentOk(db.events[a.eventId], db.sessions, db.versions);
    assert ActiveVersionOk(db.sessions, a.sessionId, db.versions);
    var current := Leases.ActiveLease(db.leases, a.sessionId);
    assert current.Some? ==> Leases.LeaseOk(db.leases[current.value], db.attempts);
  }

  // ---------------------------------------------------------------- stranded sessions

  /** PROCESSING without an open lease, and no attempt that acquired it owns its claim. */
  predicate Stranded(db: Db, s: nat) {
    && s < |db.sessions| && db.sessions[s].status == Processing
    && Leases.ActiveLease(db.leases, s).None?
    && forall t | t in db.attempts :: db.attempts[t].sessionId == s && db.attempts[t].stage.Running? ==> ClaimLost(db, t)
  }

  /** Rows of a session that the step does not move. */
  lemma StrandedKept(db: Db, after: Db, s: nat)
    requires ProtocolOk(db) && Stranded(db, s) && Advances(db, after)
    requires s < |after.sessions| && after.sessions[s].status == Processing
    requires |after.leases| > |db.leases| ==> |after.leases| == |db.leases| + 1 && after.leases[|db.leases|].sessionId != s
    requires forall t | t in after.attempts && after.attempts[t].sessionId == s && after.attempts[t].stage.Running? ::
               t in db.attempts && db.attempts[t].stage.Running?
    ensures Stranded(after, s)
  {
    forall i | 0 <= i < |after.leases| ensures !Leases.Open(after.leases[i], s) {
      if i < |db.leases| {
        assert LeaseAdvances(db.leases[i], after.leases[i]);
      }
    }
    forall t | t in after.attempts && after.attempts[t].sessionId == s && after.attempts[t].stage.Running?
      ensures ClaimLost(after, t)
    {
      assert AttemptAdvances(db.attempts[t], after.attempts[t]);
      LostStaysLost(db, after, t);
    }
  }

  /** The same, for steps that leave the attempts alone and insert no lease. */
  lemma StrandedUntouched(db: Db, after: Db, s: nat)
    requires ProtocolOk(db) && Stranded(db, s) && Advances(db, after)
    requires s < |after.sessions| && after.sessions[s].status == Processing
    requires |after.leases| == |db.leases| && after.attempts == db.attempts
    ensures Stranded(after, s)
  {
    StrandedKept(db, after, s);
  }

  lemma StrandedAcquire(db: Db, owner: Token, s: nat)
    requires ProtocolOk(db) && Stranded(db, s)
    ensures Stranded(Acquire(db, owner), s)
  {
    if WouldAcquire(db, owner) {
      AcquireAdvances(db, owner);
      StrandedNotAcquiredElsewhere(db, owner, s);
      StrandedKept(db, Acquire(db, owner), s);
    } else if owner in db.attempts && db.attempts[owner].stage == Claimed {
      AcquireStops(db, owner);
      StrandedStopped(db, owner, StopStage(db, owner), s);
    }
  }

  lemma StrandedStopped(db: Db, owner: Token, stage: Stage, s: nat)
    requires ProtocolOk(db) && Stranded(db, s)
    requires owner in db.attempts && db.attempts[owner].stage == Claimed && !stage.Running?
    ensures Stranded(SetStage(db, owner, stage), s)
  {
  }

  lemma StrandedNotAcquiredElsewhere(db: Db, owner: Token, s: nat)
    requires ProtocolOk(db) && Stranded(db, s) && WouldAcquire(db, owner)
    ensures db.attempts[owner].sessionId != s
    ensures var after := Acquire(db, owner);
            && s < |after.sessions| && after.sessions[s] == db.sessions[s]
            && |after.leases| == |db.leases| + 1 && after.leases[|db.leases|].sessionId == db.attempts[owner].sessionId
            && after.attempts == db.attempts[owner := after.attempts[owner]]
            && after.attempts[owner].sessionId == db.attempts[owner].sessionId
  {
    var a := db.attempts[owner];
    var acquired := AcquireLease(db, a.sessionId, a.phase, owner);
    AcquiredShape(db, owner, acquired.db, acquired.leaseVersion);
  }

  /** Saving an attempt of a stranded session fails. */
  lemma StrandedOwnsNothing(db: Db, owner: Token, s: nat)
    requires Stranded(db, s) && IsRunning(db, owner) && db.attempts[owner].sessionId == s
    ensures !OwnsAttempt(db, owner)
    ensures !Outbox.CurrentClaim(db.events, db.attempts[owner].eventId, owner, db.clock)
  {
  }

  lemma StrandedSuccess(db: Db, owner: Token, result: RunResult, s: nat)
    requires ProtocolOk(db) && Stranded(db, s) && IsRunning(db, owner)
    ensures Stranded(PersistSuccess(db, owner, result).After(db), s)
  {
    if PersistSuccess(db, owner, result).Committed? {
      PersistSuccessShape(db, owner, result);
      SuccessAdvances(db, owner, result);
      if db.attempts[owner].sessionId == s {
        StrandedOwnsNothing(db, owner, s);
      }
      StrandedUntouched(db, PersistSuccess(db, owner, result).db, s);
    }
  }

  lemma StrandedFailure(db: Db, owner: Token, s: nat)
    requires ProtocolOk(db) && Stranded(db, s) && IsRunning(db, owner)
    ensures Stranded(PersistFailure(db, owner).After(db), s)
  {
    if PersistFailure(db, owner).Committed? {
      assert ActiveVersionOk(db.sessions, db.attempts[owner].sessionId, db.versions);
      PersistFailureShape(db, owner);
      FailureAdvances(db, owner);
      if db.attempts[owner].sessionId == s {
        StrandedOwnsNothing(db, owner, s);
      }
      StrandedUntouched(db, PersistFailure(db, owner).db, s);
    }
  }

  lemma StrandedRetry(db: Db, owner: Token, s: nat)
    requires ProtocolOk(db) && Stranded(db, s) && IsRunning(db, owner)
    ensures Stranded(ScheduleRetry(db, owner).After(db), s)
  {
    RetryAdvances(db, owner);
    ScheduleRetryShape(db, owner);
    if db.attempts[owner].sessionId == s {
      StrandedOwnsNothing(db, owner, s);
    }
    StrandedUntouched(db, ScheduleRetry(db, owner).After(db), s);
  }

  lemma StrandedApi(db: Db, step: Step, s: nat)
    requires ProtocolOk(db) && Stranded(db, s)
    requires step.Create? || step.ReviewOutline? || step.ReviewFinal?
    ensures Stranded(Next(db, step), s)
  {
    StepAdvances(db, step);
    Histories.LifecycleSafety(db, step, s);
    match step
    case Create(user, lockFree) =>
      CreateOnlyAdds(db, user, lockFree);
      Histories.CreateMoves(db, user, lockFree, s);
      StrandedUntouched(db, Next(db, step), s);
    case ReviewOutline(user, session, outline) =>
      OutlineReviewOnlyAdds(db, user, session, outline);
      Histories.OutlineReviewMoves(db, user, session, outline, s);
      StrandedUntouched(db, Next(db, step), s);
    case ReviewFinal(user, session, action) =>
      FinalReviewOnlyAdds(db, user, session, action);
      Histories.FinalReviewMoves(db, user, session, action, s);
      StrandedUntouched(db, Next(db, step), s);
  }

  lemma StrandedClaim(db: Db, event: nat, owner: Token, s: nat)
    requires ProtocolOk(db) && Stranded(db, s)
    ensures Stranded(Claim(db, event, owner), s)
  {
    ClaimAdvances(db, event, owner);
    StrandedKept(db, Claim(db, event, owner), s);
  }

  /** The steps that move no session, start no attempt and insert no lease. */
  lemma QuietShape(db: Db, step: Step)
    requires step.Tick? || step.GrantBudget? || step.Dispatched? || step.CompleteStale?
          || step.RetryLocked? || step.BeatOnce? || step.ReleaseSession?
    ensures var after := Next(db, step);
            after.sessions == db.sessions && after.attempts == db.attempts && |after.leases| == |db.leases|
  {
    match step
    case CompleteStale(owner) => assert CompleteObsolete(db, owner).leases == db.leases;
    case RetryLocked(owner) => assert RetryBlocked(db, owner).leases == db.leases;
    case BeatOnce(owner) => assert |Beat(db, owner).leases| == |db.leases|;
    case ReleaseSession(owner) =>
    case _ =>
  }

  lemma StrandedQuiet(db: Db, step: Step, s: nat)
    requires ProtocolOk(db) && Stranded(db, s)
    requires step.Tick? || step.GrantBudget? || step.Dispatched? || step.CompleteStale?
          || step.RetryLocked? || step.BeatOnce? || step.ReleaseSession?
    ensures Stranded(Next(db, step), s)
  {
    StepAdvances(db, step);
    QuietShape(db, step);
    StrandedUntouched(db, Next(db, step), s);
  }

  lemma StrandedReaper(db: Db, skipped: set<nat>, s: nat)
    requires ProtocolOk(db) && Stranded(db, s)
    ensures var after := FailExhaustedClaims(db, skipped);
            Stranded(after, s) || (s < |after.sessions| && after.sessions[s].status == Failed)
  {
  }

  lemma StrandedStep(db: Db, step: Step, s: nat)
    requires ProtocolOk(db) && Stranded(db, s)
    ensures var after := Next(db, step);
            Stranded(after, s) || (step.ReapExhausted? && s < |after.sessions| && after.sessions[s].status == Failed)
  {
    match step
    case AcquireSession(owner) => StrandedAcquire(db, owner, s);
    case SaveSuccess(owner, result) => if IsRunning(db, owner) { StrandedSuccess(db, owner, result, s); }
    case SaveFailure(owner) => if IsRunning(db, owner) { StrandedFailure(db, owner, s); }
    case RetryLater(owner) => if IsRunning(db, owner) { StrandedRetry(db, owner, s); }
    case ClaimDelivery(event, owner) => StrandedClaim(db, event, owner, s);
    case Create(_, _) => StrandedApi(db, step, s);
    case ReviewOutline(_, _, _) => StrandedApi(db, step, s);
    case ReviewFinal(_, _, _) => StrandedApi(db, step, s);
    case ReapExhausted(skipped) => StrandedReaper(db, skipped, s);
    case _ => StrandedQuiet(db, step, s);
  }

  /** A stranded session is never acquired again: whatever happens, it stays stranded
      until the reaper fails it. */
  lemma {:induction false} StrandedNeverRecovers(db: Db, steps: seq<Step>, s: nat)
    requires ProtocolOk(db) && Stranded(db, s)
    ensures var later := Run(db, steps);
            && ProtocolOk(later)
            && s < |later.sessions|
            && (Stranded(later, s) || later.sessions[s].status == Failed)
  {
    if steps != [] {
      var before := Run(db, steps[..|steps| - 1]);
      var step := steps[|steps| - 1];
      StrandedNeverRecovers(db, steps[..|steps| - 1], s);
      Reachable.NextKeepsProtocol(before, step);
      Histories.LifecycleSafety(before, step, s);
      if Stranded(before, s) {
        StrandedStep(before, step, s);
      }
    }
  }

  // ----------------------------------------------------------------- orphaned sessions

  /** In progress, with no event left that could move it. */
  predicate Orphaned(db: Db, s: nat) {
    && s < |db.sessions| && db.sessions[s].status in {Queued, Processing}
    && Outbox.IndexAllows(db.events, s)
  }

  lemma OrphanedKept(db: Db, after: Db, s: nat)
    requires Orphaned(db, s) && Advances(db, after)
    requires s < |after.sessions| && after.sessions[s].status in {Queued, Processing}
    requires |after.events| > |db.events| ==>
               |after.events| == |db.events| + 1 && after.events[|db.events|].sessionId != s
    ensures Orphaned(after, s)
  {
  }

  lemma OrphanedCreate(db: Db, user: nat, lockFree: bool, s: nat)
    requires Orphaned(db, s)
    ensures Orphaned(CreateGeneration(db, user, lockFree).After(db), s)
  {
  }

  lemma OrphanedOutlineReview(db: Db, user: nat, session: nat, outline: string, s: nat)
    requires Orphaned(db, s)
    ensures Orphaned(SubmitOutlineReview(db, user, session, outline).After(db), s)
  {
  }

  lemma OrphanedFinalReview(db: Db, user: nat, session: nat, action: ReviewAction, s: nat)
    requires Orphaned(db, s)
    ensures Orphaned(SubmitFinalReview(db, user, session, action).After(db), s)
  {
    FinalReviewOnlyAdds(db, user, session, action);
    AddedAdvances(db, SubmitFinalReview(db, user, session, action).After(db));
    Histories.FinalReviewMoves(db, user, session, action, s);
    OrphanedKept(db, SubmitFinalReview(db, user, session, action).After(db), s);
  }

  lemma OrphanedResult(db: Db, step: Step, s: nat)
    requires ProtocolOk(db) && Orphaned(db, s)
    requires step.SaveSuccess? || step.SaveFailure? || step.RetryLater?
    ensures Orphaned(Next(db, step), s)
  {
    if Next(db, step) != db {
      StepAdvances(db, step);
      Histories.ResultRow(db, step);
      OrphanedKept(db, Next(db, step), s);
    }
  }

  lemma OrphanedAcquire(db: Db, owner: Token, s: nat)
    requires ProtocolOk(db) && Orphaned(db, s)
    ensures Orphaned(Acquire(db, owner), s)
  {
    AcquireAdvances(db, owner);
    if WouldAcquire(db, owner) {
      AcquiredTables(db, owner);
    }
    OrphanedKept(db, Acquire(db, owner), s);
  }

  lemma OrphanedReaper(db: Db, skipped: set<nat>, s: nat)
    requires ProtocolOk(db) && Orphaned(db, s)
    ensures Orphaned(FailExhaustedClaims(db, skipped), s)
  {
  }

  lemma OrphanedQuiet(db: Db, step: Step, s: nat)
    requires ProtocolOk(db) && Orphaned(db, s)
    requires step.Tick? || step.GrantBudget? || step.Dispatched? || step.ClaimDelivery? || step.CompleteStale?
          || step.RetryLocked? || step.BeatOnce? || step.ReleaseSession?
    ensures Orphaned(Next(db, step), s)
  {
    StepAdvances(db, step);
    OrphanedKept(db, Next(db, step), s);
  }

  lemma OrphanedStep(db: Db, step: Step, s: nat)
    requires ProtocolOk(db) && Orphaned(db, s)
    ensures Orphaned(Next(db, step), s)
  {
    match step
    case AcquireSession(owner) => OrphanedAcquire(db, owner, s);
    case SaveSuccess(_, _) => OrphanedResult(db, step, s);
    case SaveFailure(_) => OrphanedResult(db, step, s);
    case RetryLater(_) => OrphanedResult(db, step, s);
    case Create(user, lockFree) => OrphanedCreate(db, user, lockFree, s);
    case ReviewOutline(user, session, outline) => OrphanedOutlineReview(db, user, session, outline, s);
    case ReviewFinal(user, session, action) => OrphanedFinalReview(db, user, session, action, s);
    case ReapExhausted(skipped) => OrphanedReaper(db, skipped, s);
    case _ => OrphanedQuiet(db, step, s);
  }

  /** An orphaned session is lost for good, and so is its user: no later transaction ends
      it, and every later generation request of the user is refused. */
  lemma {:induction false} OrphanedForever(db: Db, steps: seq<Step>, s: nat, lockFree: bool)
    requires ProtocolOk(db) && Orphaned(db, s)
    ensures var later := Run(db, steps);
            && ProtocolOk(later)
            && Orphaned(later, s)
            && CreateGeneration(later, later.sessions[s].userId, lockFree) == RolledBack(ActiveGenerationExists)
  {
    var later := Run(db, steps);
    if steps != [] {
      var before := Run(db, steps[..|steps| - 1]);
      OrphanedForever(db, steps[..|steps| - 1], s, lockFree);
      OrphanedStep(before, steps[|steps| - 1], s);
      Reachable.NextKeepsProtocol(before, steps[|steps| - 1]);
    }
    assert later.sessions[s].status in Lifecycle.ACTIVE_STATES;
  }
}
