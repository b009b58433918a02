/** Whose phase a session carries.  In every run, guarded or not, a PROCESSING session with
    an open lease has the phase of the attempt that holds the lease, so a result is only
    ever saved for the phase its session is in. */
module Phases {
  import opened Rows
  import opened Tables
  import opened Workflow
  import opened Invariant
  import opened Protocol
  import opened Transactions
  import opened Fencing
  import opened Coherence
  import opened Recovery
  import Reachable
  import Histories
  import Outbox
  import Leases
  import Lifecycle

  /** The holder of an open lease gave its PROCESSING session its phase. */
  predicate HolderPhase(l: Lease, sessions: seq<Session>, attempts: map<Token, Attempt>) {
    && l.endedAt.None? && l.owner in attempts
    && l.sessionId < |sessions| && sessions[l.sessionId].status == Processing
    ==> sessions[l.sessionId].jobPhase == Some(attempts[l.owner].phase)
  }

  /** Work in progress has a phase, and an outline under review comes from the first one. */
  predicate RowPhase(row: Session) {
    && (row.status in {Queued, Processing} ==> row.jobPhase.Some?)
    && (row.status == AwaitingOutlineReview ==> row.jobPhase == Some(FreshGeneration))
  }

  predicate PhasesOk(db: Db) {
    && (forall i | 0 <= i < |db.leases| :: HolderPhase(db.leases[i], db.sessions, db.attempts))
    && (forall s | 0 <= s < |db.sessions| :: RowPhase(db.sessions[s]))
  }

  /** The attempt that owns its session carries the session's phase. */
  lemma OwnerHasPhase(db: Db, owner: Token)
    requires PhasesOk(db) && IsRunning(db, owner) && OwnsAttempt(db, owner)
    ensures db.sessions[db.attempts[owner].sessionId].jobPhase == Some(db.attempts[owner].phase)
  {
    var i := Leases.ActiveLease(db.leases, db.attempts[owner].sessionId).value;
    assert HolderPhase(db.leases[i], db.sessions, db.attempts);
  }

  // ----------------------------------------------------------------- every step keeps it

  /** No session enters PROCESSING, and rows keep a fitting phase. */
  predicate PhaseRowsKept(db: Db, after: Db) {
    && |db.sessions| <= |after.sessions|
    && forall s | 0 <= s < |after.sessions| ::
         && (after.sessions[s].status == Processing ==> s < |db.sessions| && after.sessions[s] == db.sessions[s])
         && (RowPhase(after.sessions[s]) || (s < |db.sessions| && after.sessions[s] == db.sessions[s]))
  }

  lemma PhasesKept(db: Db, after: Db)
    requires PhasesOk(db) && Leases.LeasesOk(db.leases, db.attempts)
    requires LeasesAdvance(db.leases, after.leases) && AttemptsAdvance(db.attempts, after.attempts)
    requires |after.leases| == |db.leases| && PhaseRowsKept(db, after)
    ensures PhasesOk(after)
  {
    forall i | 0 <= i < |after.leases| ensures HolderPhase(after.leases[i], after.sessions, after.attempts) {
      assert HolderPhase(db.leases[i], db.sessions, db.attempts) && LeaseAdvances(db.leases[i], after.leases[i]);
      assert Leases.LeaseOk(db.leases[i], db.attempts);
      assert AttemptAdvances(db.attempts[db.leases[i].owner], after.attempts[db.leases[i].owner]);
    }
    forall s | 0 <= s < |after.sessions| ensures RowPhase(after.sessions[s]) {
      assert s < |db.sessions| ==> RowPhase(db.sessions[s]);
    }
  }

  lemma QuietPhases(db: Db, step: Step)
    requires ProtocolOk(db) && PhasesOk(db)
    requires step.Tick? || step.GrantBudget? || step.Dispatched? || step.CompleteStale?
          || step.RetryLocked? || step.BeatOnce? || step.ReleaseSession?
    ensures PhasesOk(Next(db, step))
  {
    StepAdvances(db, step);
    QuietShape(db, step);
    PhasesKept(db, Next(db, step));
  }

  lemma ClaimPhases(db: Db, event: nat, owner: Token)
    requires ProtocolOk(db) && PhasesOk(db)
    ensures PhasesOk(Claim(db, event, owner))
  {
    ClaimAdvances(db, event, owner);
    PhasesKept(db, Claim(db, event, owner));
  }

  lemma AcquirePhases(db: Db, owner: Token)
    requires ProtocolOk(db) && PhasesOk(db)
    ensures PhasesOk(Acquire(db, owner))
  {
    AcquireKeeps(db, owner);
    AcquireAdvances(db, owner);
    if WouldAcquire(db, owner) {
      AcquiredRows(db, owner, Acquire(db, owner));
      AcquiredPhases(db, Acquire(db, owner), owner);
    } else if owner in db.attempts && db.attempts[owner].stage == Claimed {
      AcquireStops(db, owner);
      PhasesKept(db, SetStage(db, owner, StopStage(db, owner)));
    }
  }

  lemma AcquiredRows(db: Db, owner: Token, after: Db)
    requires ProtocolOk(db) && WouldAcquire(db, owner) && after == Acquire(db, owner)
    ensures var a := db.attempts[owner];
            && a.sessionId < |db.sessions|
            && (exists version: nat ::
                  after.leases == Leases.Insert(FreedLeases(db, a.sessionId), db.clock, a.sessionId, owner, version))
            && after.sessions == db.sessions[a.sessionId :=
                 db.sessions[a.sessionId].(status := Processing, jobPhase := Some(a.phase))]
  {
    var a := db.attempts[owner];
    var acquired := AcquireLease(db, a.sessionId, a.phase, owner);
    AcquiredShape(db, owner, acquired.db, acquired.leaseVersion);
  }

  /** A successful acquisition leaves its own lease as the only open one of the session. */
  lemma AcquiredPhases(db: Db, after: Db, owner: Token)
    requires PhasesOk(db) && Leases.LeasesOk(db.leases, db.attempts) && Leases.LeasesOk(after.leases, after.attempts)
    requires owner in db.attempts && db.attempts[owner].sessionId < |db.sessions|
    requires AttemptsAdvance(db.attempts, after.attempts)
    requires var a := db.attempts[owner];
             && (exists version: nat ::
                   after.leases == Leases.Insert(FreedLeases(db, a.sessionId), db.clock, a.sessionId, owner, version))
             && after.sessions == db.sessions[a.sessionId :=
                  db.sessions[a.sessionId].(status := Processing, jobPhase := Some(a.phase))]
    ensures PhasesOk(after)
  {
    var a := db.attempts[owner];
    var n := |after.leases| - 1;
    assert AttemptAdvances(a, after.attempts[owner]);
    forall i | 0 <= i < n ensures HolderPhase(after.leases[i], after.sessions, after.attempts) {
      assert HolderPhase(db.leases[i], db.sessions, db.attempts) && Leases.LeaseOk(db.leases[i], db.attempts);
      assert AttemptAdvances(db.attempts[db.leases[i].owner], after.attempts[db.leases[i].owner]);
    }
    forall s | 0 <= s < |after.sessions| ensures RowPhase(after.sessions[s]) {
      assert RowPhase(db.sessions[s]);
    }
  }

  /** A result takes its session out of PROCESSING. */
  lemma ResultPhases(db: Db, after: Db, owner: Token, ended: EventStatus)
    requires ProtocolOk(db) && PhasesOk(db) && IsRunning(db, owner) && OwnsAttempt(db, owner)
    requires ended == EventProcessed || ended == EventFailed
    requires ResultShape(db, after, owner, ended)
    requires var row := after.sessions[db.attempts[owner].sessionId]; RowPhase(row) && row.status != Processing
    ensures PhasesOk(after)
  {
    FinishedAdvances(db, after, db.attempts[owner].eventId, owner, ended);
    PhasesKept(db, after);
  }

  lemma SuccessPhases(db: Db, owner: Token, result: RunResult)
    requires ProtocolOk(db) && PhasesOk(db) && IsRunning(db, owner)
    ensures PhasesOk(PersistSuccess(db, owner, result).After(db))
  {
    if PersistSuccess(db, owner, result).Committed? {
      PersistSuccessShape(db, owner, result);
      OwnerHasPhase(db, owner);
      ResultPhases(db, PersistSuccess(db, owner, result).db, owner, EventProcessed);
    }
  }

  lemma FailurePhases(db: Db, owner: Token)
    requires ProtocolOk(db) && PhasesOk(db) && IsRunning(db, owner)
    ensures PhasesOk(PersistFailure(db, owner).After(db))
  {
    if PersistFailure(db, owner).Committed? {
      OwnerIsTheSessions(db, owner);
      assert ActiveVersionOk(db.sessions, db.attempts[owner].sessionId, db.versions);
      PersistFailureShape(db, owner);
      ResultPhases(db, PersistFailure(db, owner).db, owner, EventFailed);
    }
  }

  lemma RetryPhases(db: Db, owner: Token)
    requires ProtocolOk(db) && PhasesOk(db) && IsRunning(db, owner)
    ensures PhasesOk(ScheduleRetry(db, owner).After(db))
  {
    ScheduleRetryShape(db, owner);
    OwnerIsTheSessions(db, owner);
    RetryAdvances(db, owner);
    assert RowPhase(db.sessions[db.attempts[owner].sessionId]);
    PhasesKept(db, ScheduleRetry(db, owner).After(db));
  }

  lemma AddedPhases(db: Db, after: Db)
    requires ProtocolOk(db) && PhasesOk(db) && OnlyAddsEvents(db, after) && PhaseRowsKept(db, after)
    ensures PhasesOk(after)
  {
    AddedAdvances(db, after);
    PhasesKept(db, after);
  }

  lemma CreatePhases(db: Db, user: nat, lockFree: bool)
    requires ProtocolOk(db) && PhasesOk(db)
    ensures PhasesOk(CreateGeneration(db, user, lockFree).After(db))
  {
    CreateOnlyAdds(db, user, lockFree);
    AddedPhases(db, CreateGeneration(db, user, lockFree).After(db));
  }

  lemma OutlineReviewPhases(db: Db, user: nat, session: nat, outline: string)
    requires ProtocolOk(db) && PhasesOk(db)
    ensures PhasesOk(SubmitOutlineReview(db, user, session, outline).After(db))
  {
    OutlineReviewOnlyAdds(db, user, session, outline);
    AddedPhases(db, SubmitOutlineReview(db, user, session, outline).After(db));
  }

  lemma FinalReviewPhases(db: Db, user: nat, session: nat, action: ReviewAction)
    requires ProtocolOk(db) && PhasesOk(db)
    ensures PhasesOk(SubmitFinalReview(db, user, session, action).After(db))
  {
    FinalReviewOnlyAdds(db, user, session, action);
    FinalReviewRows(db, user, session, action);
    AddedPhases(db, SubmitFinalReview(db, user, session, action).After(db));
  }

  lemma FinalReviewRows(db: Db, user: nat, session: nat, action: ReviewAction)
    ensures PhaseRowsKept(db, SubmitFinalReview(db, user, session, action).After(db))
  {
  }

  lemma ReaperPhases(db: Db, skipped: set<nat>)
    requires ProtocolOk(db) && PhasesOk(db)
    ensures PhasesOk(FailExhaustedClaims(db, skipped))
  {
    ReaperAdvances(db, skipped);
    PhasesKept(db, FailExhaustedClaims(db, skipped));
  }

  lemma NextKeepsPhases(db: Db, step: Step)
    requires ProtocolOk(db) && PhasesOk(db)
    ensures PhasesOk(Next(db, step))
  {
    match step
    case ClaimDelivery(event, owner) => ClaimPhases(db, event, owner);
    case AcquireSession(owner) => AcquirePhases(db, owner);
    case SaveSuccess(owner, result) => if IsRunning(db, owner) { SuccessPhases(db, owner, result); }
    case SaveFailure(owner) => if IsRunning(db, owner) { FailurePhases(db, owner); }
    case RetryLater(owner) => if IsRunning(db, owner) { RetryPhases(db, owner); }
    case Create(user, lockFree) => CreatePhases(db, user, lockFree);
    case ReviewOutline(user, session, outline) => OutlineReviewPhases(db, user, session, outline);
    case ReviewFinal(user, session, action) => FinalReviewPhases(db, user, session, action);
    case ReapExhausted(skipped) => ReaperPhases(db, skipped);
    case _ => QuietPhases(db, step);
  }

  lemma {:induction false} PhasesInEveryRun(steps: seq<Step>)
    ensures ProtocolOk(Run(EMPTY, steps)) && PhasesOk(Run(EMPTY, steps))
  {
    ReachableProtocol(steps);
    if steps != [] {
      PhasesInEveryRun(steps[..|steps| - 1]);
      NextKeepsPhases(Run(EMPTY, steps[..|steps| - 1]), steps[|steps| - 1]);
    }
  }

  /** In every run, whatever attempt of an earlier phase has overwritten whose job phase, a
      result is only saved, and a failure only recorded, for the phase the session is in. */
  lemma ResultHasItsPhase(steps: seq<Step>, step: Step, event: nat)
    requires CommitsResult(Run(EMPTY, steps), step, event)
    ensures var db := Run(EMPTY, steps);
            var a := db.attempts[step.owner];
            a.sessionId < |db.sessions| && db.sessions[a.sessionId].jobPhase == Some(a.phase)
  {
    PhasesInEveryRun(steps);
    var db := Run(EMPTY, steps);
    ResultNeedsOwnership(db, step, event);
    OwnerHasPhase(db, step.owner);
  }
}
