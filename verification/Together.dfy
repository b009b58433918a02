/** A session and its active version carry the same status; only the reaper parts them. */
module Together {
  import opened Rows
  import opened Tables
  import opened Workflow
  import opened Invariant
  import opened Protocol
  import opened Transactions
  import Reachable

  predicate SameStatus(db: Db, s: nat) {
    && s < |db.sessions| && ActiveVersion(db, s).Some?
    && db.versions[ActiveVersion(db, s).value].status == db.sessions[s].status
  }

  /** One session and its active version move together. */
  lemma PairMoves(db: Db, after: Db, z: nat, v: nat, s: nat)
    requires VersionsOk(db.sessions, db.versions) && SameStatus(db, s)
    requires z < |db.sessions| && v < |db.versions| && ActiveVersion(db, z) == Some(v)
    requires |after.sessions| == |db.sessions| && after.sessions == db.sessions[z := after.sessions[z]]
    requires |after.versions| == |db.versions| && after.versions == db.versions[v := after.versions[v]]
    requires after.sessions[z].activeVersion == db.sessions[z].activeVersion
    requires after.versions[v].status == after.sessions[z].status
    ensures SameStatus(after, s)
  {
    assert ActiveVersionOk(db.sessions, z, db.versions) && ActiveVersionOk(db.sessions, s, db.versions);
  }

  lemma NeitherMoves(db: Db, after: Db, s: nat)
    requires SameStatus(db, s) && after.sessions == db.sessions && after.versions == db.versions
    ensures SameStatus(after, s)
  {
  }

  lemma QuietTogether(db: Db, step: Step, s: nat)
    requires SameStatus(db, s)
    requires step.Tick? || step.GrantBudget? || step.Dispatched? || step.ClaimDelivery? || step.CompleteStale?
          || step.RetryLocked? || step.BeatOnce? || step.ReleaseSession?
    ensures SameStatus(Next(db, step), s)
  {
    NeitherMoves(db, Next(db, step), s);
  }

  lemma AcquireTogether(db: Db, owner: Token, s: nat)
    requires ProtocolOk(db) && SameStatus(db, s)
    ensures SameStatus(Acquire(db, owner), s)
  {
    if WouldAcquire(db, owner) {
      AcquiredTables(db, owner);
      var z := db.attempts[owner].sessionId;
      PairMoves(db, Acquire(db, owner), z, ActiveVersion(db, z).value, s);
    } else if owner in db.attempts && db.attempts[owner].stage == Claimed {
      AcquireStops(db, owner);
    }
  }

  lemma ResultTogether(db: Db, after: Db, owner: Token, ended: EventStatus, s: nat)
    requires ProtocolOk(db) && SameStatus(db, s) && IsRunning(db, owner) && OwnsAttempt(db, owner)
    requires ResultShape(db, after, owner, ended)
    ensures SameStatus(after, s)
  {
    var z := db.attempts[owner].sessionId;
    PairMoves(db, after, z, ActiveVersion(db, z).value, s);
  }

  lemma SuccessTogether(db: Db, owner: Token, result: RunResult, s: nat)
    requires ProtocolOk(db) && SameStatus(db, s) && IsRunning(db, owner)
    ensures SameStatus(PersistSuccess(db, owner, result).After(db), s)
  {
    if PersistSuccess(db, owner, result).Committed? {
      PersistSuccessShape(db, owner, result);
      ResultTogether(db, PersistSuccess(db, owner, result).db, owner, EventProcessed, s);
    }
  }

  lemma FailureTogether(db: Db, owner: Token, s: nat)
    requires ProtocolOk(db) && SameStatus(db, s) && IsRunning(db, owner)
    ensures SameStatus(PersistFailure(db, owner).After(db), s)
  {
    if PersistFailure(db, owner).Committed? {
      OwnerIsTheSessions(db, owner);
      assert ActiveVersionOk(db.sessions, db.attempts[owner].sessionId, db.versions);
      PersistFailureShape(db, owner);
      ResultTogether(db, PersistFailure(db, owner).db, owner, EventFailed, s);
    }
  }

  lemma RetryTogether(db: Db, owner: Token, s: nat)
    requires ProtocolOk(db) && SameStatus(db, s) && IsRunning(db, owner)
    ensures SameStatus(ScheduleRetry(db, owner).After(db), s)
  {
    ScheduleRetryShape(db, owner);
    OwnerIsTheSessions(db, owner);
    var after := ScheduleRetry(db, owner).After(db);
    if after != db {
      var z := db.attempts[owner].sessionId;
      PairMoves(db, after, z, ActiveVersion(db, z).value, s);
    }
  }

  lemma CreateTogether(db: Db, user: nat, lockFree: bool, s: nat)
    requires SameStatus(db, s)
    ensures SameStatus(CreateGeneration(db, user, lockFree).After(db), s)
  {
  }

  lemma OutlineReviewTogether(db: Db, user: nat, session: nat, outline: string, s: nat)
    requires ProtocolOk(db) && SameStatus(db, s)
    ensures SameStatus(SubmitOutlineReview(db, user, session, outline).After(db), s)
  {
    var outcome := SubmitOutlineReview(db, user, session, outline);
    if outcome.Committed? {
      PairMoves(db, outcome.db, session, ActiveVersion(db, session).value, s);
    }
  }

  lemma FinalReviewTogether(db: Db, user: nat, session: nat, action: ReviewAction, s: nat)
    requires ProtocolOk(db) && SameStatus(db, s)
    ensures SameStatus(SubmitFinalReview(db, user, session, action).After(db), s)
  {
    var outcome := SubmitFinalReview(db, user, session, action);
    if outcome.Committed? {
      assert ActiveVersionOk(db.sessions, session, db.versions);
      if action != RequestRevision {
        PairMoves(db, outcome.db, session, ActiveVersion(db, session).value, s);
      }
    }
  }

  /** A step that is not the reaper's never parts a session's status from its version's. */
  lemma OnlyReaperParts(db: Db, step: Step, s: nat)
    requires ProtocolOk(db) && SameStatus(db, s) && !step.ReapExhausted?
    ensures SameStatus(Next(db, step), s)
  {
    match step
    case AcquireSession(owner) => AcquireTogether(db, owner, s);
    case SaveSuccess(owner, result) => if IsRunning(db, owner) { SuccessTogether(db, owner, result, s); }
    case SaveFailure(owner) => if IsRunning(db, owner) { FailureTogether(db, owner, s); }
    case RetryLater(owner) => if IsRunning(db, owner) { RetryTogether(db, owner, s); }
    case Create(user, lockFree) => CreateTogether(db, user, lockFree, s);
    case ReviewOutline(user, session, outline) => OutlineReviewTogether(db, user, session, outline, s);
    case ReviewFinal(user, session, action) => FinalReviewTogether(db, user, session, action, s);
    case _ => QuietTogether(db, step, s);
  }

  /** In every run the active version's status is the session's, or the session is FAILED
      while its version still says QUEUED or PROCESSING. */
  lemma StatusesInEveryRun(steps: seq<Step>, s: nat)
    requires s < |Run(EMPTY, steps).sessions|
    ensures var db := Run(EMPTY, steps);
            && ActiveVersion(db, s).Some?
            && (SameStatus(db, s)
                || (db.sessions[s].status == Failed
                    && db.versions[ActiveVersion(db, s).value].status in {Queued, Processing}))
  {
    Reachable.ReachableIsOk(steps);
    var db := Run(EMPTY, steps);
    assert ActiveVersionOk(db.sessions, s, db.versions) && StatusOk(db.sessions, s, db.versions);
  }
}
