/** Coherence: a session in progress has an active event of its own job phase.  A step keeps
    it exactly when it is no acquisition by an attempt of another phase; the code checks
    that for QUEUED sessions only. */
module Coherence {
  import opened Rows
  import opened Tables
  import opened Workflow
  import opened Invariant
  import opened Protocol
  import opened Transactions
  import opened Fencing
  import Reachable
  import Accounting
  import Budget
  import Charging
  import Outbox
  import Leases
  import Lifecycle

  // ----------------------------------------------------------------------- coherence

  /** Some active event of the session has the phase. */
  predicate HasWork(events: seq<Event>, s: nat, phase: Option<Phase>) {
    exists i | 0 <= i < |events| ::
      Outbox.Active(events[i]) && events[i].sessionId == s && Some(events[i].phase) == phase
  }

  predicate SessionCoherent(row: Session, s: nat, events: seq<Event>) {
    && (row.status in {Queued, Processing} ==> HasWork(events, s, row.jobPhase))
    && (row.status == AwaitingOutlineReview ==> row.jobPhase == Some(FreshGeneration))
  }

  /** An attempt that saw an obsolete session has lost its claim. */
  predicate ObsoleteOk(a: Attempt, t: Token, events: seq<Event>) {
    a.stage == Obsolete && a.eventId < |events| ==> events[a.eventId].lockedBy != Some(t)
  }

  predicate Coherent(db: Db) {
    && (forall s | 0 <= s < |db.sessions| :: SessionCoherent(db.sessions[s], s, db.events))
    && (forall t | t in db.attempts :: ObsoleteOk(db.attempts[t], t, db.events))
  }

  /** Why a session needs its reservation: it is before its first final result, or the
      reaper failed it there. */
  predicate NeedsReservation(row: Session, version: Status) {
    && (row.jobPhase == Some(FreshGeneration) || row.jobPhase == Some(ResearchPhase))
    && (row.status in {Queued, Processing, AwaitingOutlineReview} || Exhausted(row.status, version))
  }

  predicate ReservationExact(db: Db, s: nat)
    requires s < |db.sessions|
  {
    var active := ActiveVersion(db, s);
    active.Some? && (Budget.OpenReservation(db.reservations, s)
                     <==> NeedsReservation(db.sessions[s], db.versions[active.value].status))
  }

  predicate ReservationsExact(db: Db) {
    forall s | 0 <= s < |db.sessions| :: ReservationExact(db, s)
  }

  /** The guard: an attempt acquires only a session whose job phase is its own. */
  predicate SamePhase(db: Db, step: Step) {
    step.AcquireSession? && WouldAcquire(db, step.owner) ==>
      db.sessions[db.attempts[step.owner].sessionId].jobPhase == Some(db.attempts[step.owner].phase)
  }

  // ---------------------------------------------------------------- frames for steps

  /** Work is only taken away from the sessions in `ended`. */
  predicate WorkKept(db: Db, after: Db, ended: set<nat>) {
    && |db.events| <= |after.events|
    && forall i | 0 <= i < |db.events| ::
         && after.events[i].sessionId == db.events[i].sessionId && after.events[i].phase == db.events[i].phase
         && (Outbox.Active(db.events[i]) && db.events[i].sessionId !in ended ==> Outbox.Active(after.events[i]))
  }

  lemma WorkStays(db: Db, after: Db, ended: set<nat>, s: nat, phase: Option<Phase>)
    requires WorkKept(db, after, ended) && s !in ended && HasWork(db.events, s, phase)
    ensures HasWork(after.events, s, phase)
  {
  }

  /** A row kept its status and phase, or fits its events anew. */
  predicate RowsFit(db: Db, after: Db, ended: set<nat>) {
    && |db.sessions| <= |after.sessions|
    && forall s | 0 <= s < |after.sessions| ::
         || SessionCoherent(after.sessions[s], s, after.events)
         || (s < |db.sessions| && s !in ended
             && after.sessions[s].status == db.sessions[s].status
             && after.sessions[s].jobPhase == db.sessions[s].jobPhase)
  }

  lemma FitsCoherent(db: Db, after: Db, ended: set<nat>)
    requires Coherent(db) && Advances(db, after) && WorkKept(db, after, ended) && RowsFit(db, after, ended)
    requires forall t | t in db.attempts :: db.attempts[t].eventId < |db.events|
    requires forall t | t in after.attempts && after.attempts[t].stage == Obsolete ::
               t in db.attempts && db.attempts[t].stage == Obsolete
    ensures Coherent(after)
  {
  }

  // ------------------------------------------------------- every guarded step is coherent

  /** In a coherent state the phase of an active event is its session's. */
  lemma ActiveMatches(db: Db, id: nat)
    requires ProtocolOk(db) && Coherent(db)
    requires id < |db.events| && Outbox.Active(db.events[id])
    ensures db.events[id].sessionId < |db.sessions|
    ensures db.sessions[db.events[id].sessionId].jobPhase == Some(db.events[id].phase)
  {
  }

  /** A claimed event is active. */
  lemma OwnedIsActive(db: Db, id: nat, owner: Token)
    requires ProtocolOk(db) && id < |db.events| && db.events[id].lockedBy == Some(owner)
    ensures db.events[id].status == EventProcessing
  {
  }

  lemma AttemptsInRange(db: Db)
    requires ProtocolOk(db)
    ensures forall t | t in db.attempts :: db.attempts[t].eventId < |db.events|
  {
  }

  /** Steps that leave the sessions alone. */
  lemma QuietStepCoherent(db: Db, after: Db)
    requires ProtocolOk(db) && Coherent(db) && Advances(db, after)
    requires after.sessions == db.sessions && WorkKept(db, after, {})
    requires forall t | t in after.attempts && after.attempts[t].stage == Obsolete ::
               t in db.attempts && db.attempts[t].stage == Obsolete
    ensures Coherent(after)
  {
  }

  /** Steps that rewrite one active event to another active one, at most. */
  lemma OneEventCoherent(db: Db, after: Db, id: nat, e: Event)
    requires ProtocolOk(db) && Coherent(db) && Advances(db, after)
    requires after.sessions == db.sessions
    requires id < |db.events| && after.events == db.events[id := e] && Outbox.Active(e)
    requires forall t | t in after.attempts && after.attempts[t].stage == Obsolete ::
               t in db.attempts && db.attempts[t].stage == Obsolete
    ensures Coherent(after)
  {
    assert EventAdvances(db.events[id], after.events[id], db.attempts, db.clock);
    QuietStepCoherent(db, after);
  }

  lemma ClaimCoherent(db: Db, event: nat, owner: Token)
    requires ProtocolOk(db) && Coherent(db)
    ensures Coherent(Claim(db, event, owner))
  {
    var after := Claim(db, event, owner);
    if after != db {
      ClaimAdvances(db, event, owner);
      OneEventCoherent(db, after, event, after.events[event]);
    }
  }

  lemma QuietCoherent(db: Db, step: Step)
    requires ProtocolOk(db) && Coherent(db)
    requires step.Tick? || step.GrantBudget? || step.Dispatched? || step.ReleaseSession?
    ensures Coherent(Next(db, step))
  {
    SmallStepAdvances(db, step);
    QuietKeepsWork(db, step);
    QuietStepCoherent(db, Next(db, step));
  }

  lemma QuietKeepsWork(db: Db, step: Step)
    requires step.Tick? || step.GrantBudget? || step.Dispatched? || step.ReleaseSession?
    ensures var after := Next(db, step);
            after.sessions == db.sessions && after.attempts == db.attempts && WorkKept(db, after, {})
  {
  }

  lemma BeatCoherent(db: Db, owner: Token)
    requires ProtocolOk(db) && Coherent(db)
    ensures Coherent(Beat(db, owner))
  {
    var after := Beat(db, owner);
    if after != db {
      BeatAdvances(db, owner);
      var id := db.attempts[owner].eventId;
      OneEventCoherent(db, after, id, after.events[id]);
    }
  }

  /** A blocked attempt gives the event back. */
  lemma RetryBlockedCoherent(db: Db, owner: Token)
    requires ProtocolOk(db) && Coherent(db)
    ensures Coherent(RetryBlocked(db, owner))
  {
    if owner in db.attempts && db.attempts[owner].stage == Blocked {
      var id := db.attempts[owner].eventId;
      var events := Outbox.Retry(db.events, db.clock, id, owner);
      if events.Some? {
        RetriedEventAdvances(db, id, owner);
        OneEventCoherent(db, db.(events := events.value), id, events.value[id]);
      }
    }
  }

  lemma RetriedEventAdvances(db: Db, id: nat, owner: Token)
    requires Outbox.Retry(db.events, db.clock, id, owner).Some?
    ensures Advances(db, db.(events := Outbox.Retry(db.events, db.clock, id, owner).value))
  {
  }

  /** An obsolete attempt has nothing left to complete. */
  lemma CompletesNothing(db: Db, owner: Token)
    requires Coherent(db)
    ensures CompleteObsolete(db, owner) == db
  {
  }

  lemma StoppedCoherent(db: Db, owner: Token, stage: Stage)
    requires ProtocolOk(db) && Coherent(db)
    requires owner in db.attempts && db.attempts[owner].stage == Claimed
    requires stage == Obsolete ==> !WantsJob(db, db.attempts[owner].sessionId, db.attempts[owner].phase)
    ensures Coherent(SetStage(db, owner, stage))
  {
  }

  /** A successful acquisition keeps coherence exactly when the attempt's phase is the
      session's: the guard the code applies to QUEUED sessions only. */
  lemma AcquisitionCoherentExactly(db: Db, owner: Token)
    requires ProtocolOk(db) && Coherent(db) && WouldAcquire(db, owner)
    ensures Coherent(Acquire(db, owner))
       <==> db.sessions[db.attempts[owner].sessionId].jobPhase == Some(db.attempts[owner].phase)
  {
    var a := db.attempts[owner];
    var s := a.sessionId;
    var after := Acquire(db, owner);
    AcquiredTables(db, owner);
    assert SessionCoherent(db.sessions[s], s, db.events);
    if db.sessions[s].jobPhase == Some(a.phase) {
      GuardedAcquireCoherent(db, owner);
    } else {
      var i :| 0 <= i < |db.events| && Outbox.Active(db.events[i]) && db.events[i].sessionId == s
               && Some(db.events[i].phase) == db.sessions[s].jobPhase;
      NoOtherWork(db, i, Some(a.phase));
      assert !SessionCoherent(after.sessions[s], s, after.events);
    }
  }

  lemma NoOtherWork(db: Db, id: nat, phase: Option<Phase>)
    requires Outbox.OneActivePerSession(db.events)
    requires id < |db.events| && Outbox.Active(db.events[id]) && Some(db.events[id].phase) != phase
    ensures !HasWork(db.events, db.events[id].sessionId, phase)
  {
  }

  lemma GuardedAcquireCoherent(db: Db, owner: Token)
    requires ProtocolOk(db) && Coherent(db) && WouldAcquire(db, owner)
    requires db.sessions[db.attempts[owner].sessionId].jobPhase == Some(db.attempts[owner].phase)
    ensures Coherent(Acquire(db, owner))
  {
    var after := Acquire(db, owner);
    AcquiredTables(db, owner);
    forall z | 0 <= z < |after.sessions| ensures SessionCoherent(after.sessions[z], z, after.events) {
      assert SessionCoherent(db.sessions[z], z, db.events);
    }
    forall t | t in after.attempts ensures ObsoleteOk(after.attempts[t], t, after.events) {
      if after.attempts[t].stage == Obsolete {
        assert ObsoleteOk(db.attempts[t], t, db.events);
      }
    }
  }

  lemma AcquireCoherent(db: Db, owner: Token)
    requires ProtocolOk(db) && Coherent(db) && SamePhase(db, AcquireSession(owner))
    ensures Coherent(Acquire(db, owner))
  {
    if WouldAcquire(db, owner) {
      GuardedAcquireCoherent(db, owner);
    } else if owner in db.attempts && db.attempts[owner].stage == Claimed {
      AcquireStops(db, owner);
      StoppedCoherent(db, owner, StopStage(db, owner));
    }
  }

  /** A committed result ends the session's work and leaves a row that asks for none. */
  lemma ResultCoherent(db: Db, after: Db, owner: Token, ended: EventStatus)
    requires ProtocolOk(db) && Coherent(db) && IsRunning(db, owner) && OwnsAttempt(db, owner)
    requires ended == EventProcessed || ended == EventFailed
    requires ResultShape(db, after, owner, ended)
    requires SessionCoherent(after.sessions[db.attempts[owner].sessionId], db.attempts[owner].sessionId, after.events)
    ensures Coherent(after)
  {
    FinishedAdvances(db, after, db.attempts[owner].eventId, owner, ended);
    AttemptsInRange(db);
    assert Outbox.AttemptOk(db.attempts[owner], db.events);
    FitsCoherent(db, after, {db.attempts[owner].sessionId});
  }

  lemma SuccessCoherent(db: Db, owner: Token, result: RunResult)
    requires ProtocolOk(db) && Coherent(db) && IsRunning(db, owner)
    ensures Coherent(PersistSuccess(db, owner, result).After(db))
  {
    if PersistSuccess(db, owner, result).Committed? {
      PersistSuccessShape(db, owner, result);
      var a := db.attempts[owner];
      assert Outbox.AttemptOk(a, db.events);
      ActiveMatches(db, a.eventId);
      ResultCoherent(db, PersistSuccess(db, owner, result).db, owner, EventProcessed);
    }
  }

  lemma FailureCoherent(db: Db, owner: Token)
    requires ProtocolOk(db) && Coherent(db) && IsRunning(db, owner)
    ensures Coherent(PersistFailure(db, owner).After(db))
  {
    if PersistFailure(db, owner).Committed? {
      assert ActiveVersionOk(db.sessions, db.attempts[owner].sessionId, db.versions);
      PersistFailureShape(db, owner);
      ResultCoherent(db, PersistFailure(db, owner).db, owner, EventFailed);
    }
  }

  lemma RetryCoherent(db: Db, owner: Token)
    requires ProtocolOk(db) && Coherent(db) && IsRunning(db, owner)
    ensures Coherent(ScheduleRetry(db, owner).After(db))
  {
    if ScheduleRetry(db, owner).After(db) != db {
      RetryAdvances(db, owner);
      RetryKeepsWork(db, owner);
      RetriedSession(db, owner);
      FitsCoherent(db, ScheduleRetry(db, owner).After(db), {});
    }
  }

  lemma RetryKeepsWork(db: Db, owner: Token)
    requires ProtocolOk(db) && IsRunning(db, owner)
    ensures var after := ScheduleRetry(db, owner).After(db);
            && WorkKept(db, after, {})
            && after.attempts == db.attempts
            && forall t | t in db.attempts :: db.attempts[t].eventId < |db.events|
  {
    ScheduleRetryShape(db, owner);
    AttemptsInRange(db);
  }

  /** The retried session is QUEUED under the same phase, and its event is still active. */
  lemma RetriedSession(db: Db, owner: Token)
    requires ProtocolOk(db) && Coherent(db) && IsRunning(db, owner)
    requires ScheduleRetry(db, owner).After(db) != db && WorkKept(db, ScheduleRetry(db, owner).After(db), {})
    ensures RowsFit(db, ScheduleRetry(db, owner).After(db), {})
  {
    var after := ScheduleRetry(db, owner).After(db);
    var s := db.attempts[owner].sessionId;
    ScheduleRetryShape(db, owner);
    OwnerIsTheSessions(db, owner);
    assert SessionCoherent(db.sessions[s], s, db.events);
    WorkStays(db, after, {}, s, db.sessions[s].jobPhase);
  }

  /** The API adds the event its session waits for. */
  lemma AddedCoherent(db: Db, after: Db, s: nat)
    requires ProtocolOk(db) && Coherent(db) && OnlyAddsEvents(db, after)
    requires |db.sessions| <= |after.sessions| <= |db.sessions| + 1
    requires forall z | 0 <= z < |db.sessions| :: z != s ==> after.sessions[z] == db.sessions[z]
    requires |after.sessions| > |db.sessions| ==> s == |db.sessions|
    requires s < |after.sessions| ==> SessionCoherent(after.sessions[s], s, after.events)
    ensures Coherent(after)
  {
  }

  lemma NewWork(events: seq<Event>, after: seq<Event>, s: nat)
    requires |after| == |events| + 1 && Outbox.Active(after[|events|]) && after[|events|].sessionId == s
    ensures HasWork(after, s, Some(after[|events|].phase))
  {
  }

  lemma CreateCoherent(db: Db, user: nat, lockFree: bool)
    requires ProtocolOk(db) && Coherent(db)
    ensures Coherent(CreateGeneration(db, user, lockFree).After(db))
  {
    var outcome := CreateGeneration(db, user, lockFree);
    if outcome.Committed? {
      CreateOnlyAdds(db, user, lockFree);
      NewWork(db.events, outcome.db.events, |db.sessions|);
      AddedCoherent(db, outcome.db, |db.sessions|);
    }
  }

  lemma OutlineReviewCoherent(db: Db, user: nat, s: nat, outline: string)
    requires ProtocolOk(db) && Coherent(db)
    ensures Coherent(SubmitOutlineReview(db, user, s, outline).After(db))
  {
    var outcome := SubmitOutlineReview(db, user, s, outline);
    if outcome.Committed? {
      OutlineReviewOnlyAdds(db, user, s, outline);
      NewWork(db.events, outcome.db.events, s);
      AddedCoherent(db, outcome.db, s);
    }
  }

  lemma FinalReviewCoherent(db: Db, user: nat, s: nat, action: ReviewAction)
    requires ProtocolOk(db) && Coherent(db)
    ensures Coherent(SubmitFinalReview(db, user, s, action).After(db))
  {
    var outcome := SubmitFinalReview(db, user, s, action);
    if outcome.Committed? {
      FinalReviewOnlyAdds(db, user, s, action);
      if action == RequestRevision {
        NewWork(db.events, outcome.db.events, s);
      }
      AddedCoherent(db, outcome.db, s);
    }
  }

  lemma ReaperKeepsOtherWork(db: Db, skipped: set<nat>)
    ensures WorkKept(db, FailExhaustedClaims(db, skipped), Outbox.ExhaustedSessions(db.events, db.clock, skipped))
  {
  }

  lemma ReapedRow(db: Db, skipped: set<nat>, s: nat)
    requires s < |db.sessions|
    ensures FailExhaustedClaims(db, skipped).sessions[s]
         == if s in Outbox.ExhaustedSessions(db.events, db.clock, skipped)
               && db.sessions[s].status !in Lifecycle.TERMINAL_STATES
            then db.sessions[s].(status := Failed) else db.sessions[s]
  {
  }

  lemma DoomedIsInProgress(db: Db, skipped: set<nat>, s: nat)
    requires LinksOk(db.events, db.sessions) && s in Outbox.ExhaustedSessions(db.events, db.clock, skipped)
    ensures s < |db.sessions| && db.sessions[s].status in {Queued, Processing}
  {
  }

  /** The reaper fails the sessions of exhausted claims, and leaves the others alone. */
  lemma ReapedSession(db: Db, skipped: set<nat>, doomed: set<nat>, after: Db, s: nat)
    requires LinksOk(db.events, db.sessions) && s < |db.sessions|
    requires doomed == Outbox.ExhaustedSessions(db.events, db.clock, skipped)
    requires after == FailExhaustedClaims(db, skipped)
    ensures s < |after.sessions|
    ensures s in doomed ==> after.sessions[s].status == Failed
    ensures s !in doomed ==> after.sessions[s] == db.sessions[s]
  {
    ReapedRow(db, skipped, s);
    if s in doomed {
      DoomedIsInProgress(db, skipped, s);
    }
  }

  lemma ReapedRowsFit(db: Db, skipped: set<nat>)
    requires LinksOk(db.events, db.sessions)
    ensures RowsFit(db, FailExhaustedClaims(db, skipped), Outbox.ExhaustedSessions(db.events, db.clock, skipped))
  {
    var after := FailExhaustedClaims(db, skipped);
    var doomed := Outbox.ExhaustedSessions(db.events, db.clock, skipped);
    forall s: nat | s < |db.sessions|
      ensures if s in doomed then after.sessions[s].status == Failed else after.sessions[s] == db.sessions[s]
    {
      ReapedSession(db, skipped, doomed, after, s);
    }
  }

  lemma ReaperCoherent(db: Db, skipped: set<nat>)
    requires ProtocolOk(db) && Coherent(db)
    ensures Coherent(FailExhaustedClaims(db, skipped))
  {
    var after := FailExhaustedClaims(db, skipped);
    assert after.attempts == db.attempts;
    ReaperAdvances(db, skipped);
    AttemptsInRange(db);
    ReaperKeepsOtherWork(db, skipped);
    ReapedRowsFit(db, skipped);
    FitsCoherent(db, after, Outbox.ExhaustedSessions(db.events, db.clock, skipped));
  }

  lemma NextCoherent(db: Db, step: Step)
    requires ProtocolOk(db) && Coherent(db) && SamePhase(db, step)
    ensures Coherent(Next(db, step))
  {
    match step
    case Create(user, lockFree) => CreateCoherent(db, user, lockFree);
    case ReviewOutline(user, session, outline) => OutlineReviewCoherent(db, user, session, outline);
    case ReviewFinal(user, session, action) => FinalReviewCoherent(db, user, session, action);
    case ClaimDelivery(event, owner) => ClaimCoherent(db, event, owner);
    case AcquireSession(owner) => AcquireCoherent(db, owner);
    case CompleteStale(owner) => CompletesNothing(db, owner);
    case RetryLocked(owner) => RetryBlockedCoherent(db, owner);
    case BeatOnce(owner) => BeatCoherent(db, owner);
    case SaveSuccess(owner, result) => if IsRunning(db, owner) { SuccessCoherent(db, owner, result); }
    case SaveFailure(owner) => if IsRunning(db, owner) { FailureCoherent(db, owner); }
    case RetryLater(owner) => if IsRunning(db, owner) { RetryCoherent(db, owner); }
    case ReapExhausted(skipped) => ReaperCoherent(db, skipped);
    case _ => QuietCoherent(db, step);
  }

  /** A step keeps a coherent state coherent if and only if it is no acquisition by an
      attempt of another phase. */
  lemma StepCoherentExactly(db: Db, step: Step)
    requires ProtocolOk(db) && Coherent(db)
    ensures Coherent(Next(db, step)) <==> SamePhase(db, step)
  {
    if SamePhase(db, step) {
      NextCoherent(db, step);
    } else {
      AcquisitionCoherentExactly(db, step.owner);
    }
  }
}
