/** When a session in progress loses its event: exactly when an attempt that found it
    obsolete completes an event it still owns.  No other step of any run does it. */
module Losses {
  import opened Rows
  import opened Tables
  import opened Workflow
  import opened Invariant
  import opened Protocol
  import opened Transactions
  import opened Fencing
  import opened Coherence
  import opened Recovery
  import Reachable
  import Histories
  import Outbox
  import Leases
  import Lifecycle

  // ------------------------------------------------------------------ the losing step

  /** An attempt that stopped as obsolete completes its event while it still owns it. */
  predicate LosesEvent(db: Db, step: Step, s: nat) {
    && step.CompleteStale?
    && step.owner in db.attempts && db.attempts[step.owner].stage == Obsolete
    && db.attempts[step.owner].sessionId == s
    && Outbox.Owned(db.events, db.attempts[step.owner].eventId, step.owner)
  }

  /** While it owns its claim, an attempt stops as obsolete exactly when it reads a QUEUED
      session of another job phase: the guard of `_acquire_lease`. */
  lemma ObsoleteExactly(db: Db, owner: Token)
    requires ProtocolOk(db) && owner in db.attempts && db.attempts[owner].stage == Claimed
    requires Outbox.Owned(db.events, db.attempts[owner].eventId, owner)
    ensures var a := db.attempts[owner];
            && a.sessionId < |db.sessions| && owner in Acquire(db, owner).attempts
            && (Acquire(db, owner).attempts[owner].stage == Obsolete
                <==> db.sessions[a.sessionId].status == Queued && db.sessions[a.sessionId].jobPhase != Some(a.phase))
  {
    OwnerIsTheSessions(db, owner);
    assert LinkOk(db.events[db.attempts[owner].eventId], db.sessions);
  }

  /** Some active event of the session. */
  predicate HasEvent(events: seq<Event>, s: nat) {
    exists i | 0 <= i < |events| :: Outbox.Active(events[i]) && events[i].sessionId == s
  }

  predicate InProgress(sessions: seq<Session>, s: nat) {
    s < |sessions| && sessions[s].status in {Queued, Processing}
  }

  lemma OrphanedMeans(db: Db, s: nat)
    ensures Orphaned(db, s) <==> InProgress(db.sessions, s) && !HasEvent(db.events, s)
  {
  }

  /** Events are still active, except those of the sessions in `ended`. */
  lemma EventStays(db: Db, after: Db, ended: set<nat>, s: nat)
    requires WorkKept(db, after, ended) && s !in ended && HasEvent(db.events, s)
    ensures HasEvent(after.events, s)
  {
    var i :| 0 <= i < |db.events| && Outbox.Active(db.events[i]) && db.events[i].sessionId == s;
    assert Outbox.Active(after.events[i]) && after.events[i].sessionId == s;
  }

  /** A session that was in progress before keeps its event, or is over. */
  lemma StillHasEvent(db: Db, after: Db, ended: set<nat>, s: nat)
    requires !Orphaned(db, s) && WorkKept(db, after, ended)
    requires InProgress(after.sessions, s) ==> s !in ended && InProgress(db.sessions, s)
    ensures !Orphaned(after, s)
  {
    OrphanedMeans(db, s);
    OrphanedMeans(after, s);
    if InProgress(after.sessions, s) {
      EventStays(db, after, ended, s);
    }
  }

  // ------------------------------------------------------------ no other step loses one

  lemma QuietLosesNothing(db: Db, step: Step, s: nat)
    requires !Orphaned(db, s)
    requires step.Tick? || step.GrantBudget? || step.Dispatched? || step.ClaimDelivery?
          || step.RetryLocked? || step.BeatOnce? || step.ReleaseSession?
    ensures !Orphaned(Next(db, step), s)
  {
    QuietKeepsEvents(db, step);
    StillHasEvent(db, Next(db, step), {}, s);
  }

  lemma QuietKeepsEvents(db: Db, step: Step)
    requires step.Tick? || step.GrantBudget? || step.Dispatched? || step.ClaimDelivery?
          || step.RetryLocked? || step.BeatOnce? || step.ReleaseSession?
    ensures Next(db, step).sessions == db.sessions && WorkKept(db, Next(db, step), {})
  {
  }

  lemma AcquireLosesNothing(db: Db, owner: Token, s: nat)
    requires ProtocolOk(db) && !Orphaned(db, s)
    ensures !Orphaned(Acquire(db, owner), s)
  {
    if WouldAcquire(db, owner) {
      AcquiredTables(db, owner);
      StillHasEvent(db, Acquire(db, owner), {}, s);
    } else if owner in db.attempts && db.attempts[owner].stage == Claimed {
      AcquireStops(db, owner);
      StillHasEvent(db, SetStage(db, owner, StopStage(db, owner)), {}, s);
    }
  }

  lemma RetryLosesNothing(db: Db, owner: Token, s: nat)
    requires ProtocolOk(db) && IsRunning(db, owner) && !Orphaned(db, s)
    ensures !Orphaned(ScheduleRetry(db, owner).After(db), s)
  {
    RetryKeepsWork(db, owner);
    if ScheduleRetry(db, owner).After(db) != db {
      Histories.RetryRow(db, owner);
      StillHasEvent(db, ScheduleRetry(db, owner).After(db), {}, s);
    }
  }

  /** A result ends its own session's event together with the session's progress. */
  lemma ResultLosesNothing(db: Db, after: Db, owner: Token, ended: EventStatus, s: nat)
    requires ProtocolOk(db) && IsRunning(db, owner) && OwnsAttempt(db, owner) && !Orphaned(db, s)
    requires ended == EventProcessed || ended == EventFailed
    requires ResultShape(db, after, owner, ended)
    requires !InProgress(after.sessions, db.attempts[owner].sessionId)
    ensures !Orphaned(after, s)
  {
    assert Outbox.AttemptOk(db.attempts[owner], db.events);
    StillHasEvent(db, after, {db.attempts[owner].sessionId}, s);
  }

  lemma SuccessLosesNothing(db: Db, owner: Token, result: RunResult, s: nat)
    requires ProtocolOk(db) && IsRunning(db, owner) && !Orphaned(db, s)
    ensures !Orphaned(PersistSuccess(db, owner, result).After(db), s)
  {
    if PersistSuccess(db, owner, result).Committed? {
      PersistSuccessShape(db, owner, result);
      ResultLosesNothing(db, PersistSuccess(db, owner, result).db, owner, EventProcessed, s);
    }
  }

  lemma FailureLosesNothing(db: Db, owner: Token, s: nat)
    requires ProtocolOk(db) && IsRunning(db, owner) && !Orphaned(db, s)
    ensures !Orphaned(PersistFailure(db, owner).After(db), s)
  {
    if PersistFailure(db, owner).Committed? {
      OwnerIsTheSessions(db, owner);
      assert ActiveVersionOk(db.sessions, db.attempts[owner].sessionId, db.versions);
      PersistFailureShape(db, owner);
      ResultLosesNothing(db, PersistFailure(db, owner).db, owner, EventFailed, s);
    }
  }

  /** What the API puts in progress it gives an event. */
  lemma AddingLosesNothing(db: Db, after: Db, added: nat, s: nat)
    requires !Orphaned(db, s) && OnlyAddsEvents(db, after)
    requires forall z | z != added :: InProgress(after.sessions, z) ==> InProgress(db.sessions, z)
    requires InProgress(after.sessions, added) ==> HasEvent(after.events, added)
    ensures !Orphaned(after, s)
  {
    OrphanedMeans(after, s);
    if s != added {
      StillHasEvent(db, after, {}, s);
    }
  }

  lemma LastEvent(events: seq<Event>, s: nat)
    requires events != [] && Outbox.Active(events[|events| - 1]) && events[|events| - 1].sessionId == s
    ensures HasEvent(events, s)
  {
  }

  lemma CreateLosesNothing(db: Db, user: nat, lockFree: bool, s: nat)
    requires !Orphaned(db, s)
    ensures !Orphaned(CreateGeneration(db, user, lockFree).After(db), s)
  {
    var outcome := CreateGeneration(db, user, lockFree);
    if outcome.Committed? {
      CreateOnlyAdds(db, user, lockFree);
      LastEvent(outcome.db.events, |db.sessions|);
      AddingLosesNothing(db, outcome.db, |db.sessions|, s);
    }
  }

  lemma OutlineReviewLosesNothing(db: Db, user: nat, session: nat, outline: string, s: nat)
    requires !Orphaned(db, s)
    ensures !Orphaned(SubmitOutlineReview(db, user, session, outline).After(db), s)
  {
    var outcome := SubmitOutlineReview(db, user, session, outline);
    if outcome.Committed? {
      OutlineReviewOnlyAdds(db, user, session, outline);
      LastEvent(outcome.db.events, session);
      AddingLosesNothing(db, outcome.db, session, s);
    }
  }

  lemma FinalReviewLosesNothing(db: Db, user: nat, session: nat, action: ReviewAction, s: nat)
    requires !Orphaned(db, s)
    ensures !Orphaned(SubmitFinalReview(db, user, session, action).After(db), s)
  {
    var outcome := SubmitFinalReview(db, user, session, action);
    if outcome.Committed? {
      FinalReviewOnlyAdds(db, user, session, action);
      if action == RequestRevision {
        LastEvent(outcome.db.events, session);
      }
      AddingLosesNothing(db, outcome.db, session, s);
    }
  }

  /** The reaper ends a session with its event. */
  lemma ReaperLosesNothing(db: Db, skipped: set<nat>, s: nat)
    requires ProtocolOk(db) && !Orphaned(db, s)
    ensures !Orphaned(FailExhaustedClaims(db, skipped), s)
  {
    var after := FailExhaustedClaims(db, skipped);
    var doomed := Outbox.ExhaustedSessions(db.events, db.clock, skipped);
    ReaperKeepsOtherWork(db, skipped);
    if s < |db.sessions| {
      ReapedSession(db, skipped, doomed, after, s);
    }
    ReapedLosesNothing(db, after, doomed, s);
  }

  lemma ReapedLosesNothing(db: Db, after: Db, doomed: set<nat>, s: nat)
    requires !Orphaned(db, s) && WorkKept(db, after, doomed) && |after.sessions| == |db.sessions|
    requires s < |db.sessions| && s in doomed ==> after.sessions[s].status == Failed
    requires s < |db.sessions| && s !in doomed ==> after.sessions[s] == db.sessions[s]
    ensures !Orphaned(after, s)
  {
    StillHasEvent(db, after, doomed, s);
  }

  /** The losing step ends the only active event of its session and leaves the session. */
  lemma StaleCompletionExactly(db: Db, owner: Token, s: nat)
    requires ProtocolOk(db) && !Orphaned(db, s)
    ensures Orphaned(CompleteObsolete(db, owner), s) <==> LosesEvent(db, CompleteStale(owner), s)
  {
    var after := CompleteObsolete(db, owner);
    OrphanedMeans(after, s);
    if after != db {
      var a := db.attempts[owner];
      var id := a.eventId;
      OwnerIsTheSessions(db, owner);
      assert LinkOk(db.events[id], db.sessions);
      assert after.events == db.events[id := after.events[id]] && !Outbox.Active(after.events[id]);
      if a.sessionId == s {
        NoOtherEvent(db, after, id);
      } else {
        StillHasEvent(db, after, {a.sessionId}, s);
      }
    }
  }

  lemma NoOtherEvent(db: Db, after: Db, id: nat)
    requires Outbox.OneActivePerSession(db.events) && id < |db.events| && Outbox.Active(db.events[id])
    requires id < |after.events| && after.events == db.events[id := after.events[id]] && !Outbox.Active(after.events[id])
    ensures !HasEvent(after.events, db.events[id].sessionId)
  {
    forall i | 0 <= i < |after.events| && Outbox.Active(after.events[i])
      ensures after.events[i].sessionId != db.events[id].sessionId
    {
      assert i < id || id < i;
    }
  }

  /** A step leaves a session in progress without an event if and only if it is the
      completion, by an attempt that stopped as obsolete, of an event it still owns. */
  lemma EventLostExactly(db: Db, step: Step, s: nat)
    requires ProtocolOk(db) && !Orphaned(db, s)
    ensures Orphaned(Next(db, step), s) <==> LosesEvent(db, step, s)
  {
    match step
    case CompleteStale(owner) => StaleCompletionExactly(db, owner, s);
    case AcquireSession(owner) => AcquireLosesNothing(db, owner, s);
    case SaveSuccess(owner, result) => if IsRunning(db, owner) { SuccessLosesNothing(db, owner, result, s); }
    case SaveFailure(owner) => if IsRunning(db, owner) { FailureLosesNothing(db, owner, s); }
    case RetryLater(owner) => if IsRunning(db, owner) { RetryLosesNothing(db, owner, s); }
    case Create(user, lockFree) => CreateLosesNothing(db, user, lockFree, s);
    case ReviewOutline(user, session, outline) => OutlineReviewLosesNothing(db, user, session, outline, s);
    case ReviewFinal(user, session, action) => FinalReviewLosesNothing(db, user, session, action, s);
    case ReapExhausted(skipped) => ReaperLosesNothing(db, skipped, s);
    case _ => QuietLosesNothing(db, step, s);
  }

  // --------------------------------------------------------------------- over all runs

  /** Step number i of the run loses the session's event. */
  predicate LosesAt(steps: seq<Step>, s: nat, i: nat)
    requires i < |steps|
  {
    LosesEvent(Run(EMPTY, steps[..i]), steps[i], s)
  }

  predicate LosesSomewhere(steps: seq<Step>, s: nat) {
    exists i | 0 <= i < |steps| :: LosesAt(steps, s, i)
  }

  lemma LosesAtPrefix(steps: seq<Step>, s: nat, n: nat, i: nat)
    requires i < n <= |steps|
    ensures LosesAt(steps[..n], s, i) <==> LosesAt(steps, s, i)
  {
    assert steps[..n][..i] == steps[..i] && steps[..n][i] == steps[i];
  }

  lemma LosesInPrefix(steps: seq<Step>, s: nat)
    requires steps != []
    ensures var n := |steps| - 1;
            LosesSomewhere(steps, s) <==> LosesSomewhere(steps[..n], s) || LosesAt(steps, s, n)
  {
    var n := |steps| - 1;
    if LosesSomewhere(steps[..n], s) {
      var i :| 0 <= i < n && LosesAt(steps[..n], s, i);
      LosesAtPrefix(steps, s, n, i);
    }
    if LosesSomewhere(steps, s) && !LosesAt(steps, s, n) {
      var i :| 0 <= i < |steps| && LosesAt(steps, s, i);
      LosesAtPrefix(steps, s, n, i);
    }
  }

  /** At the end of any run a session is in progress without an event if and only if some
      step of the run lost it: nothing else loses an event, and nothing repairs the loss. */
  lemma {:induction false} OrphanedExactly(steps: seq<Step>, s: nat)
    ensures ProtocolOk(Run(EMPTY, steps))
    ensures Orphaned(Run(EMPTY, steps), s) <==> LosesSomewhere(steps, s)
  {
    ReachableProtocol(steps);
    if steps != [] {
      var n := |steps| - 1;
      var before := Run(EMPTY, steps[..n]);
      OrphanedExactly(steps[..n], s);
      LosesInPrefix(steps, s);
      if Orphaned(before, s) {
        OrphanedStep(before, steps[n], s);
      } else {
        EventLostExactly(before, steps[n], s);
      }
    }
  }

  /** The active events of a session. */
  function ActiveEvents(events: seq<Event>, s: nat): set<nat> {
    set i: nat | i < |events| && Outbox.Active(events[i]) && events[i].sessionId == s
  }

  /** A session has at most one active event, and none once it is out of progress. */
  lemma ActiveEventsOf(db: Db, s: nat)
    requires ProtocolOk(db)
    ensures |ActiveEvents(db.events, s)| <= 1
    ensures ActiveEvents(db.events, s) != {} <==> HasEvent(db.events, s)
    ensures HasEvent(db.events, s) ==> InProgress(db.sessions, s)
  {
    var active := ActiveEvents(db.events, s);
    if HasEvent(db.events, s) {
      var i :| 0 <= i < |db.events| && Outbox.Active(db.events[i]) && db.events[i].sessionId == s;
      assert LinkOk(db.events[i], db.sessions);
      assert i in active;
      forall j | j in active ensures j == i {
        assert i < j || j < i || i == j;
      }
      assert active == {i};
    } else {
      assert active == {};
    }
  }

  /** In any run at all, a session is QUEUED or PROCESSING exactly when it has exactly one
      active event and otherwise has none, if and only if no step of the run lost its event. */
  lemma SessionHasItsEventExactly(steps: seq<Step>, s: nat)
    ensures var db := Run(EMPTY, steps);
            var active := ActiveEvents(db.events, s);
            (&& (InProgress(db.sessions, s) <==> |active| == 1)
             && (!InProgress(db.sessions, s) <==> active == {}))
            <==> !LosesSomewhere(steps, s)
  {
    var db := Run(EMPTY, steps);
    OrphanedExactly(steps, s);
    OrphanedMeans(db, s);
    ActiveEventsOf(db, s);
  }
}
