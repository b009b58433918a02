/** The transactions that touch every table keep the protocol part of the invariant. */
module Transactions {
  import opened Rows
  import opened Tables
  import opened Workflow
  import opened Invariant
  import opened Protocol
  import Lifecycle
  import Outbox
  import Leases
  import Budget
  import Charging

  // ------------------------------------------------------------------ worker results

  /** What a committed result leaves in the protocol tables: one event ended, one
      session row and its active version rewritten, nothing else. */
  predicate ResultShape(db: Db, after: Db, owner: Token, ended: EventStatus)
    requires IsRunning(db, owner) && OwnsAttempt(db, owner)
  {
    var a := db.attempts[owner];
    var active := ActiveVersion(db, a.sessionId);
    && active.Some?
    && a.sessionId < |after.sessions| && active.value < |after.versions|
    && Outbox.Finish(db.events, a.eventId, owner, ended) == Some(after.events)
    && after.sessions == db.sessions[a.sessionId := after.sessions[a.sessionId]]
    && after.versions == db.versions[active.value := after.versions[active.value]]
    && after.leases == db.leases && after.attempts == db.attempts && after.clock == db.clock
    && after.sessions[a.sessionId].userId == db.sessions[a.sessionId].userId
    && after.sessions[a.sessionId].activeVersion == db.sessions[a.sessionId].activeVersion
    && after.versions[active.value].sessionId == db.versions[active.value].sessionId
    && after.versions[active.value].number == db.versions[active.value].number
    && after.versions[active.value].status == after.sessions[a.sessionId].status
  }

  /** A checkpoint rewrites one session row and its active version, and the books. */
  predicate CheckpointShape(db: Db, after: Db, s: nat, v: nat)
    requires s < |db.sessions| && v < |db.versions|
  {
    && after.events == db.events && after.leases == db.leases
    && after.attempts == db.attempts && after.clock == db.clock
    && |after.sessions| == |db.sessions| && |after.versions| == |db.versions|
    && after.sessions == db.sessions[s := after.sessions[s]]
    && after.versions == db.versions[v := after.versions[v]]
    && after.sessions[s].userId == db.sessions[s].userId
    && after.sessions[s].activeVersion == db.sessions[s].activeVersion
    && after.versions[v].sessionId == db.versions[v].sessionId
    && after.versions[v].number == db.versions[v].number
    && after.versions[v].status == after.sessions[s].status
  }

  lemma OutlineCheckpointShape(db: Db, a: Attempt, v: nat, result: RunResult)
    requires a.sessionId < |db.sessions| && v < |db.versions| && db.sessions[a.sessionId].status == Processing
    ensures var outcome := OutlineCheckpoint(db, a, v, result);
            && outcome.Committed?
            && CheckpointShape(db, outcome.db, a.sessionId, v)
            && outcome.db.sessions[a.sessionId].status == AwaitingOutlineReview
            && outcome.db.sessions[a.sessionId].jobPhase == db.sessions[a.sessionId].jobPhase
            && outcome.db.versions[v].outlineData == result.outline
  {
    Charging.UsageOnlyCharges(db, a.userId, a.sessionId, db.versions[v].number, result.usage);
  }

  lemma AgentRejectionShape(db: Db, a: Attempt, v: nat, result: RunResult)
    requires a.sessionId < |db.sessions| && v < |db.versions| && db.sessions[a.sessionId].status == Processing
    ensures var outcome := AgentRejection(db, a, v, result);
            && outcome.Committed?
            && CheckpointShape(db, outcome.db, a.sessionId, v)
            && outcome.db.sessions[a.sessionId].status == AgentRejected
            && outcome.db.sessions[a.sessionId].jobPhase == None
  {
    Charging.UsageOnlyCharges(db, a.userId, a.sessionId, db.versions[v].number, result.usage);
  }

  lemma FinalCheckpointShape(db: Db, a: Attempt, v: nat, result: RunResult)
    requires a.sessionId < |db.sessions| && v < |db.versions| && db.sessions[a.sessionId].status == Processing
    ensures var outcome := FinalCheckpoint(db, a, v, result);
            && outcome.Committed?
            && CheckpointShape(db, outcome.db, a.sessionId, v)
            && outcome.db.sessions[a.sessionId].status == AwaitingFinalReview
            && outcome.db.sessions[a.sessionId].jobPhase == db.sessions[a.sessionId].jobPhase
            && outcome.db.versions[v].finalContent == result.finalContent
  {
    Charging.UsageOnlyCharges(db, a.userId, a.sessionId, db.versions[v].number, result.usage);
  }

  /** Which checkpoint a result that passed the checks goes through. */
  function Checkpoint(db: Db, a: Attempt, v: nat, result: RunResult): Outcome
    requires a.sessionId < |db.sessions| && v < |db.versions|
  {
    if a.phase != FreshGeneration then FinalCheckpoint(db, a, v, result)
    else if result.intentClear then OutlineCheckpoint(db, a, v, result)
    else AgentRejection(db, a, v, result)
  }

  lemma CommittedThroughCheckpoint(db: Db, owner: Token, result: RunResult)
    requires IsRunning(db, owner) && PersistSuccess(db, owner, result).Committed?
    ensures OwnsAttempt(db, owner) && ActiveVersion(db, db.attempts[owner].sessionId).Some?
    ensures var a := db.attempts[owner];
            var outcome := Checkpoint(db, a, ActiveVersion(db, a.sessionId).value, result);
            && outcome.Committed?
            && PersistSuccess(db, owner, result) == FinishClaim(outcome, a.eventId, owner, EventProcessed)
            && Outbox.Finish(outcome.db.events, a.eventId, owner, EventProcessed).Some?
            && (a.phase != FreshGeneration ==> result.finalContent != "")
            && (a.phase == FreshGeneration && result.intentClear ==> result.outline != "")
  {
  }

  /** A committed result passed the three ownership checks, and moves session and
      version together to the status its phase and content call for. */
  lemma PersistSuccessShape(db: Db, owner: Token, result: RunResult)
    requires IsRunning(db, owner) && PersistSuccess(db, owner, result).Committed?
    ensures OwnsAttempt(db, owner)
    ensures ResultShape(db, PersistSuccess(db, owner, result).db, owner, EventProcessed)
    ensures var a := db.attempts[owner];
            var after := PersistSuccess(db, owner, result).db;
            && after.sessions[a.sessionId].status
               == (if a.phase != FreshGeneration then AwaitingFinalReview
                   else if result.intentClear then AwaitingOutlineReview else AgentRejected)
            && after.sessions[a.sessionId].jobPhase
               == (if a.phase == FreshGeneration && !result.intentClear then None else db.sessions[a.sessionId].jobPhase)
            && (after.sessions[a.sessionId].status == AwaitingFinalReview ==>
                  result.finalContent != ""
                  && after.versions[ActiveVersion(db, a.sessionId).value].finalContent == result.finalContent)
            && (after.sessions[a.sessionId].status == AwaitingOutlineReview ==>
                  result.outline != ""
                  && after.versions[ActiveVersion(db, a.sessionId).value].outlineData == result.outline)
  {
    CommittedThroughCheckpoint(db, owner, result);
    var a := db.attempts[owner];
    var v := ActiveVersion(db, a.sessionId).value;
    OutlineCheckpointShape(db, a, v, result);
    AgentRejectionShape(db, a, v, result);
    FinalCheckpointShape(db, a, v, result);
  }

  lemma PersistSuccessKeeps(db: Db, owner: Token, result: RunResult)
    requires ProtocolOk(db) && IsRunning(db, owner)
    ensures ProtocolOk(PersistSuccess(db, owner, result).After(db))
  {
    if PersistSuccess(db, owner, result).Committed? {
      var after := PersistSuccess(db, owner, result).db;
      var s := db.attempts[owner].sessionId;
      PersistSuccessShape(db, owner, result);
      var v := ActiveVersion(db, s).value;
      assert ActiveVersionOk(db.sessions, s, db.versions);
      ResultKeeps(db, owner, EventProcessed, after.sessions[s], after.versions[v]);
    }
  }

  lemma PersistFailureShape(db: Db, owner: Token)
    requires IsRunning(db, owner) && PersistFailure(db, owner).Committed?
    requires ActiveVersion(db, db.attempts[owner].sessionId).Some?
    ensures OwnsAttempt(db, owner)
    ensures ResultShape(db, PersistFailure(db, owner).db, owner, EventFailed)
    ensures var s := db.attempts[owner].sessionId;
            PersistFailure(db, owner).db.sessions[s] == db.sessions[s].(status := Failed)
  {
    var a := db.attempts[owner];
    var marked := UpdateStatus(SetVersionJob(db, a.sessionId, Failed, a.phase), a.sessionId, Failed);
    assert marked == Committed(SetSession(SetVersionJob(db, a.sessionId, Failed, a.phase), a.sessionId,
                                          db.sessions[a.sessionId].(status := Failed)));
  }

  lemma PersistFailureKeeps(db: Db, owner: Token)
    requires ProtocolOk(db) && IsRunning(db, owner)
    ensures ProtocolOk(PersistFailure(db, owner).After(db))
  {
    if PersistFailure(db, owner).Committed? {
      var after := PersistFailure(db, owner).db;
      var s := db.attempts[owner].sessionId;
      assert ActiveVersionOk(db.sessions, s, db.versions);
      PersistFailureShape(db, owner);
      var v := ActiveVersion(db, s).value;
      ResultKeeps(db, owner, EventFailed, after.sessions[s], after.versions[v]);
    }
  }

  // -------------------------------------------------------------------------- reviews

  /** Enqueuing the next event of a session that has none. */
  lemma EnqueueKeeps(db: Db, s: nat, phase: Phase)
    requires ProtocolOk(db) && s < |db.sessions| && db.sessions[s].status == Queued
    requires Outbox.IndexAllows(db.events, s)
    requires ActiveVersion(db, s).Some?
    requires var version := db.versions[ActiveVersion(db, s).value];
             && (phase == ResearchPhase ==> version.outlineData != "")
             && (phase == Revision ==> version.finalContent != "")
    ensures var events := Outbox.Enqueue(db.events, db.clock, s, db.sessions[s].userId, phase);
            events.Some? && ProtocolOk(db.(events := events.value))
  {
    var events := Outbox.Enqueue(db.events, db.clock, s, db.sessions[s].userId, phase).value;
    forall t | t in db.attempts ensures Outbox.AttemptOk(db.attempts[t], events) {
      assert Outbox.AttemptOk(db.attempts[t], db.events);
    }
  }

  /** The move back to QUEUED of a session that waits for a review. */
  lemma IdleMoved(db: Db, s: nat, row: Session, version: Version)
    requires ProtocolOk(db) && s < |db.sessions| && db.sessions[s].status !in {Queued, Processing}
    requires ActiveVersion(db, s).Some?
    requires row == db.sessions[s].(status := row.status, jobPhase := row.jobPhase)
    requires var before := db.versions[ActiveVersion(db, s).value];
             version.sessionId == before.sessionId && version.number == before.number
    requires version.status == row.status && row.status != AwaitingFinalReview
    ensures var v := ActiveVersion(db, s).value;
            ProtocolOk(db.(sessions := db.sessions[s := row], versions := db.versions[v := version]))
  {
    var v := ActiveVersion(db, s).value;
    assert ActiveVersionOk(db.sessions, s, db.versions);
    IdleHasNoActiveEvent(db, s);
    NoActiveEventFits(db, s, row, db.versions[v := version]);
    SessionMoved(db, s, row, v, version);
  }

  lemma OutlineReviewKeeps(db: Db, user: nat, s: nat, outline: string)
    requires ProtocolOk(db)
    ensures ProtocolOk(SubmitOutlineReview(db, user, s, outline).After(db))
    ensures SubmitOutlineReview(db, user, s, outline) != RolledBack(DuplicateActiveEvent)
  {
    if s < |db.sessions| && db.sessions[s].status == AwaitingOutlineReview {
      IdleHasNoActiveEvent(db, s);
      assert ActiveVersionOk(db.sessions, s, db.versions);
      if SubmitOutlineReview(db, user, s, outline).Committed? {
        var v := ActiveVersion(db, s).value;
        var row := db.sessions[s].(status := Queued, jobPhase := Some(ResearchPhase));
        var version := db.versions[v].(
          status := Queued, jobPhase := ResearchPhase, outlineData := outline, approvedOutline := outline);
        IdleMoved(db, s, row, version);
        EnqueueKeeps(db.(sessions := db.sessions[s := row], versions := db.versions[v := version]), s, ResearchPhase);
      }
    }
  }

  lemma {:induction false} MaxNumberIs(versions: seq<Version>, s: nat)
    ensures forall v | 0 <= v < |versions| :: versions[v].sessionId == s ==> versions[v].number <= MaxNumber(versions, s)
    ensures MaxNumber(versions, s) == 0 || HasNumber(versions, s, MaxNumber(versions, s))
  {
    if versions != [] {
      var last := |versions| - 1;
      MaxNumberIs(versions[..last], s);
      if HasNumber(versions[..last], s, MaxNumber(versions[..last], s)) {
        var u :| 0 <= u < last && versions[..last][u].sessionId == s
                 && versions[..last][u].number == MaxNumber(versions[..last], s);
        assert versions[u].sessionId == s && versions[u].number == MaxNumber(versions[..last], s);
      }
    }
  }

  lemma NumbersDenseAppended(versions: seq<Version>, version: Version)
    requires NumbersDense(versions)
    requires version.number > 1 ==> HasNumber(versions, version.sessionId, version.number - 1)
    ensures NumbersDense(versions + [version])
  {
    var after := versions + [version];
    forall v | 0 <= v < |after| && after[v].number > 1
      ensures HasNumber(after, after[v].sessionId, after[v].number - 1)
    {
      assert HasNumber(versions, after[v].sessionId, after[v].number - 1);
      var u :| 0 <= u < |versions| && versions[u].sessionId == after[v].sessionId && versions[u].number == after[v].number - 1;
      assert after[u].sessionId == after[v].sessionId && after[u].number == after[v].number - 1;
    }
  }

  /** A revision is inserted behind its session's versions and becomes the active one. */
  lemma RevisionInserted(db: Db, s: nat, row: Session)
    requires ProtocolOk(db) && s < |db.sessions| && Outbox.IndexAllows(db.events, s)
    requires ActiveVersion(db, s).Some?
    requires row.status == Queued && row.userId == db.sessions[s].userId
    requires row.activeVersion == db.sessions[s].activeVersion
    ensures ProtocolOk(InsertRevision(SetSession(db, s, row), s, ActiveVersion(db, s).value))
  {
    var after := InsertRevision(SetSession(db, s, row), s, ActiveVersion(db, s).value);
    var versions, sessions := after.versions, after.sessions;
    MaxNumberIs(db.versions, s);
    assert ActiveVersionOk(db.sessions, s, db.versions);
    NumbersDenseAppended(db.versions, versions[|db.versions|]);
    assert versions[..|db.versions|] == db.versions;
    forall z | 0 <= z < |sessions| ensures ActiveVersionOk(sessions, z, versions) && StatusOk(sessions, z, versions) {
      assert ActiveVersionOk(db.sessions, z, db.versions);
      assert StatusOk(db.sessions, z, db.versions);
      assert MaxNumber(versions, z) == if z == s then MaxNumber(db.versions, s) + 1 else MaxNumber(db.versions, z);
    }
    forall i | 0 <= i < |db.events|
      ensures LinkOk(db.events[i], sessions) && RunningOk(db.events[i], db.attempts, sessions)
           && ContentOk(db.events[i], sessions, versions)
    {
      assert LinkOk(db.events[i], db.sessions) && Outbox.EventOk(db.events[i], i, db.attempts);
      assert RunningOk(db.events[i], db.attempts, db.sessions);
      assert ContentOk(db.events[i], db.sessions, db.versions);
      assert ActiveVersionOk(db.sessions, db.events[i].sessionId, db.versions);
    }
  }

  lemma FinalReviewKeeps(db: Db, user: nat, s: nat, action: ReviewAction)
    requires ProtocolOk(db)
    ensures ProtocolOk(SubmitFinalReview(db, user, s, action).After(db))
    ensures SubmitFinalReview(db, user, s, action) != RolledBack(DuplicateActiveEvent)
  {
    if s < |db.sessions| && db.sessions[s].userId == user && db.sessions[s].status == AwaitingFinalReview {
      IdleHasNoActiveEvent(db, s);
      assert ActiveVersionOk(db.sessions, s, db.versions);
      assert StatusOk(db.sessions, s, db.versions);
      var v := ActiveVersion(db, s).value;
      var row := db.sessions[s];
      match action
      case Approve =>
        IdleMoved(db, s, row.(status := Completed), db.versions[v].(status := Completed));
      case Reject =>
        IdleMoved(db, s, row.(status := Rejected, jobPhase := None), db.versions[v].(status := Rejected));
      case RequestRevision =>
        RevisionRequested(db, s);
    }
  }

  lemma RevisionRequested(db: Db, s: nat)
    requires ProtocolOk(db) && s < |db.sessions| && db.sessions[s].status == AwaitingFinalReview
    ensures SubmitFinalReview(db, db.sessions[s].userId, s, RequestRevision).Committed?
    ensures ProtocolOk(SubmitFinalReview(db, db.sessions[s].userId, s, RequestRevision).After(db))
  {
    IdleHasNoActiveEvent(db, s);
    assert ActiveVersionOk(db.sessions, s, db.versions);
    assert StatusOk(db.sessions, s, db.versions);
    var v := ActiveVersion(db, s).value;
    var row := db.sessions[s].(status := Queued, jobPhase := Some(Revision));
    RevisionInserted(db, s, row);
    EnqueueKeeps(InsertRevision(SetSession(db, s, row), s, v), s, Revision);
  }

  // ------------------------------------------------------------------------- creation

  lemma InsertSessionKeeps(db: Db, user: nat)
    requires ProtocolOk(db)
    ensures ProtocolOk(InsertSession(db, user))
    ensures Outbox.IndexAllows(db.events, |db.sessions|)
  {
    InsertSessionNumbers(db, user);
    InsertSessionEvents(db, user);
  }

  /** The new version is number 1 of its session, and no other number changes. */
  lemma InsertSessionNumbers(db: Db, user: nat)
    requires VersionsOk(db.sessions, db.versions) && NumbersDense(db.versions) && StatusesOk(db.sessions, db.versions)
    ensures var after := InsertSession(db, user);
            VersionsOk(after.sessions, after.versions) && NumbersDense(after.versions)
            && StatusesOk(after.sessions, after.versions)
  {
    var after := InsertSession(db, user);
    MaxNumberIs(db.versions, |db.sessions|);
    assert after.versions[..|db.versions|] == db.versions;
    NumbersDenseAppended(db.versions, after.versions[|db.versions|]);
    forall z | 0 <= z < |after.sessions|
      ensures ActiveVersionOk(after.sessions, z, after.versions) && StatusOk(after.sessions, z, after.versions)
    {
      assert z < |db.sessions| ==> ActiveVersionOk(db.sessions, z, db.versions) && StatusOk(db.sessions, z, db.versions);
    }
  }

  lemma InsertSessionEvents(db: Db, user: nat)
    requires LinksOk(db.events, db.sessions) && RunsOk(db.events, db.attempts, db.sessions)
    requires ContentsOk(db.events, db.sessions, db.versions) && VersionsOk(db.sessions, db.versions)
    ensures var after := InsertSession(db, user);
            && LinksOk(db.events, after.sessions) && RunsOk(db.events, db.attempts, after.sessions)
            && ContentsOk(db.events, after.sessions, after.versions)
    ensures Outbox.IndexAllows(db.events, |db.sessions|)
  {
    var after := InsertSession(db, user);
    forall i | 0 <= i < |db.events|
      ensures LinkOk(db.events[i], after.sessions) && RunningOk(db.events[i], db.attempts, after.sessions)
           && ContentOk(db.events[i], after.sessions, after.versions) && db.events[i].sessionId != |db.sessions|
    {
      assert LinkOk(db.events[i], db.sessions);
      assert RunningOk(db.events[i], db.attempts, db.sessions);
      assert ContentOk(db.events[i], db.sessions, db.versions);
      assert ActiveVersionOk(db.sessions, db.events[i].sessionId, db.versions);
    }
  }

  /** The budget columns of a session are no part of the protocol. */
  lemma BudgetColumnsIgnored(db: Db, s: nat, row: Session)
    requires ProtocolOk(db) && s < |db.sessions|
    requires row == db.sessions[s].(reservedTokens := row.reservedTokens, reservedUsd := row.reservedUsd,
                                    spentTokens := row.spentTokens, spentUsd := row.spentUsd)
    ensures ProtocolOk(db.(sessions := db.sessions[s := row]))
  {
    var sessions := db.sessions[s := row];
    forall z | 0 <= z < |sessions|
      ensures ActiveVersionOk(sessions, z, db.versions) && StatusOk(sessions, z, db.versions)
    {
      assert ActiveVersionOk(db.sessions, z, db.versions);
      assert StatusOk(db.sessions, z, db.versions);
    }
    forall i | 0 <= i < |db.events|
      ensures LinkOk(db.events[i], sessions) && RunningOk(db.events[i], db.attempts, sessions)
           && ContentOk(db.events[i], sessions, db.versions)
    {
      assert LinkOk(db.events[i], db.sessions);
      assert RunningOk(db.events[i], db.attempts, db.sessions);
      assert ContentOk(db.events[i], db.sessions, db.versions);
    }
  }

  lemma CreateKeeps(db: Db, user: nat, lockFree: bool)
    requires ProtocolOk(db)
    ensures ProtocolOk(CreateGeneration(db, user, lockFree).After(db))
    ensures CreateGeneration(db, user, lockFree) != RolledBack(DuplicateActiveEvent)
  {
    var s := |db.sessions|;
    InsertSessionKeeps(db, user);
    if CreateGeneration(db, user, lockFree).Committed? {
      var after := CreateGeneration(db, user, lockFree).db;
      var inserted := InsertSession(db, user);
      BudgetColumnsIgnored(inserted, s, after.sessions[s]);
      EnqueueKeeps(inserted.(sessions := after.sessions), s, FreshGeneration);
    }
  }

  // --------------------------------------------------------------------------- reaper

  /** The one active event of a session the reaper fails is the exhausted one. */
  lemma DoomedHasNoActiveEvent(db: Db, skipped: set<nat>, i: nat)
    requires ProtocolOk(db) && i < |db.events|
    requires db.events[i].sessionId in Outbox.ExhaustedSessions(db.events, db.clock, skipped)
    ensures !Outbox.Active(Outbox.FailExhausted(db.events, db.clock, skipped)[i])
  {
    var j: nat :| j < |db.events| && Outbox.Exhausted(db.events[j], db.clock) && j !in skipped
                  && db.events[j].sessionId == db.events[i].sessionId;
    assert i < j || j < i || i == j;
  }

  /** The reaper ends exhausted claims and fails their sessions. */
  lemma ReaperKeeps(db: Db, skipped: set<nat>)
    requires ProtocolOk(db)
    ensures ProtocolOk(FailExhaustedClaims(db, skipped))
  {
    ReaperKeepsEvents(db, skipped);
    ReaperKeepsLinks(db, skipped);
    ReaperKeepsSessions(db, skipped);
  }

  lemma ReaperKeepsEvents(db: Db, skipped: set<nat>)
    requires Outbox.EventsOk(db.events, db.attempts) && Outbox.AttemptsOk(db.attempts, db.events)
    requires Outbox.OneActivePerSession(db.events) && Outbox.TimesOk(db.events, db.clock)
    ensures var events := Outbox.FailExhausted(db.events, db.clock, skipped);
            && Outbox.EventsOk(events, db.attempts)
            && Outbox.AttemptsOk(db.attempts, events)
            && Outbox.OneActivePerSession(events)
            && Outbox.TimesOk(events, db.clock)
  {
    var events := Outbox.FailExhausted(db.events, db.clock, skipped);
    forall t | t in db.attempts ensures Outbox.AttemptOk(db.attempts[t], events) {
      assert Outbox.AttemptOk(db.attempts[t], db.events);
    }
    forall i | 0 <= i < |db.events|
      ensures Outbox.EventOk(events[i], i, db.attempts) && Outbox.EventTimesOk(events[i], db.clock)
    {
      assert Outbox.EventOk(db.events[i], i, db.attempts);
      assert Outbox.EventTimesOk(db.events[i], db.clock);
    }
  }

  lemma ReaperKeepsLinks(db: Db, skipped: set<nat>)
    requires ProtocolOk(db)
    ensures var after := FailExhaustedClaims(db, skipped);
            && LinksOk(after.events, after.sessions)
            && RunsOk(after.events, db.attempts, after.sessions)
            && ContentsOk(after.events, after.sessions, db.versions)
  {
    var after := FailExhaustedClaims(db, skipped);
    forall i | 0 <= i < |db.events|
      ensures LinkOk(after.events[i], after.sessions) && RunningOk(after.events[i], db.attempts, after.sessions)
           && ContentOk(after.events[i], after.sessions, db.versions)
    {
      if db.events[i].sessionId in Outbox.ExhaustedSessions(db.events, db.clock, skipped) {
        DoomedHasNoActiveEvent(db, skipped, i);
      }
      ReaperKeepsLink(db, skipped, i);
    }
  }

  lemma ReaperKeepsLink(db: Db, skipped: set<nat>, i: nat)
    requires i < |db.events| && Outbox.EventOk(db.events[i], i, db.attempts)
    requires LinkOk(db.events[i], db.sessions) && RunningOk(db.events[i], db.attempts, db.sessions)
    requires ContentOk(db.events[i], db.sessions, db.versions)
    requires db.events[i].sessionId in Outbox.ExhaustedSessions(db.events, db.clock, skipped) ==>
               !Outbox.Active(Outbox.FailExhausted(db.events, db.clock, skipped)[i])
    ensures var after := FailExhaustedClaims(db, skipped);
            && LinkOk(after.events[i], after.sessions)
            && RunningOk(after.events[i], db.attempts, after.sessions)
            && ContentOk(after.events[i], after.sessions, db.versions)
  {
  }

  lemma ReaperKeepsSessions(db: Db, skipped: set<nat>)
    requires ProtocolOk(db)
    ensures VersionsOk(FailExhaustedClaims(db, skipped).sessions, db.versions)
    ensures StatusesOk(FailExhaustedClaims(db, skipped).sessions, db.versions)
  {
    var after := FailExhaustedClaims(db, skipped);
    forall s | 0 <= s < |db.sessions|
      ensures ActiveVersionOk(after.sessions, s, db.versions) && StatusOk(after.sessions, s, db.versions)
    {
      assert ActiveVersionOk(db.sessions, s, db.versions);
      assert StatusOk(db.sessions, s, db.versions);
      if s in Outbox.ExhaustedSessions(db.events, db.clock, skipped) {
        var j: nat :| j < |db.events| && Outbox.Exhausted(db.events[j], db.clock) && j !in skipped
                      && db.events[j].sessionId == s;
        assert LinkOk(db.events[j], db.sessions);
      }
    }
  }
}
