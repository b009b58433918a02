/** Every transaction keeps the protocol part of the invariant. */
module Protocol {
  import opened Rows
  import opened Tables
  import opened Workflow
  import opened Invariant
  import Lifecycle
  import Outbox
  import Leases

  lemma TickKeeps(db: Db, seconds: nat)
    requires ProtocolOk(db)
    ensures ProtocolOk(db.(clock := db.clock + seconds))
  {
  }

  // -------------------------------------------------------- edits of a single row

  /** Rewriting one event, without reviving it, keeps everything about the others. */
  lemma EventEdited(db: Db, id: nat, e: Event)
    requires ProtocolOk(db) && id < |db.events|
    requires e.sessionId == db.events[id].sessionId && e.userId == db.events[id].userId && e.phase == db.events[id].phase
    requires Outbox.Active(e) ==> Outbox.Active(db.events[id])
    requires Outbox.EventOk(e, id, db.attempts) && Outbox.EventTimesOk(e, db.clock)
    requires RunningOk(e, db.attempts, db.sessions)
    ensures ProtocolOk(db.(events := db.events[id := e]))
  {
  }

  lemma AttemptAdded(db: Db, owner: Token, a: Attempt)
    requires ProtocolOk(db) && owner !in db.attempts
    requires Outbox.AttemptOk(a, db.events)
    ensures ProtocolOk(db.(attempts := db.attempts[owner := a]))
  {
  }

  /** An attempt that has no lease row may stop. */
  lemma AttemptStopped(db: Db, owner: Token, stage: Stage)
    requires ProtocolOk(db) && owner in db.attempts && db.attempts[owner].stage == Claimed && !stage.Running?
    ensures ProtocolOk(SetStage(db, owner, stage))
  {
    var attempts := SetStage(db, owner, stage).attempts;
    forall i | 0 <= i < |db.events|
      ensures Outbox.EventOk(db.events[i], i, attempts) && RunningOk(db.events[i], attempts, db.sessions)
    {
      assert Outbox.EventOk(db.events[i], i, db.attempts);
      assert RunningOk(db.events[i], db.attempts, db.sessions);
    }
    forall i | 0 <= i < |db.leases| ensures Leases.LeaseOk(db.leases[i], attempts) {
      assert Leases.LeaseOk(db.leases[i], db.attempts);
    }
  }

  /** A lease row may be extended or ended, not reopened or handed over. */
  lemma LeaseEdited(db: Db, i: nat, l: Lease)
    requires ProtocolOk(db) && i < |db.leases|
    requires l.sessionId == db.leases[i].sessionId && l.owner == db.leases[i].owner && l.version == db.leases[i].version
    requires db.leases[i].endedAt.Some? ==> l.endedAt.Some?
    ensures ProtocolOk(db.(leases := db.leases[i := l]))
  {
  }

  // --------------------------------------------------------- claims and heartbeats

  lemma DispatchedKeeps(db: Db, event: nat)
    requires ProtocolOk(db)
    ensures ProtocolOk(db.(events := Outbox.MarkDispatched(db.events, db.clock, event)))
  {
    if event < |db.events| && Outbox.Active(db.events[event]) {
      assert Outbox.EventOk(db.events[event], event, db.attempts);
      assert Outbox.EventTimesOk(db.events[event], db.clock);
      assert RunningOk(db.events[event], db.attempts, db.sessions);
      EventEdited(db, event, db.events[event].(dispatchedAt := Some(db.clock)));
    }
  }

  lemma ClaimKeeps(db: Db, event: nat, owner: Token)
    requires ProtocolOk(db)
    ensures ProtocolOk(Claim(db, event, owner))
  {
    var events := Outbox.ClaimEvent(db.events, db.clock, event, owner);
    if owner !in db.attempts && events.Some? {
      var e := db.events[event];
      var a := Attempt(event, e.sessionId, e.userId, e.phase, "", Claimed);
      AttemptAdded(db, owner, a);
      assert Outbox.EventTimesOk(e, db.clock);
      EventEdited(db.(attempts := db.attempts[owner := a]), event, events.value[event]);
    }
  }

  lemma BeatKeeps(db: Db, owner: Token)
    requires ProtocolOk(db)
    ensures ProtocolOk(Beat(db, owner))
  {
    if Beat(db, owner) != db {
      var a := db.attempts[owner];
      var e := db.events[a.eventId];
      assert Outbox.EventOk(e, a.eventId, db.attempts);
      assert Outbox.EventTimesOk(e, db.clock);
      assert RunningOk(e, db.attempts, db.sessions);
      EventEdited(db, a.eventId, e.(lockedUntil := Some(db.clock + LEASE_SECONDS)));
      var i := Leases.ActiveLease(db.leases, a.sessionId).value;
      LeaseEdited(db.(events := Beat(db, owner).events), i, Beat(db, owner).leases[i]);
    }
  }

  lemma ReleaseKeeps(db: Db, owner: Token)
    requires ProtocolOk(db)
    ensures ProtocolOk(Workflow.Release(db, owner))
  {
  }

  /** Ending an owned claim. */
  lemma FinishKeeps(db: Db, id: nat, owner: Token, status: EventStatus)
    requires ProtocolOk(db) && Outbox.Owned(db.events, id, owner)
    requires status == EventProcessed || status == EventFailed
    ensures ProtocolOk(db.(events := Outbox.Finish(db.events, id, owner, status).value))
  {
    var e := db.events[id];
    assert Outbox.EventTimesOk(e, db.clock);
    EventEdited(db, id, e.(status := status, lockedBy := None, lockedUntil := None));
  }

  lemma CompleteObsoleteKeeps(db: Db, owner: Token)
    requires ProtocolOk(db)
    ensures ProtocolOk(CompleteObsolete(db, owner))
  {
    if CompleteObsolete(db, owner) != db {
      FinishKeeps(db, db.attempts[owner].eventId, owner, EventProcessed);
    }
  }

  /** Putting an owned claim back to PENDING with its backoff. */
  lemma RetryKeeps(db: Db, id: nat, owner: Token)
    requires ProtocolOk(db) && Outbox.Retry(db.events, db.clock, id, owner).Some?
    ensures ProtocolOk(db.(events := Outbox.Retry(db.events, db.clock, id, owner).value))
  {
    var e := db.events[id];
    assert Outbox.EventOk(e, id, db.attempts);
    assert Outbox.EventTimesOk(e, db.clock);
    Outbox.RetryDelays();
    EventEdited(db, id, Outbox.Retry(db.events, db.clock, id, owner).value[id]);
  }

  lemma RetryBlockedKeeps(db: Db, owner: Token)
    requires ProtocolOk(db)
    ensures ProtocolOk(RetryBlocked(db, owner))
  {
    if RetryBlocked(db, owner) != db {
      RetryKeeps(db, db.attempts[owner].eventId, owner);
    }
  }

  // ------------------------------------------------------------- moving a session

  predicate SameNumbers(versions: seq<Version>, after: seq<Version>) {
    && |after| == |versions|
    && forall v | 0 <= v < |versions| ::
         after[v].sessionId == versions[v].sessionId && after[v].number == versions[v].number
  }

  lemma {:induction false} MaxNumberKept(versions: seq<Version>, after: seq<Version>, session: nat)
    requires SameNumbers(versions, after)
    ensures MaxNumber(after, session) == MaxNumber(versions, session)
  {
    if versions != [] {
      MaxNumberKept(versions[..|versions| - 1], after[..|after| - 1], session);
    }
  }

  lemma NumbersDenseKept(versions: seq<Version>, after: seq<Version>)
    requires NumbersDense(versions) && SameNumbers(versions, after)
    ensures NumbersDense(after)
  {
  }

  /** The events of a session fit its new row and version. */
  predicate EventsFit(db: Db, s: nat, sessions: seq<Session>, versions: seq<Version>) {
    forall i | 0 <= i < |db.events| :: db.events[i].sessionId == s ==>
      && LinkOk(db.events[i], sessions)
      && RunningOk(db.events[i], db.attempts, sessions)
      && ContentOk(db.events[i], sessions, versions)
  }

  /** Rewriting a session row and its active version together. */
  lemma SessionMoved(db: Db, s: nat, row: Session, v: nat, version: Version)
    requires ProtocolOk(db) && s < |db.sessions| && ActiveVersion(db, s) == Some(v)
    requires row.userId == db.sessions[s].userId && row.activeVersion == Some(v)
    requires version.sessionId == s && version.number == db.versions[v].number
    requires version.status == row.status
    requires row.status == AwaitingFinalReview ==> version.finalContent != ""
    requires EventsFit(db, s, db.sessions[s := row], db.versions[v := version])
    ensures ProtocolOk(db.(sessions := db.sessions[s := row], versions := db.versions[v := version]))
  {
    var sessions, versions := db.sessions[s := row], db.versions[v := version];
    assert ActiveVersionOk(db.sessions, s, db.versions);
    assert SameNumbers(db.versions, versions);
    NumbersDenseKept(db.versions, versions);
    forall z | 0 <= z < |sessions| ensures ActiveVersionOk(sessions, z, versions) && StatusOk(sessions, z, versions) {
      assert ActiveVersionOk(db.sessions, z, db.versions);
      assert StatusOk(db.sessions, z, db.versions);
      MaxNumberKept(db.versions, versions, z);
    }
    EventsFitAll(db, s, row, v, version);
  }

  lemma EventsFitAll(db: Db, s: nat, row: Session, v: nat, version: Version)
    requires ProtocolOk(db) && s < |db.sessions| && ActiveVersion(db, s) == Some(v)
    requires EventsFit(db, s, db.sessions[s := row], db.versions[v := version])
    ensures LinksOk(db.events, db.sessions[s := row])
    ensures RunsOk(db.events, db.attempts, db.sessions[s := row])
    ensures ContentsOk(db.events, db.sessions[s := row], db.versions[v := version])
  {
    var sessions, versions := db.sessions[s := row], db.versions[v := version];
    assert ActiveVersionOk(db.sessions, s, db.versions);
    forall i | 0 <= i < |db.events|
      ensures LinkOk(db.events[i], sessions) && RunningOk(db.events[i], db.attempts, sessions)
           && ContentOk(db.events[i], sessions, versions)
    {
      var e := db.events[i];
      assert LinkOk(e, db.sessions);
      if e.sessionId != s {
        assert RunningOk(e, db.attempts, db.sessions);
        assert ContentOk(e, db.sessions, db.versions);
        assert ActiveVersionOk(db.sessions, e.sessionId, db.versions);
      }
    }
  }

  /** Only the budget columns of a session differ, or nothing does. */
  lemma NoActiveEventFits(db: Db, s: nat, row: Session, versions: seq<Version>)
    requires ProtocolOk(db) && s < |db.sessions| && row.userId == db.sessions[s].userId
    requires forall i | 0 <= i < |db.events| :: db.events[i].sessionId == s ==> !Outbox.Active(db.events[i])
    ensures EventsFit(db, s, db.sessions[s := row], versions)
  {
  }

  /** A session waiting for review, or done, has no active event: the index accepts its next one. */
  lemma IdleHasNoActiveEvent(db: Db, s: nat)
    requires ProtocolOk(db) && s < |db.sessions|
    requires db.sessions[s].status !in {Queued, Processing}
    ensures Outbox.IndexAllows(db.events, s)
  {
  }

  // ------------------------------------------------------------------ acquisition

  lemma LeaseInserted(db: Db, owner: Token, version: nat, a: Attempt)
    requires ProtocolOk(db) && owner in db.attempts && db.attempts[owner].stage == Claimed
    requires a.stage == Running(version) && Outbox.AttemptOk(a, db.events) && a.eventId == db.attempts[owner].eventId
    requires Leases.ActiveLease(db.leases, a.sessionId).None?
    requires a.sessionId < |db.sessions| && db.sessions[a.sessionId].status == Processing
    ensures ProtocolOk(db.(leases := Leases.Insert(db.leases, db.clock, a.sessionId, owner, version),
                           attempts := db.attempts[owner := a]))
  {
    var attempts := db.attempts[owner := a];
    var leases := Leases.Insert(db.leases, db.clock, a.sessionId, owner, version);
    forall i | 0 <= i < |db.events|
      ensures Outbox.EventOk(db.events[i], i, attempts) && RunningOk(db.events[i], attempts, db.sessions)
    {
      assert Outbox.EventOk(db.events[i], i, db.attempts);
      assert RunningOk(db.events[i], db.attempts, db.sessions);
    }
    forall i | 0 <= i < |leases| ensures Leases.LeaseOk(leases[i], attempts) && (i < |db.leases| ==> leases[i].owner != owner) {
      assert i < |db.leases| ==> Leases.LeaseOk(db.leases[i], db.attempts);
    }
  }

  lemma ProcessingFits(db: Db, s: nat, row: Session, v: nat, version: Version)
    requires ProtocolOk(db) && s < |db.sessions| && ActiveVersion(db, s) == Some(v)
    requires row.userId == db.sessions[s].userId && row.activeVersion == Some(v) && row.status == Processing
    requires version.approvedOutline == db.versions[v].approvedOutline && version.outlineData == db.versions[v].outlineData
    requires version.finalContent == db.versions[v].finalContent
    ensures EventsFit(db, s, db.sessions[s := row], db.versions[v := version])
  {
  }

  /** The attempt's next acquisition would go through. */
  predicate WouldAcquire(db: Db, owner: Token) {
    && owner in db.attempts && db.attempts[owner].stage == Claimed
    && var a := db.attempts[owner];
       WantsJob(db, a.sessionId, a.phase) && AcquireLease(db, a.sessionId, a.phase, owner).Acquired?
  }

  /** Where an attempt that does not acquire its session stops. */
  function StopStage(db: Db, owner: Token): Stage
    requires owner in db.attempts
  {
    var a := db.attempts[owner];
    if !WantsJob(db, a.sessionId, a.phase) then Obsolete
    else if AcquireLease(db, a.sessionId, a.phase, owner).NotAcquired? then Blocked
    else Abandoned
  }

  /** An acquisition that does not go through changes only where its attempt stands. */
  lemma AcquireStops(db: Db, owner: Token)
    requires owner in db.attempts && db.attempts[owner].stage == Claimed && !WouldAcquire(db, owner)
    ensures Acquire(db, owner) == SetStage(db, owner, StopStage(db, owner))
  {
  }

  /** Acquisition is the end of an expired lease, the move to PROCESSING, and a new lease row. */
  lemma AcquireKeeps(db: Db, owner: Token)
    requires ProtocolOk(db)
    ensures ProtocolOk(Acquire(db, owner))
  {
    if owner in db.attempts && db.attempts[owner].stage == Claimed {
      if WouldAcquire(db, owner) {
        var acquired := AcquireLease(db, db.attempts[owner].sessionId, db.attempts[owner].phase, owner);
        AcquiredKeeps(db, owner, acquired.db, acquired.leaseVersion);
      } else {
        AcquireStops(db, owner);
        AttemptStopped(db, owner, StopStage(db, owner));
      }
    }
  }

  /** The leases left when the acquisition has dealt with an expired open one. */
  function FreedLeases(db: Db, s: nat): seq<Lease> {
    var current := Leases.ActiveLease(db.leases, s);
    if current.Some? then Leases.End(db.leases, db.clock, current.value) else db.leases
  }

  /** What a first acquisition does: end the expired lease if there is one, insert the
      owner's own, and move session and active version to PROCESSING. */
  lemma AcquiredShape(db: Db, owner: Token, after: Db, version: nat)
    requires Leases.LeasesOk(db.leases, db.attempts)
    requires owner in db.attempts && db.attempts[owner].stage == Claimed
    requires db.attempts[owner].sessionId < |db.sessions|
    requires AcquireLease(db, db.attempts[owner].sessionId, db.attempts[owner].phase, owner) == Acquired(after, version)
    ensures var a := db.attempts[owner];
            var s := a.sessionId;
            var active := ActiveVersion(db, s);
            && active.Some?
            && after == db.(
                 leases := Leases.Insert(FreedLeases(db, s), db.clock, s, owner, version),
                 sessions := db.sessions[s := db.sessions[s].(status := Processing, jobPhase := Some(a.phase))],
                 versions := db.versions[active.value :=
                   db.versions[active.value].(status := Processing, jobPhase := a.phase)])
  {
    var s := db.attempts[owner].sessionId;
    var phase := db.attempts[owner].phase;
    var current := Leases.ActiveLease(db.leases, s);
    assert current.Some? ==> Leases.LeaseOk(db.leases[current.value], db.attempts);
    if current.Some? {
      MarkedProcessing(db.(leases := FreedLeases(db, s),
                           sessions := db.sessions[s := db.sessions[s].(status := Queued)]), s, phase);
      var row := db.sessions[s].(status := Processing, jobPhase := Some(phase));
      assert db.sessions[s := db.sessions[s].(status := Queued)][s := row] == db.sessions[s := row];
    }
  }

  lemma MarkedProcessing(db: Db, s: nat, phase: Phase)
    requires s < |db.sessions| && ActiveVersion(db, s).Some?
    ensures var v := ActiveVersion(db, s).value;
            MarkProcessing(db, s, phase) == db.(
              sessions := db.sessions[s := db.sessions[s].(status := Processing, jobPhase := Some(phase))],
              versions := db.versions[v := db.versions[v].(status := Processing, jobPhase := phase)])
  {
  }

  lemma AcquiredKeeps(db: Db, owner: Token, after: Db, version: nat)
    requires ProtocolOk(db)
    requires owner in db.attempts && db.attempts[owner].stage == Claimed
    requires WantsJob(db, db.attempts[owner].sessionId, db.attempts[owner].phase)
    requires AcquireLease(db, db.attempts[owner].sessionId, db.attempts[owner].phase, owner) == Acquired(after, version)
    ensures ProtocolOk(Acquire(db, owner))
  {
    var s := db.attempts[owner].sessionId;
    AcquiredShape(db, owner, after, version);
    LeaseFreed(db, s);
    var freed := db.(leases := FreedLeases(db, s));
    var v := ActiveVersion(db, s).value;
    ProcessingFits(freed, s, after.sessions[s], v, after.versions[v]);
    assert ActiveVersionOk(db.sessions, s, db.versions);
    SessionMoved(freed, s, after.sessions[s], v, after.versions[v]);
    var moved := freed.(sessions := after.sessions, versions := after.versions);
    OwnerIsTheSessions(db, owner);
    LeaseInserted(moved, owner, version, Acquire(db, owner).attempts[owner]);
  }

  /** The tables a successful acquisition leaves. */
  lemma AcquiredTables(db: Db, owner: Token)
    requires ProtocolOk(db) && WouldAcquire(db, owner)
    ensures var a := db.attempts[owner];
            var after := Acquire(db, owner);
            && after.events == db.events
            && after.reservations == db.reservations
            && a.sessionId < |db.sessions|
            && after.sessions == db.sessions[a.sessionId :=
                 db.sessions[a.sessionId].(status := Processing, jobPhase := Some(a.phase))]
            && ActiveVersion(db, a.sessionId).Some?
            && after.versions == db.versions[ActiveVersion(db, a.sessionId).value :=
                 db.versions[ActiveVersion(db, a.sessionId).value].(status := Processing, jobPhase := a.phase)]
            && (forall t | t in after.attempts && after.attempts[t].stage == Obsolete ::
                  t in db.attempts && db.attempts[t] == after.attempts[t])
  {
    var a := db.attempts[owner];
    var acquired := AcquireLease(db, a.sessionId, a.phase, owner);
    AcquiredShape(db, owner, acquired.db, acquired.leaseVersion);
  }

  /** The hydrated job names the user of its session. */
  lemma OwnerIsTheSessions(db: Db, owner: Token)
    requires ProtocolOk(db) && owner in db.attempts
    ensures var a := db.attempts[owner];
            Outbox.AttemptOk(a, db.events) && a.sessionId < |db.sessions| && a.userId == db.sessions[a.sessionId].userId
  {
  }

  lemma LeaseFreed(db: Db, s: nat)
    requires ProtocolOk(db)
    ensures ProtocolOk(db.(leases := FreedLeases(db, s)))
    ensures Leases.ActiveLease(FreedLeases(db, s), s).None?
  {
  }

  // ------------------------------------------------------------ retry and persistence

  /** A retry either finds no attempt left and changes nothing, or puts the event and
      its session back together and ends the attempt's lease. */
  lemma ScheduleRetryShape(db: Db, owner: Token)
    requires ProtocolOk(db) && IsRunning(db, owner)
    ensures var a := db.attempts[owner];
            var s := a.sessionId;
            var events := Outbox.Retry(db.events, db.clock, a.eventId, owner);
            var active := ActiveVersion(db, s);
            && active.Some?
            && (if !Outbox.CurrentClaim(db.events, a.eventId, owner, db.clock)
                then ScheduleRetry(db, owner) == RolledBack(OwnershipLost)
                else if events.None? then ScheduleRetry(db, owner) == Committed(db)
                else
                  && db.sessions[s].status == Processing
                  && ScheduleRetry(db, owner) == Committed(db.(
                       events := events.value,
                       sessions := db.sessions[s := db.sessions[s].(status := Queued)],
                       versions := db.versions[active.value :=
                         db.versions[active.value].(status := Queued, jobPhase := a.phase)],
                       leases := Leases.ReleaseLease(db.leases, db.clock, s, owner, a.stage.leaseVersion))))
  {
    var a := db.attempts[owner];
    OwnerIsTheSessions(db, owner);
    assert ActiveVersionOk(db.sessions, a.sessionId, db.versions);
    assert RunningOk(db.events[a.eventId], db.attempts, db.sessions);
  }

  lemma ScheduleRetryKeeps(db: Db, owner: Token)
    requires ProtocolOk(db) && IsRunning(db, owner)
    ensures ProtocolOk(ScheduleRetry(db, owner).After(db))
  {
    var a := db.attempts[owner];
    var s := a.sessionId;
    ScheduleRetryShape(db, owner);
    if Outbox.CurrentClaim(db.events, a.eventId, owner, db.clock)
       && Outbox.Retry(db.events, db.clock, a.eventId, owner).Some? {
      OwnerIsTheSessions(db, owner);
      RetryKeeps(db, a.eventId, owner);
      var retried := db.(events := Outbox.Retry(db.events, db.clock, a.eventId, owner).value);
      assert ActiveVersionOk(db.sessions, s, db.versions);
      var v := ActiveVersion(db, s).value;
      var row := db.sessions[s].(status := Queued);
      var version := db.versions[v].(status := Queued, jobPhase := a.phase);
      PendingFits(retried, a.eventId, s, row, v, version);
      SessionMoved(retried, s, row, v, version);
      ReleaseKeeps(retried.(sessions := retried.sessions[s := row], versions := retried.versions[v := version]), owner);
    }
  }

  lemma PendingFits(db: Db, id: nat, s: nat, row: Session, v: nat, version: Version)
    requires ProtocolOk(db) && s < |db.sessions| && ActiveVersion(db, s) == Some(v)
    requires id < |db.events| && db.events[id].sessionId == s && db.events[id].status == EventPending
    requires row == db.sessions[s].(status := Queued)
    requires version == db.versions[v].(status := Queued, jobPhase := version.jobPhase)
    ensures EventsFit(db, s, db.sessions[s := row], db.versions[v := version])
  {
  }

  /** A result that ends the claim and moves the session out of PROCESSING. */
  lemma ResultKeeps(db: Db, owner: Token, status: EventStatus, row: Session, version: Version)
    requires ProtocolOk(db) && IsRunning(db, owner) && OwnsAttempt(db, owner)
    requires status == EventProcessed || status == EventFailed
    requires row.userId == db.sessions[db.attempts[owner].sessionId].userId
    requires row.activeVersion == db.sessions[db.attempts[owner].sessionId].activeVersion
    requires ActiveVersion(db, db.attempts[owner].sessionId).Some?
    requires version.sessionId == db.attempts[owner].sessionId
    requires version.number == db.versions[ActiveVersion(db, db.attempts[owner].sessionId).value].number
    requires version.status == row.status
    requires row.status == AwaitingFinalReview ==> version.finalContent != ""
    ensures var a := db.attempts[owner];
            var v := ActiveVersion(db, a.sessionId).value;
            && Outbox.Finish(db.events, a.eventId, owner, status).Some?
            && ProtocolOk(db.(events := Outbox.Finish(db.events, a.eventId, owner, status).value,
                              sessions := db.sessions[a.sessionId := row],
                              versions := db.versions[v := version]))
  {
    var a := db.attempts[owner];
    var v := ActiveVersion(db, a.sessionId).value;
    assert Outbox.AttemptOk(a, db.events);
    FinishKeeps(db, a.eventId, owner, status);
    var finished := db.(events := Outbox.Finish(db.events, a.eventId, owner, status).value);
    forall i | 0 <= i < |finished.events| && finished.events[i].sessionId == a.sessionId
      ensures !Outbox.Active(finished.events[i])
    {
      assert i < a.eventId || i > a.eventId || i == a.eventId;
    }
    NoActiveEventFits(finished, a.sessionId, row, db.versions[v := version]);
    SessionMoved(finished, a.sessionId, row, v, version);
  }
}
