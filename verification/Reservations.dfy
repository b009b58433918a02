/** A session's reservation is open exactly while the session needs it, as long as no
    acquisition crosses the revision boundary: an attempt of a revision job acquiring a
    session of an earlier phase, or the other way round.  Nothing else breaks it. */
module Reservations {
  import opened Rows
  import opened Tables
  import opened Workflow
  import opened Invariant
  import opened Protocol
  import opened Transactions
  import opened Fencing
  import opened Coherence
  import opened Phases
  import opened Losses
  import Reachable
  import Accounting
  import Budget
  import Charging
  import Outbox
  import Lifecycle

  /** Nothing the reservation depends on has changed for this session. */
  predicate NeedKept(db: Db, after: Db, s: nat) {
    && s < |db.sessions| && s < |after.sessions|
    && after.sessions[s].status == db.sessions[s].status
    && after.sessions[s].jobPhase == db.sessions[s].jobPhase
    && (Budget.OpenReservation(after.reservations, s) <==> Budget.OpenReservation(db.reservations, s))
    && ActiveVersion(db, s).Some? && ActiveVersion(after, s).Some?
    && after.versions[ActiveVersion(after, s).value].status == db.versions[ActiveVersion(db, s).value].status
  }

  lemma KeptExact(db: Db, after: Db)
    requires ReservationsExact(db)
    requires forall s | 0 <= s < |after.sessions| :: NeedKept(db, after, s) || ReservationExact(after, s)
    ensures ReservationsExact(after)
  {
    forall s | 0 <= s < |after.sessions| ensures ReservationExact(after, s) {
      assert NeedKept(db, after, s) || ReservationExact(after, s);
      if NeedKept(db, after, s) {
        assert ReservationExact(db, s);
      }
    }
  }

  /** Only one session row, its active version and its reservation differ. */
  ghost predicate OnlySession(db: Db, after: Db, s: nat, v: nat)
    requires s < |db.sessions| && v < |db.versions|
  {
    && |after.sessions| == |db.sessions| && |after.versions| == |db.versions|
    && after.sessions == db.sessions[s := after.sessions[s]]
    && after.versions == db.versions[v := after.versions[v]]
    && after.sessions[s].activeVersion == db.sessions[s].activeVersion
    && (forall z | z != s :: Budget.OpenReservation(after.reservations, z) <==> Budget.OpenReservation(db.reservations, z))
  }

  lemma OthersKept(db: Db, after: Db, s: nat, v: nat)
    requires ProtocolOk(db) && ReservationsExact(db)
    requires s < |db.sessions| && ActiveVersion(db, s) == Some(v) && OnlySession(db, after, s, v)
    requires ReservationExact(after, s)
    ensures ReservationsExact(after)
  {
    forall z: nat | z < |after.sessions| && z != s ensures NeedKept(db, after, z) {
      assert ActiveVersionOk(db.sessions, z, db.versions) && ActiveVersionOk(db.sessions, s, db.versions);
    }
    KeptExact(db, after);
  }

  lemma QuietExact(db: Db, after: Db)
    requires ReservationsExact(db)
    requires after.sessions == db.sessions && after.versions == db.versions && after.reservations == db.reservations
    ensures ReservationsExact(after)
  {
    forall s | 0 <= s < |after.sessions| ensures ReservationExact(after, s) {
      assert ReservationExact(db, s);
    }
  }

  lemma QuietStepExact(db: Db, step: Step)
    requires ReservationsExact(db)
    requires step.Tick? || step.GrantBudget? || step.Dispatched? || step.ClaimDelivery? || step.CompleteStale?
          || step.RetryLocked? || step.BeatOnce? || step.ReleaseSession?
    ensures ReservationsExact(Next(db, step))
  {
    QuietExact(db, Next(db, step));
  }

  /** The acquisition stays on its side of the revision boundary. */
  predicate KeepsSide(db: Db, step: Step) {
    step.AcquireSession? && WouldAcquire(db, step.owner) ==>
      (db.attempts[step.owner].phase == Revision
       <==> db.sessions[db.attempts[step.owner].sessionId].jobPhase == Some(Revision))
  }

  lemma AcquireExact(db: Db, owner: Token)
    requires ProtocolOk(db) && PhasesOk(db) && ReservationsExact(db) && KeepsSide(db, AcquireSession(owner))
    ensures ReservationsExact(Acquire(db, owner))
  {
    if WouldAcquire(db, owner) {
      AcquiredExactly(db, owner);
      AcquiredOnly(db, owner);
      var s := db.attempts[owner].sessionId;
      OthersKept(db, Acquire(db, owner), s, ActiveVersion(db, s).value);
    } else if owner in db.attempts && db.attempts[owner].stage == Claimed {
      AcquireStops(db, owner);
      QuietExact(db, SetStage(db, owner, StopStage(db, owner)));
    }
  }

  lemma AcquiredOnly(db: Db, owner: Token)
    requires ProtocolOk(db) && WouldAcquire(db, owner)
    ensures var s := db.attempts[owner].sessionId;
            && s < |db.sessions| == |Acquire(db, owner).sessions| && ActiveVersion(db, s).Some?
            && OnlySession(db, Acquire(db, owner), s, ActiveVersion(db, s).value)
  {
    AcquiredTables(db, owner);
  }

  /** The acquired session itself: its reservation still fits exactly when the acquisition
      kept to its side of the revision boundary. */
  lemma AcquiredExactly(db: Db, owner: Token)
    requires ProtocolOk(db) && PhasesOk(db) && ReservationsExact(db) && WouldAcquire(db, owner)
    ensures var s := db.attempts[owner].sessionId;
            && s < |db.sessions| == |Acquire(db, owner).sessions| && ActiveVersion(db, s).Some?
            && (ReservationExact(Acquire(db, owner), s) <==> KeepsSide(db, AcquireSession(owner)))
  {
    AcquiredTables(db, owner);
    var s := db.attempts[owner].sessionId;
    assert RowPhase(db.sessions[s]);
    MarkedExactly(db, Acquire(db, owner), s, ActiveVersion(db, s).value, db.attempts[owner].phase);
  }

  lemma MarkedExactly(db: Db, after: Db, s: nat, v: nat, phase: Phase)
    requires s < |db.sessions| && ActiveVersion(db, s) == Some(v)
    requires ReservationsExact(db) && StatusesOk(db.sessions, db.versions)
    requires db.sessions[s].status in {Queued, Processing} && db.sessions[s].jobPhase.Some?
    requires after.reservations == db.reservations
    requires after.sessions == db.sessions[s := db.sessions[s].(status := Processing, jobPhase := Some(phase))]
    requires after.versions == db.versions[v := db.versions[v].(status := Processing, jobPhase := phase)]
    ensures ReservationExact(after, s) <==> (phase == Revision <==> db.sessions[s].jobPhase == Some(Revision))
  {
    assert ReservationExact(db, s) && StatusOk(db.sessions, s, db.versions);
    ThreePhases(db.sessions[s].jobPhase.value);
    ThreePhases(phase);
    assert ActiveVersion(after, s) == Some(v);
  }

  lemma ThreePhases(phase: Phase)
    ensures phase == FreshGeneration || phase == ResearchPhase || phase == Revision
  {
  }

  /** A successful acquisition keeps reservations exact if and only if the attempt is of a
      revision job exactly when its session is. */
  lemma AcquisitionReservationsExactly(db: Db, owner: Token)
    requires ProtocolOk(db) && PhasesOk(db) && ReservationsExact(db) && WouldAcquire(db, owner)
    ensures ReservationsExact(Acquire(db, owner))
       <==> (db.attempts[owner].phase == Revision
             <==> db.sessions[db.attempts[owner].sessionId].jobPhase == Some(Revision))
  {
    AcquiredExactly(db, owner);
    if KeepsSide(db, AcquireSession(owner)) {
      AcquireExact(db, owner);
    }
  }

  // ------------------------------------------------------------------------- results

  /** What a checkpoint does to reservations: a final result and an agent rejection close
      their session's, an outline leaves it open. */
  lemma SuccessReservations(db: Db, owner: Token, result: RunResult)
    requires IsRunning(db, owner) && PersistSuccess(db, owner, result).Committed?
    ensures var a := db.attempts[owner];
            var after := PersistSuccess(db, owner, result).db;
            && (forall z | z != a.sessionId ::
                  Budget.OpenReservation(after.reservations, z) <==> Budget.OpenReservation(db.reservations, z))
            && (Budget.OpenReservation(after.reservations, a.sessionId)
                <==> Budget.OpenReservation(db.reservations, a.sessionId) && a.phase == FreshGeneration && result.intentClear)
  {
    CommittedThroughCheckpoint(db, owner, result);
    var a := db.attempts[owner];
    var v := ActiveVersion(db, a.sessionId).value;
    CheckpointReservations(db, a, v, result);
  }

  lemma CheckpointReservations(db: Db, a: Attempt, v: nat, result: RunResult)
    requires a.sessionId < |db.sessions| && v < |db.versions|
    requires Checkpoint(db, a, v, result).Committed?
    ensures var after := Checkpoint(db, a, v, result).db;
            && (forall z | z != a.sessionId ::
                  Budget.OpenReservation(after.reservations, z) <==> Budget.OpenReservation(db.reservations, z))
            && (Budget.OpenReservation(after.reservations, a.sessionId)
                <==> Budget.OpenReservation(db.reservations, a.sessionId) && a.phase == FreshGeneration && result.intentClear)
  {
    Charging.UsageOnlyCharges(db, a.userId, a.sessionId, db.versions[v].number, result.usage);
    if a.phase != FreshGeneration {
      FinalReservations(db, a, v, result);
    } else if result.intentClear {
      assert OutlineCheckpoint(db, a, v, result).db.reservations == db.reservations;
    } else {
      RejectionReservations(db, a, v, result);
    }
  }

  lemma FinalReservations(db: Db, a: Attempt, v: nat, result: RunResult)
    requires a.sessionId < |db.sessions| && v < |db.versions|
    requires FinalCheckpoint(db, a, v, result).Committed?
    ensures SettledOnly(db, FinalCheckpoint(db, a, v, result).db, a.sessionId)
  {
    Charging.UsageOnlyCharges(db, a.userId, a.sessionId, db.versions[v].number, result.usage);
  }

  lemma RejectionReservations(db: Db, a: Attempt, v: nat, result: RunResult)
    requires a.sessionId < |db.sessions| && v < |db.versions|
    requires AgentRejection(db, a, v, result).Committed?
    ensures SettledOnly(db, AgentRejection(db, a, v, result).db, a.sessionId)
  {
    Charging.UsageOnlyCharges(db, a.userId, a.sessionId, db.versions[v].number, result.usage);
  }

  /** The session's reservation is closed, and no other has changed. */
  predicate SettledOnly(db: Db, after: Db, s: nat) {
    && !Budget.OpenReservation(after.reservations, s)
    && (if s in db.reservations then
          s in after.reservations && after.reservations == db.reservations[s := after.reservations[s]]
        else after.reservations == db.reservations)
  }

  lemma SuccessExact(db: Db, owner: Token, result: RunResult)
    requires ProtocolOk(db) && PhasesOk(db) && ReservationsExact(db) && IsRunning(db, owner)
    ensures ReservationsExact(PersistSuccess(db, owner, result).After(db))
  {
    if PersistSuccess(db, owner, result).Committed? {
      var after := PersistSuccess(db, owner, result).db;
      var s := db.attempts[owner].sessionId;
      PersistSuccessShape(db, owner, result);
      SuccessReservations(db, owner, result);
      SuccessSession(db, owner, result);
      OthersKept(db, after, s, ActiveVersion(db, s).value);
    }
  }

  /** The session of the result itself. */
  lemma SuccessSession(db: Db, owner: Token, result: RunResult)
    requires ProtocolOk(db) && PhasesOk(db) && ReservationsExact(db) && IsRunning(db, owner)
    requires PersistSuccess(db, owner, result).Committed?
    ensures var s := db.attempts[owner].sessionId;
            s < |PersistSuccess(db, owner, result).db.sessions| && ReservationExact(PersistSuccess(db, owner, result).db, s)
  {
    var s := db.attempts[owner].sessionId;
    PersistSuccessShape(db, owner, result);
    SuccessReservations(db, owner, result);
    OwnerHasPhase(db, owner);
    assert ReservationExact(db, s);
  }

  lemma FailureExact(db: Db, owner: Token)
    requires ProtocolOk(db) && Accounting.AccountingOk(db) && ReservationsExact(db) && IsRunning(db, owner)
    ensures ReservationsExact(PersistFailure(db, owner).After(db))
  {
    if PersistFailure(db, owner).Committed? {
      var after := PersistFailure(db, owner).db;
      var s := db.attempts[owner].sessionId;
      assert ActiveVersionOk(db.sessions, s, db.versions);
      PersistFailureShape(db, owner);
      FailureReservations(db, owner);
      assert ReservationExact(after, s);
      OthersKept(db, after, s, ActiveVersion(db, s).value);
    }
  }

  lemma FailureReservations(db: Db, owner: Token)
    requires forall s | s in db.reservations :: Budget.ReservationOk(db, s)
    requires IsRunning(db, owner) && PersistFailure(db, owner).Committed?
    ensures var s := db.attempts[owner].sessionId;
            var after := PersistFailure(db, owner).db;
            && (forall z | z != s ::
                  Budget.OpenReservation(after.reservations, z) <==> Budget.OpenReservation(db.reservations, z))
            && !Budget.OpenReservation(after.reservations, s)
  {
    var a := db.attempts[owner];
    assert a.sessionId in db.reservations ==> Budget.ReservationOk(db, a.sessionId);
    var marked := UpdateStatus(SetVersionJob(db, a.sessionId, Failed, a.phase), a.sessionId, Failed).db;
    ReleasesAll(marked, a.userId, a.sessionId);
  }

  lemma ReleasesAll(db: Db, user: nat, s: nat)
    requires s in db.reservations ==> db.reservations[s].usd > 0
    ensures SettledOnly(db, Budget.ReleaseAll(db, user, s), s)
  {
  }

  lemma RetryExact(db: Db, owner: Token)
    requires ProtocolOk(db) && ReservationsExact(db) && IsRunning(db, owner)
    ensures ReservationsExact(ScheduleRetry(db, owner).After(db))
  {
    ScheduleRetryShape(db, owner);
    OwnerIsTheSessions(db, owner);
    var after := ScheduleRetry(db, owner).After(db);
    var s := db.attempts[owner].sessionId;
    assert ReservationExact(db, s) && StatusOk(db.sessions, s, db.versions);
    if after != db {
      OthersKept(db, after, s, ActiveVersion(db, s).value);
    }
  }

  // ---------------------------------------------------------------------- API and reaper

  lemma OutlineReviewExact(db: Db, user: nat, s: nat, outline: string)
    requires ProtocolOk(db) && PhasesOk(db) && ReservationsExact(db)
    ensures ReservationsExact(SubmitOutlineReview(db, user, s, outline).After(db))
  {
    var outcome := SubmitOutlineReview(db, user, s, outline);
    if outcome.Committed? {
      assert ReservationExact(db, s) && RowPhase(db.sessions[s]);
      OthersKept(db, outcome.db, s, ActiveVersion(db, s).value);
    }
  }

  lemma FinalReviewExact(db: Db, user: nat, s: nat, action: ReviewAction)
    requires ProtocolOk(db) && ReservationsExact(db)
    ensures ReservationsExact(SubmitFinalReview(db, user, s, action).After(db))
  {
    var outcome := SubmitFinalReview(db, user, s, action);
    if outcome.Committed? {
      assert ReservationExact(db, s);
      if action == RequestRevision {
        RevisionExact(db, s, outcome.db);
      } else {
        OthersKept(db, outcome.db, s, ActiveVersion(db, s).value);
      }
    }
  }

  lemma RevisionExact(db: Db, s: nat, after: Db)
    requires ProtocolOk(db) && ReservationsExact(db)
    requires s < |db.sessions| && db.sessions[s].status == AwaitingFinalReview
    requires SubmitFinalReview(db, db.sessions[s].userId, s, RequestRevision) == Committed(after)
    ensures ReservationsExact(after)
  {
    assert ReservationExact(db, s);
    assert db.versions <= after.versions && after.reservations == db.reservations;
    forall z: nat | z < |after.sessions| && z != s ensures NeedKept(db, after, z) {
      assert ActiveVersionOk(db.sessions, z, db.versions);
    }
    KeptExact(db, after);
  }

  lemma CreateExact(db: Db, user: nat, lockFree: bool)
    requires ProtocolOk(db) && ReservationsExact(db)
    ensures ReservationsExact(CreateGeneration(db, user, lockFree).After(db))
  {
    var outcome := CreateGeneration(db, user, lockFree);
    if outcome.Committed? {
      var after := outcome.db;
      var s := |db.sessions|;
      assert after.reservations == db.reservations[s := after.reservations[s]];
      forall z: nat | z < s ensures NeedKept(db, after, z) {
        assert ActiveVersionOk(db.sessions, z, db.versions);
      }
      assert ReservationExact(after, s);
      KeptExact(db, after);
    }
  }

  /** The named exception: the reaper fails a session without releasing its reservation or
      touching its version, which is what Exhausted records. */
  lemma ReaperExact(db: Db, skipped: set<nat>)
    requires ProtocolOk(db) && ReservationsExact(db)
    ensures ReservationsExact(FailExhaustedClaims(db, skipped))
    ensures FailExhaustedClaims(db, skipped).reservations == db.reservations
    ensures FailExhaustedClaims(db, skipped).versions == db.versions
  {
    var after := FailExhaustedClaims(db, skipped);
    forall s | 0 <= s < |after.sessions| ensures ReservationExact(after, s) {
      ReapedRow(db, skipped, s);
      if s in Outbox.ExhaustedSessions(db.events, db.clock, skipped) {
        DoomedIsInProgress(db, skipped, s);
      }
      ReapedExact(db, after, s);
    }
  }

  lemma ReapedExact(db: Db, after: Db, s: nat)
    requires s < |db.sessions| && |after.sessions| == |db.sessions|
    requires ReservationExact(db, s) && StatusOk(db.sessions, s, db.versions)
    requires after.versions == db.versions && after.reservations == db.reservations
    requires || after.sessions[s] == db.sessions[s]
             || (db.sessions[s].status in {Queued, Processing} && after.sessions[s] == db.sessions[s].(status := Failed))
    ensures ReservationExact(after, s)
  {
  }

  // ----------------------------------------------------------------------- whole runs

  lemma NextExact(db: Db, step: Step)
    requires Reachable.Inv(db) && PhasesOk(db) && ReservationsExact(db) && KeepsSide(db, step)
    ensures ReservationsExact(Next(db, step))
  {
    match step
    case Create(user, lockFree) => CreateExact(db, user, lockFree);
    case ReviewOutline(user, session, outline) => OutlineReviewExact(db, user, session, outline);
    case ReviewFinal(user, session, action) => FinalReviewExact(db, user, session, action);
    case AcquireSession(owner) => AcquireExact(db, owner);
    case SaveSuccess(owner, result) => if IsRunning(db, owner) { SuccessExact(db, owner, result); }
    case SaveFailure(owner) => if IsRunning(db, owner) { FailureExact(db, owner); }
    case RetryLater(owner) => if IsRunning(db, owner) { RetryExact(db, owner); }
    case ReapExhausted(skipped) => ReaperExact(db, skipped);
    case _ => QuietStepExact(db, step);
  }

  /** From a state with exact reservations a step keeps them exact if and only if it is no
      acquisition across the revision boundary. */
  lemma StepExactly(db: Db, step: Step)
    requires Reachable.Inv(db) && PhasesOk(db) && ReservationsExact(db)
    ensures ReservationsExact(Next(db, step)) <==> KeepsSide(db, step)
  {
    if KeepsSide(db, step) {
      NextExact(db, step);
    } else {
      AcquisitionReservationsExactly(db, step.owner);
    }
  }

  /** No acquisition among the steps crosses the revision boundary. */
  predicate NeverCrosses(steps: seq<Step>) {
    forall i | 0 <= i < |steps| :: KeepsSide(Run(EMPTY, steps[..i]), steps[i])
  }

  predicate AlwaysExact(steps: seq<Step>) {
    forall i | 0 <= i <= |steps| :: ReservationsExact(Run(EMPTY, steps[..i]))
  }

  lemma StepOfRun(steps: seq<Step>, i: nat)
    requires i < |steps|
    ensures Run(EMPTY, steps[..i + 1]) == Next(Run(EMPTY, steps[..i]), steps[i])
  {
    assert steps[..i + 1] == steps[..i] + [steps[i]];
    RunThen(EMPTY, steps[..i], steps[i]);
  }

  lemma StateAt(steps: seq<Step>, i: nat)
    requires i <= |steps|
    ensures Reachable.Inv(Run(EMPTY, steps[..i])) && PhasesOk(Run(EMPTY, steps[..i]))
  {
    Reachable.ReachableIsOk(steps[..i]);
    PhasesInEveryRun(steps[..i]);
  }

  lemma {:induction false} ExactUpTo(steps: seq<Step>, i: nat)
    requires NeverCrosses(steps) && i <= |steps|
    ensures ReservationsExact(Run(EMPTY, steps[..i]))
  {
    if i > 0 {
      ExactUpTo(steps, i - 1);
      StepOfRun(steps, i - 1);
      StateAt(steps, i - 1);
      StepExactly(Run(EMPTY, steps[..i - 1]), steps[i - 1]);
    }
  }

  /** Along a whole run every session's reservation is open exactly while the session needs
      it, if and only if no acquisition of the run crosses the revision boundary. */
  lemma ReservationsExactly(steps: seq<Step>)
    ensures AlwaysExact(steps) <==> NeverCrosses(steps)
  {
    if NeverCrosses(steps) {
      forall i | 0 <= i <= |steps| ensures ReservationsExact(Run(EMPTY, steps[..i])) {
        ExactUpTo(steps, i);
      }
    }
    if AlwaysExact(steps) {
      forall i | 0 <= i < |steps| ensures KeepsSide(Run(EMPTY, steps[..i]), steps[i]) {
        StepOfRun(steps, i);
        StateAt(steps, i);
        assert ReservationsExact(Run(EMPTY, steps[..i])) && ReservationsExact(Run(EMPTY, steps[..i + 1]));
        StepExactly(Run(EMPTY, steps[..i]), steps[i]);
      }
    }
  }

  // --------------------------------------------------------------------- coherent runs

  /** Every acquisition of the run is by an attempt of the session's own phase. */
  predicate Guarded(steps: seq<Step>) {
    forall i | 0 <= i < |steps| :: SamePhase(Run(EMPTY, steps[..i]), steps[i])
  }

  predicate AlwaysCoherent(steps: seq<Step>) {
    forall i | 0 <= i <= |steps| :: Coherent(Run(EMPTY, steps[..i]))
  }

  lemma {:induction false} CoherentUpTo(steps: seq<Step>, i: nat)
    requires Guarded(steps) && i <= |steps|
    ensures Coherent(Run(EMPTY, steps[..i]))
  {
    if i > 0 {
      CoherentUpTo(steps, i - 1);
      StepOfRun(steps, i - 1);
      ReachableProtocol(steps[..i - 1]);
      StepCoherentExactly(Run(EMPTY, steps[..i - 1]), steps[i - 1]);
    }
  }

  /** A run is coherent at every point if and only if every acquisition in it is by an
      attempt of the session's own phase. */
  lemma CoherentExactly(steps: seq<Step>)
    ensures AlwaysCoherent(steps) <==> Guarded(steps)
  {
    if Guarded(steps) {
      forall i | 0 <= i <= |steps| ensures Coherent(Run(EMPTY, steps[..i])) {
        CoherentUpTo(steps, i);
      }
    }
    if AlwaysCoherent(steps) {
      forall i | 0 <= i < |steps| ensures SamePhase(Run(EMPTY, steps[..i]), steps[i]) {
        StepOfRun(steps, i);
        ReachableProtocol(steps[..i]);
        assert Coherent(Run(EMPTY, steps[..i])) && Coherent(Run(EMPTY, steps[..i + 1]));
        StepCoherentExactly(Run(EMPTY, steps[..i]), steps[i]);
      }
    }
  }

  /** A run in which every acquisition matches phases never crosses the boundary. */
  lemma GuardedNeverCrosses(steps: seq<Step>)
    requires Guarded(steps)
    ensures NeverCrosses(steps)
  {
    forall i | 0 <= i < |steps| ensures KeepsSide(Run(EMPTY, steps[..i]), steps[i]) {
      assert SamePhase(Run(EMPTY, steps[..i]), steps[i]);
    }
  }

  ghost predicate GuardedOk(db: Db) {
    Reachable.Inv(db) && Coherent(db) && PhasesOk(db) && ReservationsExact(db)
  }

  lemma GuardedRun(steps: seq<Step>)
    requires Guarded(steps)
    ensures GuardedOk(Run(EMPTY, steps))
  {
    assert steps[..|steps|] == steps;
    Reachable.ReachableIsOk(steps);
    PhasesInEveryRun(steps);
    CoherentUpTo(steps, |steps|);
    GuardedNeverCrosses(steps);
    ExactUpTo(steps, |steps|);
  }

  /** In every run whose acquisitions match phases a session is QUEUED or PROCESSING exactly
      when it has exactly one active event; that event has the session's job phase; any other
      session has none; and the reservation is open exactly while the session needs it. */
  lemma SessionMatchesEvents(steps: seq<Step>, s: nat)
    requires Guarded(steps) && s < |Run(EMPTY, steps).sessions|
    ensures var db := Run(EMPTY, steps);
            var active := ActiveEvents(db.events, s);
            && (db.sessions[s].status in {Queued, Processing} <==> |active| == 1)
            && (db.sessions[s].status !in {Queued, Processing} <==> active == {})
            && (forall i | i in active :: db.sessions[s].jobPhase == Some(db.events[i].phase))
            && ReservationExact(db, s)
  {
    GuardedRun(steps);
    MatchesEvents(Run(EMPTY, steps), s);
  }

  lemma MatchesEvents(db: Db, s: nat)
    requires ProtocolOk(db) && Coherent(db) && s < |db.sessions|
    ensures var active := ActiveEvents(db.events, s);
            && (db.sessions[s].status in {Queued, Processing} <==> |active| == 1)
            && (db.sessions[s].status !in {Queued, Processing} <==> active == {})
            && (forall i | i in active :: db.sessions[s].jobPhase == Some(db.events[i].phase))
  {
    ActiveEventsOf(db, s);
    assert SessionCoherent(db.sessions[s], s, db.events);
    forall i | i in ActiveEvents(db.events, s) ensures db.sessions[s].jobPhase == Some(db.events[i].phase) {
      ActiveMatches(db, i);
    }
  }
}
