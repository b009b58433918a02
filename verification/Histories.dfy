/** Properties of whole runs: the session life cycle, bounded retries, dispatch, versions. */
module Histories {
  import opened Rows
  import opened Tables
  import opened Workflow
  import opened Invariant
  import opened Protocol
  import opened Transactions
  import opened Fencing
  import Reachable
  import Outbox
  import Leases
  import Lifecycle

  // -------------------------------------------------------------------- life cycle

  /** The allowed moves of one session in one transaction. */
  predicate StatusMoves(before: Status, after: Status, step: Step) {
    || after == before
    || after in Lifecycle.ValidTransitions(before)
    || (step.RetryLater? && before == Processing && after == Queued)
  }

  lemma AcquireMoves(db: Db, owner: Token, s: nat)
    requires ProtocolOk(db) && s < |db.sessions|
    ensures s < |Acquire(db, owner).sessions|
    ensures StatusMoves(db.sessions[s].status, Acquire(db, owner).sessions[s].status, AcquireSession(owner))
  {
    if owner in db.attempts && db.attempts[owner].stage == Claimed {
      if WouldAcquire(db, owner) {
        AcquiredTables(db, owner);
      } else {
        AcquireStops(db, owner);
      }
    }
  }

  lemma CreateMoves(db: Db, user: nat, lockFree: bool, s: nat)
    requires s < |db.sessions|
    ensures s < |CreateGeneration(db, user, lockFree).After(db).sessions|
    ensures CreateGeneration(db, user, lockFree).After(db).sessions[s] == db.sessions[s]
  {
  }

  lemma OutlineReviewMoves(db: Db, user: nat, session: nat, outline: string, s: nat)
    requires s < |db.sessions|
    ensures s < |SubmitOutlineReview(db, user, session, outline).After(db).sessions|
    ensures var after := SubmitOutlineReview(db, user, session, outline).After(db).sessions[s].status;
            after == db.sessions[s].status || (db.sessions[s].status == AwaitingOutlineReview && after == Queued)
  {
  }

  lemma FinalReviewMoves(db: Db, user: nat, session: nat, action: ReviewAction, s: nat)
    requires s < |db.sessions|
    ensures s < |SubmitFinalReview(db, user, session, action).After(db).sessions|
    ensures var after := SubmitFinalReview(db, user, session, action).After(db).sessions[s].status;
            || after == db.sessions[s].status
            || (db.sessions[s].status == AwaitingFinalReview && after in {Completed, Queued, Rejected})
  {
  }

  /** A result or a retry that changes anything does so for the session of an active event,
      which is PROCESSING, and touches no other session row. */
  lemma ResultRow(db: Db, step: Step)
    requires ProtocolOk(db) && Next(db, step) != db
    requires step.SaveSuccess? || step.SaveFailure? || step.RetryLater?
    ensures IsRunning(db, step.owner)
    ensures var a := db.attempts[step.owner];
            var after := Next(db, step);
            && a.eventId < |db.events| && Outbox.Active(db.events[a.eventId])
            && a.sessionId == db.events[a.eventId].sessionId
            && a.sessionId < |db.sessions| == |after.sessions| && |after.events| == |db.events|
            && db.sessions[a.sessionId].status == Processing
            && (forall z | 0 <= z < |db.sessions| && z != a.sessionId :: after.sessions[z] == db.sessions[z])
            && after.sessions[a.sessionId].status
               in (if step.RetryLater? then {Queued}
                   else {Failed, AwaitingOutlineReview, AwaitingFinalReview, AgentRejected})
  {
    match step
    case SaveSuccess(owner, result) => SuccessRow(db, owner, result);
    case SaveFailure(owner) => FailureRow(db, owner);
    case RetryLater(owner) => RetryRow(db, owner);
  }

  lemma SuccessRow(db: Db, owner: Token, result: RunResult)
    requires ProtocolOk(db) && IsRunning(db, owner) && PersistSuccess(db, owner, result).Committed?
    ensures var a := db.attempts[owner];
            var after := PersistSuccess(db, owner, result).db;
            && a.eventId < |db.events| && Outbox.Active(db.events[a.eventId])
            && a.sessionId == db.events[a.eventId].sessionId
            && a.sessionId < |db.sessions| == |after.sessions| && |after.events| == |db.events|
            && db.sessions[a.sessionId].status == Processing
            && (forall z | 0 <= z < |db.sessions| && z != a.sessionId :: after.sessions[z] == db.sessions[z])
            && after.sessions[a.sessionId].status in {AwaitingOutlineReview, AwaitingFinalReview, AgentRejected}
  {
    OwnerIsTheSessions(db, owner);
    PersistSuccessShape(db, owner, result);
  }

  lemma FailureRow(db: Db, owner: Token)
    requires ProtocolOk(db) && IsRunning(db, owner) && PersistFailure(db, owner).Committed?
    ensures var a := db.attempts[owner];
            var after := PersistFailure(db, owner).db;
            && a.eventId < |db.events| && Outbox.Active(db.events[a.eventId])
            && a.sessionId == db.events[a.eventId].sessionId
            && a.sessionId < |db.sessions| == |after.sessions| && |after.events| == |db.events|
            && db.sessions[a.sessionId].status == Processing
            && (forall z | 0 <= z < |db.sessions| && z != a.sessionId :: after.sessions[z] == db.sessions[z])
            && after.sessions[a.sessionId].status == Failed
  {
    OwnerIsTheSessions(db, owner);
    assert ActiveVersionOk(db.sessions, db.attempts[owner].sessionId, db.versions);
    PersistFailureShape(db, owner);
  }

  lemma RetryRow(db: Db, owner: Token)
    requires ProtocolOk(db) && IsRunning(db, owner) && ScheduleRetry(db, owner).After(db) != db
    ensures var a := db.attempts[owner];
            var after := ScheduleRetry(db, owner).After(db);
            && a.eventId < |db.events| && Outbox.Active(db.events[a.eventId])
            && a.sessionId == db.events[a.eventId].sessionId
            && a.sessionId < |db.sessions| == |after.sessions| && |after.events| == |db.events|
            && db.sessions[a.sessionId].status == Processing
            && (forall z | 0 <= z < |db.sessions| && z != a.sessionId :: after.sessions[z] == db.sessions[z])
            && after.sessions[a.sessionId].status == Queued
  {
    OwnerIsTheSessions(db, owner);
    ScheduleRetryShape(db, owner);
  }

  lemma ResultMoves(db: Db, step: Step, s: nat)
    requires ProtocolOk(db) && s < |db.sessions|
    requires step.SaveSuccess? || step.SaveFailure? || step.RetryLater?
    ensures s < |Next(db, step).sessions|
    ensures StatusMoves(db.sessions[s].status, Next(db, step).sessions[s].status, step)
  {
    if Next(db, step) != db {
      ResultRow(db, step);
    }
  }

  /** Every status change of every transaction is an edge of the transition table, except
      the move back from PROCESSING to QUEUED when a retry is scheduled. */
  lemma LifecycleSafety(db: Db, step: Step, s: nat)
    requires ProtocolOk(db) && s < |db.sessions|
    ensures s < |Next(db, step).sessions|
    ensures StatusMoves(db.sessions[s].status, Next(db, step).sessions[s].status, step)
  {
    match step
    case AcquireSession(owner) => AcquireMoves(db, owner, s);
    case Create(user, lockFree) => CreateMoves(db, user, lockFree, s);
    case ReviewOutline(user, session, outline) => OutlineReviewMoves(db, user, session, outline, s);
    case ReviewFinal(user, session, action) => FinalReviewMoves(db, user, session, action, s);
    case SaveSuccess(_, _) => ResultMoves(db, step, s);
    case SaveFailure(_) => ResultMoves(db, step, s);
    case RetryLater(_) => ResultMoves(db, step, s);
    case ReapExhausted(_) => ReaperMoves(db, step, s);
    case _ =>
  }

  lemma ReaperMoves(db: Db, step: Step, s: nat)
    requires step.ReapExhausted? && s < |db.sessions|
    ensures s < |Next(db, step).sessions|
    ensures StatusMoves(db.sessions[s].status, Next(db, step).sessions[s].status, step)
  {
  }

  /** A terminal status absorbs. */
  lemma {:induction false} TerminalForever(db: Db, steps: seq<Step>, s: nat)
    requires ProtocolOk(db) && s < |db.sessions| && db.sessions[s].status in Lifecycle.TERMINAL_STATES
    ensures ProtocolOk(Run(db, steps)) && s < |Run(db, steps).sessions|
    ensures Run(db, steps).sessions[s].status == db.sessions[s].status
  {
    if steps != [] {
      var before := Run(db, steps[..|steps| - 1]);
      TerminalForever(db, steps[..|steps| - 1], s);
      LifecycleSafety(before, steps[|steps| - 1], s);
      Lifecycle.TerminalMeansNoWayOut(before.sessions[s].status);
      Reachable.NextKeepsProtocol(before, steps[|steps| - 1]);
    }
  }

  // ------------------------------------------------------------------------ retries

  /** The claimed event was put back to PENDING. */
  predicate Retried(db: Db, after: Db, event: nat) {
    && event < |db.events| && db.events[event].status == EventProcessing
    && event < |after.events| && after.events[event].status == EventPending
  }

  predicate Retries(db: Db, step: Step, event: nat) {
    Retried(db, Next(db, step), event)
  }

  /** The attempt counts at which a run retried the event. */
  function RetryLog(db: Db, steps: seq<Step>, event: nat): seq<nat> {
    if steps == [] then []
    else
      var before := Run(db, steps[..|steps| - 1]);
      RetryLog(db, steps[..|steps| - 1], event)
      + if Retries(before, steps[|steps| - 1], event) then [before.events[event].attempts] else []
  }

  predicate Increasing(log: seq<nat>) {
    forall i, j | 0 <= i < j < |log| :: log[i] < log[j]
  }

  function TotalDelay(log: seq<nat>): nat {
    if log == [] then 0 else TotalDelay(log[..|log| - 1]) + Outbox.RetryDelay(log[|log| - 1])
  }

  /** The log so far fits an event's status and attempt counter. */
  predicate LogFitsEvent(log: seq<nat>, e: Event) {
    forall k | 0 <= k < |log| ::
      && (e.status == EventPending ==> log[k] <= e.attempts)
      && (e.status == EventProcessing ==> log[k] < e.attempts)
  }

  predicate LogFits(log: seq<nat>, db: Db, event: nat) {
    && Increasing(log)
    && (forall k | 0 <= k < |log| :: 1 <= log[k] < MAX_ATTEMPTS)
    && (if event < |db.events| then LogFitsEvent(log, db.events[event]) else log == [])
  }

  lemma LogStep(log: seq<nat>, db: Db, after: Db, event: nat)
    requires LogFits(log, db, event)
    requires event < |db.events| ==> RetryBounded(db, after, event)
    ensures LogFits(log + if Retried(db, after, event) then [db.events[event].attempts] else [], after, event)
  {
  }

  predicate RetryBounded(db: Db, after: Db, event: nat)
    requires event < |db.events|
  {
    && event < |after.events|
    && var e, next := db.events[event], after.events[event];
       && Outbox.LockFieldsMatch(e) && Outbox.LockFieldsMatch(next)
       && (e.lockedBy.Some? ==> e.lockedBy.value in db.attempts)
       && EventAdvances(e, next, db.attempts, db.clock)
       && (Retried(db, after, event) ==> next.attempts == e.attempts && 1 <= e.attempts < MAX_ATTEMPTS)
  }

  lemma RetryBounds(db: Db, step: Step, event: nat)
    requires ProtocolOk(db) && event < |db.events|
    ensures RetryBounded(db, Next(db, step), event)
  {
    StepAdvances(db, step);
    Reachable.NextKeepsProtocol(db, step);
    var e, after := db.events[event], Next(db, step).events[event];
    assert Outbox.EventOk(e, event, db.attempts);
    assert Outbox.EventOk(after, event, Next(db, step).attempts);
    assert EventAdvances(e, after, db.attempts, db.clock);
  }

  lemma {:induction false} LogOfRun(steps: seq<Step>, event: nat)
    ensures ProtocolOk(Run(EMPTY, steps))
    ensures LogFits(RetryLog(EMPTY, steps, event), Run(EMPTY, steps), event)
  {
    ReachableProtocol(steps);
    if steps != [] {
      LogOfRun(steps[..|steps| - 1], event);
      var before := Run(EMPTY, steps[..|steps| - 1]);
      if event < |before.events| {
        RetryBounds(before, steps[|steps| - 1], event);
      }
      LogStep(RetryLog(EMPTY, steps[..|steps| - 1], event), before, Run(EMPTY, steps), event);
    }
  }

  lemma {:induction false} IncreasingIsShort(log: seq<nat>, top: nat)
    requires Increasing(log) && forall k | 0 <= k < |log| :: 1 <= log[k] <= top
    requires top < MAX_ATTEMPTS
    ensures |log| <= top && TotalDelay(log) <= (if top == 0 then 0 else if top == 1 then 2 else if top == 2 then 6 else 14)
  {
    Outbox.RetryDelays();
    if log != [] {
      IncreasingIsShort(log[..|log| - 1], log[|log| - 1] - 1);
    }
  }

  /** In any run an event is retried at most three times, at strictly increasing attempt
      counts, with backoffs that add up to at most 14 seconds. */
  lemma RetriesAreBounded(steps: seq<Step>, event: nat)
    ensures var log := RetryLog(EMPTY, steps, event);
            Increasing(log) && |log| <= 3 && TotalDelay(log) <= 14
  {
    LogOfRun(steps, event);
    IncreasingIsShort(RetryLog(EMPTY, steps, event), 3);
  }

  /** Every retry, of either kind, waits 2, 4 or 8 seconds and asks for a new dispatch. */
  lemma RetryBacksOff(db: Db, step: Step, event: nat)
    requires ProtocolOk(db) && Retries(db, step, event)
    ensures var e := db.events[event];
            var after := Next(db, step).events[event];
            && (e.attempts == 1 || e.attempts == 2 || e.attempts == 3)
            && after.availableAt == db.clock + (if e.attempts == 1 then 2 else if e.attempts == 2 then 4 else 8)
            && after.dispatchedAt == None && after.attempts == e.attempts
  {
    Outbox.RetryDelays();
    RetryBounds(db, step, event);
  }

  // ------------------------------------------------------------- dispatch and versions

  /** In every reachable state an active event that is left alone becomes eligible for the
      relay at a known instant, at most 300 seconds away, even if every delivery is lost. */
  lemma NoActiveEventForgotten(steps: seq<Step>, event: nat, later: nat)
    requires event < |Run(EMPTY, steps).events| && Outbox.Active(Run(EMPTY, steps).events[event])
    ensures var db := Run(EMPTY, steps);
            && Outbox.LockFieldsMatch(db.events[event])
            && (Outbox.Eligible(db.events[event], later) <==> later >= Outbox.EligibleAt(db.events[event]))
            && Outbox.EligibleAt(db.events[event]) <= db.clock + REPUBLISH_SECONDS
  {
    ReachableProtocol(steps);
    var db := Run(EMPTY, steps);
    assert Outbox.EventOk(db.events[event], event, db.attempts);
    assert Outbox.EventTimesOk(db.events[event], db.clock);
    Outbox.ActiveEventBecomesEligible(db.events[event], db.clock, later);
  }

  /** get_latest_for_session: the version with the highest number. */
  predicate IsLatest(versions: seq<Version>, s: nat, v: nat) {
    && v < |versions| && versions[v].sessionId == s
    && forall u | 0 <= u < |versions| :: versions[u].sessionId == s ==> versions[u].number <= versions[v].number
  }

  lemma {:induction false} NumbersDownToOne(versions: seq<Version>, s: nat, v: nat, number: nat)
    requires NumbersDense(versions) && v < |versions| && versions[v].sessionId == s
    requires 1 <= number <= versions[v].number
    ensures HasNumber(versions, s, number)
    decreases versions[v].number
  {
    if number < versions[v].number {
      assert HasNumber(versions, s, versions[v].number - 1);
      var u: nat :| u < |versions| && versions[u].sessionId == s && versions[u].number == versions[v].number - 1;
      NumbersDownToOne(versions, s, u, number);
    }
  }

  /** The version numbers of a session are exactly 1..n, each used once, and its active
      version is number n: the latest and the active version are the same row. */
  lemma VersionsAreNumbered(steps: seq<Step>, s: nat)
    requires s < |Run(EMPTY, steps).sessions|
    ensures var db := Run(EMPTY, steps);
            var active := db.sessions[s].activeVersion;
            && active.Some? && active.value < |db.versions|
            && IsLatest(db.versions, s, active.value)
            && (forall k: nat :: 1 <= k <= db.versions[active.value].number <==> HasNumber(db.versions, s, k))
            && (forall u, v | 0 <= u < v < |db.versions| ::
                  db.versions[u].sessionId == s && db.versions[v].sessionId == s ==> db.versions[u].number != db.versions[v].number)
  {
    ReachableProtocol(steps);
    var db := Run(EMPTY, steps);
    assert ActiveVersionOk(db.sessions, s, db.versions);
    var active := db.sessions[s].activeVersion.value;
    MaxNumberIs(db.versions, s);
    forall k: nat ensures 1 <= k <= db.versions[active].number <==> HasNumber(db.versions, s, k) {
      if 1 <= k <= db.versions[active].number {
        NumbersDownToOne(db.versions, s, active, k);
      }
    }
  }
}
