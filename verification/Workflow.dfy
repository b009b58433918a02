/** Every database transaction of the API, the workers and the reaper, as a function
    from the state before to its outcome, and runs as sequences of transactions. */
module Workflow {
  import opened Rows
  import opened Tables
  import Lifecycle
  import Outbox
  import Leases
  import Budget
  import Charging
  import Quotas

  function Or(first: string, second: string): string {
    if first != "" then first else second
  }

  /** get_active_for_session */
  function ActiveVersion(db: Db, session: nat): (r: Option<nat>)
    ensures r.Some? ==> session < |db.sessions| && r.value < |db.versions|
  {
    if session < |db.sessions| && db.sessions[session].activeVersion.Some?
       && db.sessions[session].activeVersion.value < |db.versions|
    then db.sessions[session].activeVersion
    else None
  }

  // ------------------------------------------------------------------- blog service

  predicate HasActiveSession(sessions: seq<Session>, user: nat) {
    exists s | 0 <= s < |sessions| :: sessions[s].userId == user && sessions[s].status in Lifecycle.ACTIVE_STATES
  }

  /** The session and its version 1, both QUEUED for fresh generation. */
  function InsertSession(db: Db, user: nat): Db {
    db.(sessions := db.sessions + [Session(user, Queued, Some(FreshGeneration), Some(|db.versions|), 0, 0, 0, 0)],
        versions := db.versions + [Version(|db.sessions|, 1, Queued, FreshGeneration, "", "", "", "")])
  }

  /** create_generation with its commit; lockFree says whether the Redis budget lock was taken. */
  function CreateGeneration(db: Db, user: nat, lockFree: bool): Outcome {
    if HasActiveSession(db.sessions, user) then RolledBack(ActiveGenerationExists)
    else
      var quotas := Quotas.ConsumeDailySlot(db.quotas, user, DAILY_LIMIT, db.clock / SECONDS_PER_DAY);
      if quotas.None? then RolledBack(DailyLimitReached)
      else
        var session := |db.sessions|;
        var inserted := InsertSession(db.(quotas := quotas.value), user);
        if !lockFree then RolledBack(BudgetLocked)
        else
          var reserved := Budget.CheckAndReserve(inserted, user, session);
          if reserved.None? then RolledBack(InsufficientBudget)
          else
            var events := Outbox.Enqueue(db.events, db.clock, session, user, FreshGeneration);
            if events.None? then RolledBack(DuplicateActiveEvent)
            else Committed(reserved.value.(events := events.value))
  }

  /** submit_outline_review; an empty outline stands for one the schema refuses. */
  function SubmitOutlineReview(db: Db, user: nat, session: nat, outline: string): Outcome {
    if session >= |db.sessions| then RolledBack(SessionNotFound)
    else if db.sessions[session].userId != user then RolledBack(AccessDenied)
    else if db.sessions[session].status != AwaitingOutlineReview then RolledBack(WrongStatus)
    else if outline == "" then RolledBack(InvalidOutline)
    else
      var active := ActiveVersion(db, session);
      if active.None? then RolledBack(NoActiveVersion)
      else
        var version := db.versions[active.value].(
          status := Queued, jobPhase := ResearchPhase, outlineData := outline, approvedOutline := outline);
        var row := db.sessions[session].(status := Queued, jobPhase := Some(ResearchPhase));
        var events := Outbox.Enqueue(db.events, db.clock, session, user, ResearchPhase);
        if events.None? then RolledBack(DuplicateActiveEvent)
        else
          Committed(db.(versions := db.versions[active.value := version],
                        sessions := db.sessions[session := row],
                        events := events.value))
  }

  function MaxNumber(versions: seq<Version>, session: nat): nat {
    if versions == [] then 0
    else
      var last := |versions| - 1;
      var before := MaxNumber(versions[..last], session);
      if versions[last].sessionId == session && versions[last].number > before then versions[last].number
      else before
  }

  function NextVersionNumber(versions: seq<Version>, session: nat): nat {
    MaxNumber(versions, session) + 1
  }

  /** create_revision_from_active: a copy of the active version under the next number. */
  function InsertRevision(db: Db, session: nat, active: nat): Db
    requires session < |db.sessions| && active < |db.versions|
  {
    var revision := db.versions[active].(
      sessionId := session, number := NextVersionNumber(db.versions, session), status := Queued, jobPhase := Revision);
    db.(versions := db.versions + [revision],
        sessions := db.sessions[session := db.sessions[session].(activeVersion := Some(|db.versions|))])
  }

  function SetSession(db: Db, session: nat, row: Session): Db
    requires session < |db.sessions|
  {
    db.(sessions := db.sessions[session := row])
  }

  /** The status update of the active version, where there is one. */
  function SetVersionStatus(db: Db, session: nat, status: Status): Db {
    var active := ActiveVersion(db, session);
    if active.None? then db
    else db.(versions := db.versions[active.value := db.versions[active.value].(status := status)])
  }

  function SetVersionJob(db: Db, session: nat, status: Status, phase: Phase): Db {
    var active := ActiveVersion(db, session);
    if active.None? then db
    else db.(versions := db.versions[active.value := db.versions[active.value].(status := status, jobPhase := phase)])
  }

  function SubmitFinalReview(db: Db, user: nat, session: nat, action: ReviewAction): Outcome {
    if session >= |db.sessions| then RolledBack(SessionNotFound)
    else if db.sessions[session].userId != user then RolledBack(AccessDenied)
    else if db.sessions[session].status != AwaitingFinalReview then RolledBack(WrongStatus)
    else
      var row := db.sessions[session];
      var active := ActiveVersion(db, session);
      match action
      case Approve =>
        Committed(SetVersionStatus(SetSession(db, session, row.(status := Completed)), session, Completed))
      case RequestRevision =>
        if active.None? then RolledBack(NoActiveVersion)
        else
          var queued := SetSession(db, session, row.(status := Queued, jobPhase := Some(Revision)));
          var revised := InsertRevision(queued, session, active.value);
          var events := Outbox.Enqueue(db.events, db.clock, session, user, Revision);
          if events.None? then RolledBack(DuplicateActiveEvent)
          else Committed(revised.(events := events.value))
      case Reject =>
        Committed(SetVersionStatus(SetSession(db, session, row.(status := Rejected, jobPhase := None)), session, Rejected))
  }

  // --------------------------------------------------------------- lease acquisition

  predicate PhaseStateOk(status: Status, phase: Phase, version: Version) {
    && status == Queued
    && (phase == ResearchPhase ==> version.approvedOutline != "" || version.outlineData != "")
    && (phase == Revision ==> version.draft != "" || version.finalContent != "")
  }

  datatype Acquisition =
    | NotAcquired
    | AcquireRaised
    | Acquired(db: Db, leaseVersion: nat)

  function MarkProcessing(db: Db, session: nat, phase: Phase): Db
    requires session < |db.sessions|
  {
    SetVersionJob(SetSession(db, session, db.sessions[session].(status := Processing, jobPhase := Some(phase))),
                  session, Processing, phase)
  }

  /** acquire_lease: an open lease blocks other owners until it expires, and then is
      ended and the session put back to QUEUED first. */
  function AcquireLease(db: Db, session: nat, phase: Phase, owner: Token): Acquisition {
    if session >= |db.sessions| then NotAcquired
    else
      var current := Leases.ActiveLease(db.leases, session);
      var live := current.Some? && db.leases[current.value].expiresAt > db.clock;
      if live && db.leases[current.value].owner != owner then NotAcquired
      else
        var requeued :=
          if current.Some? && !live then
            db.(leases := Leases.End(db.leases, db.clock, current.value),
                sessions := db.sessions[session := db.sessions[session].(status := Queued)])
          else db;
        var active := ActiveVersion(requeued, session);
        if active.None? || !PhaseStateOk(requeued.sessions[session].status, phase, db.versions[active.value]) then
          AcquireRaised
        else if live then
          var lease := db.leases[current.value];
          var extended := db.(leases := db.leases[current.value := lease.(expiresAt := db.clock + LEASE_SECONDS)]);
          Acquired(MarkProcessing(extended, session, phase), lease.version)
        else
          var version := if current.Some? then db.leases[current.value].version + 1 else 1;
          var leased := requeued.(leases := Leases.Insert(requeued.leases, db.clock, session, owner, version));
          Acquired(MarkProcessing(leased, session, phase), version)
  }

  // ------------------------------------------------------------------- job processor

  /** The claim, and the attempt that holds it.  The owner token is fresh. */
  function Claim(db: Db, event: nat, owner: Token): Db {
    var events := Outbox.ClaimEvent(db.events, db.clock, event, owner);
    if owner in db.attempts || events.None? then db
    else
      var e := db.events[event];
      db.(events := events.value,
          attempts := db.attempts[owner := Attempt(event, e.sessionId, e.userId, e.phase, "", Claimed)])
  }

  function SetStage(db: Db, owner: Token, stage: Stage): Db
    requires owner in db.attempts
  {
    db.(attempts := db.attempts[owner := db.attempts[owner].(stage := stage)])
  }

  /** The session still wants a job of this phase, as `_acquire_lease` checks it. */
  predicate WantsJob(db: Db, session: nat, phase: Phase) {
    && session < |db.sessions|
    && (db.sessions[session].status == Queued || db.sessions[session].status == Processing)
    && (db.sessions[session].status == Queued ==> db.sessions[session].jobPhase == Some(phase))
  }

  /** The acquisition transaction of a claimed attempt, and what the worker does next. */
  function Acquire(db: Db, owner: Token): Db {
    if owner !in db.attempts || db.attempts[owner].stage != Claimed then db
    else
      var a := db.attempts[owner];
      if !WantsJob(db, a.sessionId, a.phase) then SetStage(db, owner, Obsolete)
      else
        match AcquireLease(db, a.sessionId, a.phase, owner)
        case NotAcquired => SetStage(db, owner, Blocked)
        case AcquireRaised => SetStage(db, owner, Abandoned)
        case Acquired(after, version) =>
          var active := db.sessions[a.sessionId].activeVersion;
          var outline := if active.Some? && active.value < |db.versions|
                         then Or(db.versions[active.value].approvedOutline, db.versions[active.value].outlineData)
                         else "";
          after.(attempts := db.attempts[owner := a.(stage := Running(version), approvedOutline := outline,
                                                     userId := db.sessions[a.sessionId].userId)])
  }

  function WithEvents(db: Db, events: Option<seq<Event>>): Db {
    if events.Some? then db.(events := events.value) else db
  }

  function CompleteObsolete(db: Db, owner: Token): Db {
    if owner in db.attempts && db.attempts[owner].stage == Obsolete then
      WithEvents(db, Outbox.Finish(db.events, db.attempts[owner].eventId, owner, EventProcessed))
    else db
  }

  function RetryBlocked(db: Db, owner: Token): Db {
    if owner in db.attempts && db.attempts[owner].stage == Blocked then
      WithEvents(db, Outbox.Retry(db.events, db.clock, db.attempts[owner].eventId, owner))
    else db
  }

  predicate IsRunning(db: Db, owner: Token) {
    owner in db.attempts && db.attempts[owner].stage.Running?
  }

  /** One beat: both leases are extended, or neither is. */
  function Beat(db: Db, owner: Token): Db {
    if !IsRunning(db, owner) then db
    else
      var a := db.attempts[owner];
      var leases := Leases.HeartbeatLease(db.leases, db.clock, a.sessionId, owner, a.stage.leaseVersion);
      var events := Outbox.Heartbeat(db.events, db.clock, a.eventId, owner);
      if leases.Some? && events.Some? then db.(leases := leases.value, events := events.value) else db
  }

  function Release(db: Db, owner: Token): Db {
    if !IsRunning(db, owner) then db
    else
      var a := db.attempts[owner];
      db.(leases := Leases.ReleaseLease(db.leases, db.clock, a.sessionId, owner, a.stage.leaseVersion))
  }

  function ScheduleRetry(db: Db, owner: Token): Outcome
    requires IsRunning(db, owner)
  {
    var a := db.attempts[owner];
    if !Outbox.CurrentClaim(db.events, a.eventId, owner, db.clock) then RolledBack(OwnershipLost)
    else
      var events := Outbox.Retry(db.events, db.clock, a.eventId, owner);
      if events.None? then Committed(db)
      else if a.sessionId >= |db.sessions| then RolledBack(SessionNotFound)
      else
        var row := db.sessions[a.sessionId];
        if row.status !in Lifecycle.TERMINAL_STATES && row.status != Processing then RolledBack(InvalidTransition)
        else
          var retried := db.(events := events.value);
          var requeued := if row.status == Processing
                          then SetSession(retried, a.sessionId, row.(status := Queued)) else retried;
          Committed(Release(SetVersionJob(requeued, a.sessionId, Queued, a.phase), owner))
  }

  // ----------------------------------------------------------------- result persister

  /** The three ownership checks of `_lock_attempt`: claim, session status, lease. */
  predicate OwnsAttempt(db: Db, owner: Token)
    requires IsRunning(db, owner)
  {
    var a := db.attempts[owner];
    && Outbox.CurrentClaim(db.events, a.eventId, owner, db.clock)
    && a.sessionId < |db.sessions|
    && db.sessions[a.sessionId].status == Processing
    && Leases.CurrentLease(db.leases, a.sessionId, owner, a.stage.leaseVersion, db.clock)
  }

  function WriteVersion(db: Db, v: nat, version: Version): Db
    requires v < |db.versions|
  {
    db.(versions := db.versions[v := version])
  }

  /** The validated status write of the session repository. */
  function UpdateStatus(db: Db, session: nat, status: Status): Outcome
    requires session < |db.sessions|
  {
    if Lifecycle.ValidateTransition(db.sessions[session].status, status) then
      Committed(SetSession(db, session, db.sessions[session].(status := status)))
    else
      RolledBack(InvalidTransition)
  }

  function OutlineCheckpoint(db: Db, a: Attempt, v: nat, result: RunResult): Outcome
    requires a.sessionId < |db.sessions| && v < |db.versions|
  {
    var charged := Charging.CommitUsage(db, a.userId, a.sessionId, db.versions[v].number, result.usage);
    var version := db.versions[v].(status := AwaitingOutlineReview, jobPhase := ResearchPhase,
                                   outlineData := result.outline,
                                   draft := result.draft, finalContent := result.finalContent);
    UpdateStatus(charged.(versions := db.versions[v := version]), a.sessionId, AwaitingOutlineReview)
  }

  function AgentRejection(db: Db, a: Attempt, v: nat, result: RunResult): Outcome
    requires a.sessionId < |db.sessions| && v < |db.versions|
  {
    var charged := Charging.CommitUsage(db, a.userId, a.sessionId, db.versions[v].number, result.usage);
    var version := db.versions[v].(status := AgentRejected, jobPhase := a.phase);
    match UpdateStatus(charged.(versions := db.versions[v := version]), a.sessionId, AgentRejected)
    case RolledBack(why) => RolledBack(why)
    case Committed(marked) =>
      var row := marked.sessions[a.sessionId].(jobPhase := None);
      Committed(Budget.ReleaseExcess(SetSession(marked, a.sessionId, row), a.userId, a.sessionId))
  }

  function FinalCheckpoint(db: Db, a: Attempt, v: nat, result: RunResult): Outcome
    requires a.sessionId < |db.sessions| && v < |db.versions|
  {
    var charged := Charging.CommitUsage(db, a.userId, a.sessionId, db.versions[v].number, result.usage);
    var row := db.versions[v];
    var version := row.(status := AwaitingFinalReview, jobPhase := a.phase,
                        outlineData := Or(result.outline, row.outlineData),
                        approvedOutline := Or(Or(result.outline, a.approvedOutline), row.approvedOutline),
                        draft := result.draft, finalContent := result.finalContent);
    var settled := Budget.ReleaseExcess(charged.(versions := db.versions[v := version]), a.userId, a.sessionId);
    UpdateStatus(settled, a.sessionId, AwaitingFinalReview)
  }

  /** Ends the claim in the same transaction; a lost claim rolls everything back. */
  function FinishClaim(outcome: Outcome, event: nat, owner: Token, status: EventStatus): Outcome {
    match outcome
    case RolledBack(why) => outcome
    case Committed(db) =>
      var events := Outbox.Finish(db.events, event, owner, status);
      if events.None? then RolledBack(ClaimDisappeared) else Committed(db.(events := events.value))
  }

  function PersistSuccess(db: Db, owner: Token, result: RunResult): Outcome
    requires IsRunning(db, owner)
  {
    if !OwnsAttempt(db, owner) then RolledBack(OwnershipLost)
    else
      var a := db.attempts[owner];
      var active := ActiveVersion(db, a.sessionId);
      if active.None? then RolledBack(NoActiveVersion)
      else if a.phase == FreshGeneration then
        if !result.intentClear then
          FinishClaim(AgentRejection(db, a, active.value, result), a.eventId, owner, EventProcessed)
        else if result.outline == "" then RolledBack(MissingOutline)
        else FinishClaim(OutlineCheckpoint(db, a, active.value, result), a.eventId, owner, EventProcessed)
      else if result.finalContent == "" then RolledBack(MissingFinalContent)
      else FinishClaim(FinalCheckpoint(db, a, active.value, result), a.eventId, owner, EventProcessed)
  }

  function PersistFailure(db: Db, owner: Token): Outcome
    requires IsRunning(db, owner)
  {
    if !OwnsAttempt(db, owner) then RolledBack(OwnershipLost)
    else
      var a := db.attempts[owner];
      match UpdateStatus(SetVersionJob(db, a.sessionId, Failed, a.phase), a.sessionId, Failed)
      case RolledBack(why) => RolledBack(why)
      case Committed(marked) =>
        FinishClaim(Committed(Budget.ReleaseAll(marked, a.userId, a.sessionId)), a.eventId, owner, EventFailed)
  }

  // ---------------------------------------------------------------------------- reaper

  /** The database half of one relay turn: exhausted claims fail together with their sessions. */
  function FailExhaustedClaims(db: Db, skipped: set<nat>): Db {
    var doomed := Outbox.ExhaustedSessions(db.events, db.clock, skipped);
    db.(events := Outbox.FailExhausted(db.events, db.clock, skipped),
        sessions := seq(|db.sessions|, s requires 0 <= s < |db.sessions| =>
          if s in doomed && db.sessions[s].status !in Lifecycle.TERMINAL_STATES
          then db.sessions[s].(status := Failed) else db.sessions[s]))
  }

  // ------------------------------------------------------------------------------ runs

  datatype Step =
    | Tick(seconds: nat)
    | GrantBudget(user: nat, amount: nat, tokens: nat)
    | Create(user: nat, lockFree: bool)
    | ReviewOutline(user: nat, session: nat, outline: string)
    | ReviewFinal(user: nat, session: nat, action: ReviewAction)
    | Dispatched(event: nat)
    | ClaimDelivery(event: nat, owner: Token)
    | AcquireSession(owner: Token)
    | CompleteStale(owner: Token)
    | RetryLocked(owner: Token)
    | BeatOnce(owner: Token)
    | SaveSuccess(owner: Token, result: RunResult)
    | SaveFailure(owner: Token)
    | RetryLater(owner: Token)
    | ReleaseSession(owner: Token)
    | ReapExhausted(skipped: set<nat>)

  function Next(db: Db, step: Step): Db {
    match step
    case Tick(seconds) => db.(clock := db.clock + seconds)
    case GrantBudget(user, amount, tokens) => Budget.GrantInitial(db, user, amount, tokens)
    case Create(user, lockFree) => CreateGeneration(db, user, lockFree).After(db)
    case ReviewOutline(user, session, outline) => SubmitOutlineReview(db, user, session, outline).After(db)
    case ReviewFinal(user, session, action) => SubmitFinalReview(db, user, session, action).After(db)
    case Dispatched(event) => db.(events := Outbox.MarkDispatched(db.events, db.clock, event))
    case ClaimDelivery(event, owner) => Claim(db, event, owner)
    case AcquireSession(owner) => Acquire(db, owner)
    case CompleteStale(owner) => CompleteObsolete(db, owner)
    case RetryLocked(owner) => RetryBlocked(db, owner)
    case BeatOnce(owner) => Beat(db, owner)
    case SaveSuccess(owner, result) => if IsRunning(db, owner) then PersistSuccess(db, owner, result).After(db) else db
    case SaveFailure(owner) => if IsRunning(db, owner) then PersistFailure(db, owner).After(db) else db
    case RetryLater(owner) => if IsRunning(db, owner) then ScheduleRetry(db, owner).After(db) else db
    case ReleaseSession(owner) => Release(db, owner)
    case ReapExhausted(skipped) => FailExhaustedClaims(db, skipped)
  }

  /** The state after a run: any transactions, in any order, of any number of processes. */
  function Run(db: Db, steps: seq<Step>): Db {
    if steps == [] then db else Next(Run(db, steps[..|steps| - 1]), steps[|steps| - 1])
  }
}
