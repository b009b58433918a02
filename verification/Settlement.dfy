/** The life of a reservation: it is made once, keeps its amounts, is closed at most once,
    and what its closing charged is never changed again. */
module Settlement {
  import opened Rows
  import opened Tables
  import opened Workflow
  import opened Invariant
  import opened Protocol
  import opened Transactions
  import opened Fencing
  import Accounting
  import Reachable
  import Histories
  import Budget
  import Charging

  predicate Closed(reservations: map<nat, Reservation>, s: nat) {
    s in reservations && reservations[s].releasedAt.Some?
  }

  predicate SameSettlement(db: Db, after: Db, s: nat) {
    && (s in after.settlements <==> s in db.settlements)
    && (s in db.settlements ==> after.settlements[s] == db.settlements[s])
  }

  /** A reservation stays, and stays as it is unless it is open and gets its closing time
      now; the settlement of a session whose reservation is not open does not change. */
  predicate Stays(db: Db, after: Db, s: nat) {
    && (s in db.reservations ==>
          && s in after.reservations
          && (|| after.reservations[s] == db.reservations[s]
              || (db.reservations[s].releasedAt.None?
                  && after.reservations[s] == db.reservations[s].(releasedAt := Some(db.clock)))))
    && (Closed(db.reservations, s) ==> SameSettlement(db, after, s))
  }

  // ------------------------------------------------------------------------- one step

  lemma ReleaseExcessStays(db: Db, user: nat, session: nat, s: nat)
    ensures Stays(db, Budget.ReleaseExcess(db, user, session), s)
  {
  }

  lemma ReleaseAllStays(db: Db, user: nat, session: nat, s: nat)
    ensures Stays(db, Budget.ReleaseAll(db, user, session), s)
  {
  }

  lemma CheckpointStays(db: Db, a: Attempt, v: nat, result: RunResult, s: nat)
    requires a.sessionId < |db.sessions| && v < |db.versions|
    requires Checkpoint(db, a, v, result).Committed?
    ensures Stays(db, Checkpoint(db, a, v, result).db, s)
  {
    if a.phase != FreshGeneration {
      FinalStays(db, a, v, result, s);
    } else if result.intentClear {
      Charging.UsageOnlyCharges(db, a.userId, a.sessionId, db.versions[v].number, result.usage);
    } else {
      RejectionStays(db, a, v, result, s);
    }
  }

  lemma FinalStays(db: Db, a: Attempt, v: nat, result: RunResult, s: nat)
    requires a.sessionId < |db.sessions| && v < |db.versions|
    requires FinalCheckpoint(db, a, v, result).Committed?
    ensures Stays(db, FinalCheckpoint(db, a, v, result).db, s)
  {
    Charging.UsageOnlyCharges(db, a.userId, a.sessionId, db.versions[v].number, result.usage);
    var charged := Charging.CommitUsage(db, a.userId, a.sessionId, db.versions[v].number, result.usage);
    ReleaseExcessStays(charged, a.userId, a.sessionId, s);
  }

  lemma RejectionStays(db: Db, a: Attempt, v: nat, result: RunResult, s: nat)
    requires a.sessionId < |db.sessions| && v < |db.versions|
    requires AgentRejection(db, a, v, result).Committed?
    ensures Stays(db, AgentRejection(db, a, v, result).db, s)
  {
    Charging.UsageOnlyCharges(db, a.userId, a.sessionId, db.versions[v].number, result.usage);
    var charged := Charging.CommitUsage(db, a.userId, a.sessionId, db.versions[v].number, result.usage);
    ReleaseExcessStays(charged, a.userId, a.sessionId, s);
  }

  lemma SuccessStays(db: Db, owner: Token, result: RunResult, s: nat)
    requires IsRunning(db, owner)
    ensures Stays(db, PersistSuccess(db, owner, result).After(db), s)
  {
    if PersistSuccess(db, owner, result).Committed? {
      CommittedThroughCheckpoint(db, owner, result);
      var a := db.attempts[owner];
      CheckpointStays(db, a, ActiveVersion(db, a.sessionId).value, result, s);
    }
  }

  lemma FailureStays(db: Db, owner: Token, s: nat)
    requires IsRunning(db, owner)
    ensures Stays(db, PersistFailure(db, owner).After(db), s)
  {
    if PersistFailure(db, owner).Committed? {
      var a := db.attempts[owner];
      var marked := UpdateStatus(SetVersionJob(db, a.sessionId, Failed, a.phase), a.sessionId, Failed).db;
      FreedStays(db, marked, PersistFailure(db, owner).db, a, s);
    }
  }

  lemma FreedStays(db: Db, marked: Db, after: Db, a: Attempt, s: nat)
    requires marked.reservations == db.reservations && marked.settlements == db.settlements && marked.clock == db.clock
    requires after == Budget.ReleaseAll(marked, a.userId, a.sessionId).(events := after.events)
    ensures Stays(db, after, s)
  {
    ReleaseAllStays(marked, a.userId, a.sessionId, s);
  }

  /** A new reservation is for a new session. */
  lemma CreateStays(db: Db, user: nat, lockFree: bool, s: nat)
    requires s < |db.sessions|
    ensures Stays(db, CreateGeneration(db, user, lockFree).After(db), s)
  {
  }

  lemma StepStays(db: Db, step: Step, s: nat)
    requires ProtocolOk(db) && s < |db.sessions|
    ensures Stays(db, Next(db, step), s)
  {
    match step
    case Create(user, lockFree) => CreateStays(db, user, lockFree, s);
    case SaveSuccess(owner, result) => if IsRunning(db, owner) { SuccessStays(db, owner, result, s); }
    case SaveFailure(owner) => if IsRunning(db, owner) { FailureStays(db, owner, s); }
    case RetryLater(owner) =>
      if IsRunning(db, owner) {
        Accounting.ScheduleRetryMovesNoMoney(db, owner);
      }
    case AcquireSession(owner) => Accounting.AcquireMovesNoMoney(db, owner);
    case _ => OtherStays(db, step, s);
  }

  lemma OtherStays(db: Db, step: Step, s: nat)
    requires !step.Create? && !step.SaveSuccess? && !step.SaveFailure? && !step.RetryLater? && !step.AcquireSession?
    ensures Stays(db, Next(db, step), s)
  {
    match step
    case ReviewOutline(user, session, outline) => Accounting.OutlineReviewMovesNoMoney(db, user, session, outline);
    case ReviewFinal(user, session, action) => Accounting.FinalReviewMovesNoMoney(db, user, session, action);
    case ReapExhausted(skipped) => Accounting.ReaperMovesNoMoney(db, skipped);
    case _ => QuietTouchesNoMoney(db, step);
  }

  lemma QuietTouchesNoMoney(db: Db, step: Step)
    requires step.Tick? || step.GrantBudget? || step.Dispatched? || step.ClaimDelivery? || step.CompleteStale?
          || step.RetryLocked? || step.BeatOnce? || step.ReleaseSession?
    ensures Next(db, step).reservations == db.reservations && Next(db, step).settlements == db.settlements
  {
  }

  // ------------------------------------------------------------------------ whole runs

  /** A closed reservation is never changed, reopened or replaced, and what its closing
      charged stays what it was, in every later state. */
  lemma {:induction false} ClosedForever(db: Db, steps: seq<Step>, s: nat)
    requires ProtocolOk(db) && s < |db.sessions| && Closed(db.reservations, s)
    ensures var later := Run(db, steps);
            && ProtocolOk(later) && s < |later.sessions|
            && s in later.reservations && later.reservations[s] == db.reservations[s]
            && SameSettlement(db, later, s)
  {
    if steps != [] {
      var before := Run(db, steps[..|steps| - 1]);
      ClosedForever(db, steps[..|steps| - 1], s);
      Reachable.NextKeepsProtocol(before, steps[|steps| - 1]);
      SessionsStay(before, steps[|steps| - 1]);
      StepStays(before, steps[|steps| - 1], s);
    }
  }

  /** So in every later state closing it again, either way and for anyone, changes nothing. */
  lemma ClosedIsDone(db: Db, steps: seq<Step>, s: nat, user: nat)
    requires ProtocolOk(db) && s < |db.sessions| && Closed(db.reservations, s)
    ensures var later := Run(db, steps);
            Budget.ReleaseExcess(later, user, s) == later && Budget.ReleaseAll(later, user, s) == later
  {
    ClosedForever(db, steps, s);
    Budget.SettlesOnce(Run(db, steps), user, s);
  }

  lemma SessionsStay(db: Db, step: Step)
    requires ProtocolOk(db)
    ensures |db.sessions| <= |Next(db, step).sessions|
  {
    if |db.sessions| > 0 {
      Histories.LifecycleSafety(db, step, |db.sessions| - 1);
    }
  }

  /** The step closes the session's reservation. */
  predicate Closes(db: Db, step: Step, s: nat) {
    Budget.OpenReservation(db.reservations, s) && !Budget.OpenReservation(Next(db, step).reservations, s)
  }

  /** In any run at most one step closes a session's reservation: a reservation settles at
      most once, whatever is saved, failed or repeated later. */
  lemma AtMostOneClosing(steps: seq<Step>, i: nat, j: nat, s: nat)
    requires i < j < |steps|
    requires Closes(Run(EMPTY, steps[..i]), steps[i], s)
    ensures !Closes(Run(EMPTY, steps[..j]), steps[j], s)
  {
    var db := Run(EMPTY, steps[..i]);
    Reachable.ReachableIsOk(steps[..i]);
    assert Budget.ReservationOk(db, s);
    ClosingCloses(db, steps[i], s);
    ClosedForever(Next(db, steps[i]), steps[i + 1..j], s);
    RunSplit(EMPTY, steps, i, j);
  }

  /** A step that closes a reservation stamps it with the time, and leaves its amounts. */
  lemma ClosingCloses(db: Db, step: Step, s: nat)
    requires ProtocolOk(db) && s < |db.sessions| && Closes(db, step, s)
    ensures var after := Next(db, step);
            && ProtocolOk(after) && s < |after.sessions| && Closed(after.reservations, s)
            && after.reservations[s] == db.reservations[s].(releasedAt := Some(db.clock))
  {
    StepStays(db, step, s);
    SessionsStay(db, step);
    Reachable.NextKeepsProtocol(db, step);
  }
}
