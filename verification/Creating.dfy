/** What a generation request answers, and how many a user gets on one calendar day. */
module Creating {
  import opened Rows
  import opened Tables
  import opened Workflow
  import opened Invariant
  import opened Transactions
  import opened Protocol
  import opened Fencing
  import Lifecycle
  import Charging
  import Budget
  import Answers
  import Reviews

  /** The user has no session under way. */
  predicate Idle(db: Db, user: nat) {
    forall s | 0 <= s < |db.sessions| ::
      db.sessions[s].userId == user ==> db.sessions[s].status in {Completed, Failed, Rejected, AgentRejected, Cancelled}
  }

  function Today(db: Db): nat { db.clock / 86_400 }

  /** The slots the user has taken today, as the counter row has them. */
  function UsedToday(db: Db, user: nat): nat {
    if user in db.quotas && db.quotas[user].date == Today(db) then db.quotas[user].used else 0
  }

  function AccountOf(db: Db, user: nat): Account {
    if user in db.accounts then db.accounts[user] else Account(0, 0, 0, 0)
  }

  /** One dollar, the estimate of a generation, is available. */
  predicate Funded(db: Db, user: nat) {
    AccountOf(db, user).balance - AccountOf(db, user).reserved >= 1_0000_0000
  }

  /** Everything a request that goes through leaves behind: one more slot taken today, one
      dollar reserved with its ledger entry, and a session with its first version and event. */
  function Created(db: Db, user: nat): Db {
    var s := |db.sessions|;
    var account := AccountOf(db, user);
    db.(quotas := db.quotas[user := Quota(UsedToday(db, user) + 1, 5, Today(db))],
        accounts := db.accounts[user := account.(reserved := account.reserved + 1_0000_0000)],
        ledger := db.ledger + [Entry(user, Some(s), None, Reserve, -50_000, -1_0000_0000)],
        reservations := db.reservations[s := Reservation(1_0000_0000, 50_000, None)],
        sessions := db.sessions + [Session(user, Queued, Some(FreshGeneration), Some(|db.versions|),
                                           50_000, 1_0000_0000, 0, 0)],
        versions := db.versions + [Version(s, 1, Queued, FreshGeneration, "", "", "", "")],
        events := db.events + [Event(s, user, FreshGeneration, EventPending, 0, db.clock, None, None, None, db.clock)])
  }

  /** A request goes through exactly for an idle user with a slot left today, with the lock
      taken and the estimate funded; otherwise it changes nothing. */
  lemma CreateAnswer(db: Db, user: nat, lockFree: bool)
    requires ProtocolOk(db)
    ensures Next(db, Create(user, lockFree))
         == if Idle(db, user) && UsedToday(db, user) < 5 && lockFree && Funded(db, user) then Created(db, user) else db
  {
    CreateKeeps(db, user, lockFree);
    IdleMeans(db, user);
    if CreateGeneration(db, user, lockFree).Committed? {
      CreatedRows(db, user);
    }
  }

  /** Why a request is refused: the first of the four conditions that fails. */
  lemma CreateRefusal(db: Db, user: nat, lockFree: bool)
    requires ProtocolOk(db)
    ensures var outcome := CreateGeneration(db, user, lockFree);
            if !Idle(db, user) then outcome == RolledBack(ActiveGenerationExists)
            else if UsedToday(db, user) >= 5 then outcome == RolledBack(DailyLimitReached)
            else if !lockFree then outcome == RolledBack(BudgetLocked)
            else if !Funded(db, user) then outcome == RolledBack(InsufficientBudget)
            else outcome.Committed?
  {
    CreateKeeps(db, user, lockFree);
    IdleMeans(db, user);
  }

  lemma IdleMeans(db: Db, user: nat)
    ensures Idle(db, user) <==> !HasActiveSession(db.sessions, user)
  {
    forall s: nat | s < |db.sessions|
      ensures db.sessions[s].status in {Completed, Failed, Rejected, AgentRejected, Cancelled}
         <==> db.sessions[s].status !in Lifecycle.ACTIVE_STATES
    {
      Lifecycle.TerminalMeansNoWayOut(db.sessions[s].status);
    }
  }

  lemma CreatedRows(db: Db, user: nat)
    requires CreateGeneration(db, user, true).Committed?
    ensures CreateGeneration(db, user, true) == Committed(Created(db, user))
  {
    var s := |db.sessions|;
    var bare := Session(user, Queued, Some(FreshGeneration), Some(|db.versions|), 0, 0, 0, 0);
    var funded := bare.(reservedTokens := 50_000, reservedUsd := 1_0000_0000);
    assert (db.sessions + [bare])[s := funded] == db.sessions + [funded];
  }

  // ------------------------------------------------------------------- days and runs

  /** The step is a request of this user that goes through on this day. */
  predicate GoesThrough(db: Db, step: Step, user: nat, day: nat) {
    step.Create? && step.user == user && Today(db) == day && Next(db, step) != db
  }

  /** How many requests of the user a run lets through on the day. */
  function CreatesOn(steps: seq<Step>, user: nat, day: nat): nat {
    if |steps| == 0 then 0
    else
      var before := Run(EMPTY, steps[..|steps| - 1]);
      CreatesOn(steps[..|steps| - 1], user, day)
      + if GoesThrough(before, steps[|steps| - 1], user, day) then 1 else 0
  }

  /** The counter row has the requests of the last day on which one went through. */
  ghost predicate Counts(db: Db, steps: seq<Step>, user: nat) {
    && (user in db.quotas ==>
          && db.quotas[user].date <= Today(db)
          && db.quotas[user].used == CreatesOn(steps, user, db.quotas[user].date))
    && (forall day: nat | user !in db.quotas || day > db.quotas[user].date :: CreatesOn(steps, user, day) == 0)
    && (forall day: nat :: CreatesOn(steps, user, day) <= 5)
  }

  /** Only a request touches the counter rows, and time only moves on. */
  lemma OtherStepsCountNothing(db: Db, step: Step)
    requires ProtocolOk(db) && !step.Create?
    ensures Next(db, step).quotas == db.quotas && Today(db) <= Today(Next(db, step))
  {
    StepAdvances(db, step);
    QuotasUntouched(db, step);
    LaterDay(db.clock, Next(db, step).clock);
  }

  lemma LaterDay(a: nat, b: nat)
    requires a <= b
    ensures a / 86_400 <= b / 86_400
  {
  }

  lemma QuotasUntouched(db: Db, step: Step)
    requires ProtocolOk(db) && !step.Create?
    ensures Next(db, step).quotas == db.quotas
  {
    match step
    case AcquireSession(owner) => AcquireTakesNoSlot(db, owner);
    case SaveSuccess(owner, result) => if IsRunning(db, owner) { SuccessTakesNoSlot(db, owner, result); }
    case SaveFailure(owner) => if IsRunning(db, owner) { FailureTakesNoSlot(db, owner); }
    case RetryLater(owner) => if IsRunning(db, owner) { ScheduleRetryShape(db, owner); }
    case _ => OthersTakeNoSlot(db, step);
  }

  lemma AcquireTakesNoSlot(db: Db, owner: Token)
    requires ProtocolOk(db)
    ensures Acquire(db, owner).quotas == db.quotas
  {
    if WouldAcquire(db, owner) {
      var a := db.attempts[owner];
      var acquired := AcquireLease(db, a.sessionId, a.phase, owner);
      AcquiredShape(db, owner, acquired.db, acquired.leaseVersion);
    } else if owner in db.attempts && db.attempts[owner].stage == Claimed {
      AcquireStops(db, owner);
    }
  }

  lemma CheckpointTakesNoSlot(db: Db, a: Attempt, v: nat, result: RunResult)
    requires a.sessionId < |db.sessions| && v < |db.versions|
    requires Checkpoint(db, a, v, result).Committed?
    ensures Checkpoint(db, a, v, result).db.quotas == db.quotas
  {
    Charging.UsageOnlyCharges(db, a.userId, a.sessionId, db.versions[v].number, result.usage);
  }

  lemma SuccessTakesNoSlot(db: Db, owner: Token, result: RunResult)
    requires IsRunning(db, owner)
    ensures PersistSuccess(db, owner, result).After(db).quotas == db.quotas
  {
    if PersistSuccess(db, owner, result).Committed? {
      CommittedThroughCheckpoint(db, owner, result);
      var a := db.attempts[owner];
      CheckpointTakesNoSlot(db, a, ActiveVersion(db, a.sessionId).value, result);
    }
  }

  lemma FailureTakesNoSlot(db: Db, owner: Token)
    requires IsRunning(db, owner)
    ensures PersistFailure(db, owner).After(db).quotas == db.quotas
  {
    if PersistFailure(db, owner).Committed? {
      var a := db.attempts[owner];
      var marked := UpdateStatus(SetVersionJob(db, a.sessionId, Failed, a.phase), a.sessionId, Failed).db;
      ReleaseTakesNoSlot(marked, a.userId, a.sessionId);
    }
  }

  lemma ReleaseTakesNoSlot(db: Db, user: nat, s: nat)
    ensures Budget.ReleaseAll(db, user, s).quotas == db.quotas
  {
  }

  lemma OthersTakeNoSlot(db: Db, step: Step)
    requires ProtocolOk(db)
    requires step.Tick? || step.GrantBudget? || step.ReviewOutline? || step.ReviewFinal? || step.Dispatched?
          || step.ClaimDelivery? || step.CompleteStale? || step.RetryLocked? || step.BeatOnce? || step.ReleaseSession?
          || step.ReapExhausted?
    ensures Next(db, step).quotas == db.quotas
  {
    match step
    case ReviewOutline(user, s, outline) => Reviews.OutlineReviewAnswer(db, user, s, outline);
    case ReviewFinal(user, s, action) => Reviews.FinalReviewAnswer(db, user, s, action);
    case BeatOnce(owner) => Answers.BeatAnswer(db, owner);
    case ReleaseSession(owner) => Answers.ReleaseAnswer(db, owner);
    case RetryLocked(owner) => Answers.RetryLockedAnswer(db, owner);
    case CompleteStale(owner) => Answers.CompleteAnswer(db, owner);
    case ReapExhausted(skipped) =>
    case _ =>
  }

  lemma {:induction false} CountsInEveryRun(steps: seq<Step>, user: nat)
    ensures Counts(Run(EMPTY, steps), steps, user)
  {
    if |steps| > 0 {
      var last := steps[|steps| - 1];
      var before := Run(EMPTY, steps[..|steps| - 1]);
      CountsInEveryRun(steps[..|steps| - 1], user);
      ReachableProtocol(steps[..|steps| - 1]);
      if last.Create? {
        CreateAnswer(before, last.user, last.lockFree);
        assert |Created(before, last.user).sessions| == |before.sessions| + 1;
        RequestCounts(before, Next(before, last), steps, user, last.user, Next(before, last) != before);
      } else {
        OtherStepsCountNothing(before, last);
        StillCounts(before, Next(before, last), steps, user);
      }
    }
  }

  lemma StillCounts(before: Db, after: Db, steps: seq<Step>, user: nat)
    requires |steps| > 0 && Counts(before, steps[..|steps| - 1], user)
    requires after.quotas == before.quotas && Today(before) <= Today(after)
    requires forall day: nat :: CreatesOn(steps, user, day) == CreatesOn(steps[..|steps| - 1], user, day)
    ensures Counts(after, steps, user)
  {
  }

  /** A request counts for its user on its day, if it goes through. */
  lemma RequestCounts(before: Db, after: Db, steps: seq<Step>, user: nat, who: nat, goes: bool)
    requires |steps| > 0 && Counts(before, steps[..|steps| - 1], user)
    requires goes ==> UsedToday(before, who) < 5
    requires after.quotas == if goes then before.quotas[who := Quota(UsedToday(before, who) + 1, 5, Today(before))]
                             else before.quotas
    requires Today(after) == Today(before)
    requires forall day: nat :: CreatesOn(steps, user, day)
                                == CreatesOn(steps[..|steps| - 1], user, day)
                                   + if goes && who == user && day == Today(before) then 1 else 0
    ensures Counts(after, steps, user)
  {
  }

  /** In any run at most five requests of a user go through on one calendar day. */
  lemma FiveADay(steps: seq<Step>, user: nat, day: nat)
    ensures CreatesOn(steps, user, day) <= 5
  {
    CountsInEveryRun(steps, user);
  }

  /** After any run a request is refused for the daily limit if and only if the user is idle
      and exactly five of the user's requests have gone through today. */
  lemma RefusedForTheDayExactly(steps: seq<Step>, user: nat, lockFree: bool)
    ensures var db := Run(EMPTY, steps);
            CreateGeneration(db, user, lockFree) == RolledBack(DailyLimitReached)
            <==> Idle(db, user) && CreatesOn(steps, user, Today(db)) == 5
  {
    var db := Run(EMPTY, steps);
    ReachableProtocol(steps);
    CountsInEveryRun(steps, user);
    IdleMeans(db, user);
  }

  /** After any run a request goes through if and only if the user is idle, fewer than five of
      the user's requests have gone through today, the lock is taken and a dollar is available. */
  lemma GoesThroughExactly(steps: seq<Step>, user: nat, lockFree: bool)
    ensures var db := Run(EMPTY, steps);
            Next(db, Create(user, lockFree)) != db
            <==> Idle(db, user) && CreatesOn(steps, user, Today(db)) < 5 && lockFree && Funded(db, user)
  {
    var db := Run(EMPTY, steps);
    ReachableProtocol(steps);
    CountsInEveryRun(steps, user);
    CreateAnswer(db, user, lockFree);
    assert |Created(db, user).sessions| == |db.sessions| + 1;
  }
}
