/** Money comes in through grants only: what an account was granted is the sum of its GRANT
    entries in the ledger. */
module Grants {
  import opened Rows
  import opened Tables
  import opened Workflow
  import opened Invariant
  import opened Transactions
  import opened Sums
  import Accounting
  import Reachable
  import Budget
  import Charging

  function GrantUsdOf(ledger: seq<Entry>, user: nat): nat -> int {
    (i: nat) => if i < |ledger| && ledger[i].kind == Grant && ledger[i].userId == user then ledger[i].usd else 0
  }

  function Granted(ledger: seq<Entry>, user: nat): int {
    Sum(GrantUsdOf(ledger, user), |ledger|)
  }

  function GrantedTotal(db: Db, user: nat): int {
    Budget.GetAccount(db.accounts, user).granted
  }

  /** New ledger entries are no grants, and no account's granted total changed. */
  predicate NoGrant(db: Db, after: Db, user: nat) {
    && db.ledger <= after.ledger
    && (forall i | |db.ledger| <= i < |after.ledger| :: after.ledger[i].kind != Grant)
    && GrantedTotal(after, user) == GrantedTotal(db, user)
  }

  lemma NoGrantKeeps(db: Db, after: Db, user: nat)
    requires NoGrant(db, after, user)
    ensures Granted(after.ledger, user) == Granted(db.ledger, user)
  {
    SumAgree(GrantUsdOf(db.ledger, user), GrantUsdOf(after.ledger, user), |db.ledger|);
    Budget.ZeroTail(GrantUsdOf(after.ledger, user), |db.ledger|, |after.ledger|);
  }

  lemma NoGrantTwice(db: Db, mid: Db, after: Db, user: nat)
    requires NoGrant(db, mid, user) && NoGrant(mid, after, user)
    ensures NoGrant(db, after, user)
  {
    forall i | |db.ledger| <= i < |after.ledger| ensures after.ledger[i].kind != Grant {
      assert i < |mid.ledger| ==> after.ledger[i] == mid.ledger[i];
    }
  }

  lemma SameMoney(db: Db, after: Db, user: nat)
    requires after.ledger == db.ledger && after.accounts == db.accounts
    ensures NoGrant(db, after, user)
  {
  }

  // ------------------------------------------------------------------------- one step

  lemma ReleaseExcessGrantsNothing(db: Db, user: nat, session: nat, u: nat)
    ensures NoGrant(db, Budget.ReleaseExcess(db, user, session), u)
  {
  }

  lemma UsageGrantsNothing(db: Db, a: Attempt, version: nat, usage: seq<StageUsage>, u: nat)
    requires a.sessionId < |db.sessions|
    ensures NoGrant(db, Charging.CommitUsage(db, a.userId, a.sessionId, version, usage), u)
  {
    Charging.UsageOnlyCharges(db, a.userId, a.sessionId, version, usage);
  }

  /** What closing a reservation books does not depend on session and version rows. */
  lemma ClosingIgnoresRows(db: Db, other: Db, user: nat, session: nat)
    requires other == db.(sessions := other.sessions, versions := other.versions)
    ensures Budget.ReleaseExcess(other, user, session).ledger == Budget.ReleaseExcess(db, user, session).ledger
    ensures Budget.ReleaseExcess(other, user, session).accounts == Budget.ReleaseExcess(db, user, session).accounts
  {
  }

  /** Ledger and accounts after a checkpoint: those of its usage, and of the closing if any. */
  lemma FinalBooks(db: Db, charged: Db, a: Attempt, v: nat, result: RunResult)
    requires a.sessionId < |db.sessions| && v < |db.versions|
    requires charged == Charging.CommitUsage(db, a.userId, a.sessionId, db.versions[v].number, result.usage)
    requires FinalCheckpoint(db, a, v, result).Committed?
    ensures var after := FinalCheckpoint(db, a, v, result).db;
            var closed := Budget.ReleaseExcess(charged, a.userId, a.sessionId);
            after.ledger == closed.ledger && after.accounts == closed.accounts
  {
    var row := db.versions[v];
    var version := row.(status := AwaitingFinalReview, jobPhase := a.phase,
                        outlineData := Or(result.outline, row.outlineData),
                        approvedOutline := Or(Or(result.outline, a.approvedOutline), row.approvedOutline),
                        draft := result.draft, finalContent := result.finalContent);
    ClosingIgnoresRows(charged, charged.(versions := db.versions[v := version]), a.userId, a.sessionId);
  }

  lemma RejectionBooks(db: Db, charged: Db, a: Attempt, v: nat, result: RunResult)
    requires a.sessionId < |db.sessions| && v < |db.versions|
    requires charged == Charging.CommitUsage(db, a.userId, a.sessionId, db.versions[v].number, result.usage)
    requires AgentRejection(db, a, v, result).Committed?
    ensures var after := AgentRejection(db, a, v, result).db;
            var closed := Budget.ReleaseExcess(charged, a.userId, a.sessionId);
            after.ledger == closed.ledger && after.accounts == closed.accounts
  {
    var versions := db.versions[v := db.versions[v].(status := AgentRejected, jobPhase := a.phase)];
    var updated := UpdateStatus(charged.(versions := versions), a.sessionId, AgentRejected).db;
    var marked := SetSession(updated, a.sessionId, updated.sessions[a.sessionId].(jobPhase := None));
    ClosingIgnoresRows(charged, marked, a.userId, a.sessionId);
  }

  lemma CheckpointGrantsNothing(db: Db, a: Attempt, v: nat, result: RunResult, u: nat)
    requires a.sessionId < |db.sessions| && v < |db.versions|
    requires Checkpoint(db, a, v, result).Committed?
    ensures NoGrant(db, Checkpoint(db, a, v, result).db, u)
  {
    var charged := Charging.CommitUsage(db, a.userId, a.sessionId, db.versions[v].number, result.usage);
    UsageGrantsNothing(db, a, db.versions[v].number, result.usage, u);
    ReleaseExcessGrantsNothing(charged, a.userId, a.sessionId, u);
    NoGrantTwice(db, charged, Budget.ReleaseExcess(charged, a.userId, a.sessionId), u);
    if a.phase != FreshGeneration {
      FinalBooks(db, charged, a, v, result);
    } else if !result.intentClear {
      RejectionBooks(db, charged, a, v, result);
    }
  }

  lemma SuccessGrantsNothing(db: Db, owner: Token, result: RunResult, u: nat)
    requires IsRunning(db, owner)
    ensures NoGrant(db, PersistSuccess(db, owner, result).After(db), u)
  {
    if PersistSuccess(db, owner, result).Committed? {
      CommittedThroughCheckpoint(db, owner, result);
      var a := db.attempts[owner];
      CheckpointGrantsNothing(db, a, ActiveVersion(db, a.sessionId).value, result, u);
    }
  }

  lemma ReleaseAllGrantsNothing(db: Db, user: nat, session: nat, u: nat)
    ensures NoGrant(db, Budget.ReleaseAll(db, user, session), u)
  {
  }

  lemma FailureGrantsNothing(db: Db, owner: Token, u: nat)
    requires IsRunning(db, owner)
    ensures NoGrant(db, PersistFailure(db, owner).After(db), u)
  {
    if PersistFailure(db, owner).Committed? {
      var a := db.attempts[owner];
      var marked := UpdateStatus(SetVersionJob(db, a.sessionId, Failed, a.phase), a.sessionId, Failed).db;
      ReleaseAllGrantsNothing(marked, a.userId, a.sessionId, u);
      FreedGrantsNothing(db, marked, PersistFailure(db, owner).db, a, u);
    }
  }

  lemma FreedGrantsNothing(db: Db, marked: Db, after: Db, a: Attempt, u: nat)
    requires marked.ledger == db.ledger && marked.accounts == db.accounts
    requires NoGrant(marked, Budget.ReleaseAll(marked, a.userId, a.sessionId), u)
    requires after == Budget.ReleaseAll(marked, a.userId, a.sessionId).(events := after.events)
    ensures NoGrant(db, after, u)
  {
  }

  lemma CreateGrantsNothing(db: Db, user: nat, lockFree: bool, u: nat)
    ensures NoGrant(db, CreateGeneration(db, user, lockFree).After(db), u)
  {
  }

  lemma OtherGrantsNothing(db: Db, step: Step, u: nat)
    requires ProtocolOk(db)
    requires !step.GrantBudget? && !step.Create? && !step.SaveSuccess? && !step.SaveFailure?
    ensures NoGrant(db, Next(db, step), u)
  {
    match step
    case ReviewOutline(user, session, outline) => Accounting.OutlineReviewMovesNoMoney(db, user, session, outline);
    case ReviewFinal(user, session, action) => Accounting.FinalReviewMovesNoMoney(db, user, session, action);
    case AcquireSession(owner) => Accounting.AcquireMovesNoMoney(db, owner);
    case RetryLater(owner) => if IsRunning(db, owner) { Accounting.ScheduleRetryMovesNoMoney(db, owner); }
    case ReapExhausted(skipped) => Accounting.ReaperMovesNoMoney(db, skipped);
    case Tick(_) =>
    case Dispatched(_) =>
    case _ => WorkerGrantsNothing(db, step, u);
  }

  lemma WorkerGrantsNothing(db: Db, step: Step, u: nat)
    requires step.ClaimDelivery? || step.CompleteStale? || step.RetryLocked? || step.BeatOnce? || step.ReleaseSession?
    ensures NoGrant(db, Next(db, step), u)
  {
    Accounting.WorkerMovesNoMoney(db, if step.ClaimDelivery? then step.event else 0, step.owner);
    SameMoney(db, Next(db, step), u);
  }

  /** Each step moves an account's granted total by exactly the GRANT entries it writes. */
  lemma StepGrantsExactly(db: Db, step: Step, u: nat)
    requires ProtocolOk(db)
    ensures var after := Next(db, step);
            GrantedTotal(after, u) - GrantedTotal(db, u) == Granted(after.ledger, u) - Granted(db.ledger, u)
  {
    match step
    case GrantBudget(user, amount, tokens) =>
      SumAgree(GrantUsdOf(db.ledger, u), GrantUsdOf(Next(db, step).ledger, u), |db.ledger|);
    case Create(user, lockFree) =>
      CreateGrantsNothing(db, user, lockFree, u);
      NoGrantKeeps(db, Next(db, step), u);
    case SaveSuccess(owner, result) =>
      if IsRunning(db, owner) {
        SuccessGrantsNothing(db, owner, result, u);
        NoGrantKeeps(db, Next(db, step), u);
      }
    case SaveFailure(owner) =>
      if IsRunning(db, owner) {
        FailureGrantsNothing(db, owner, u);
        NoGrantKeeps(db, Next(db, step), u);
      }
    case _ =>
      OtherGrantsNothing(db, step, u);
      NoGrantKeeps(db, Next(db, step), u);
  }

  /** In every run what an account was granted is the sum of its GRANT entries, so balance
      and spending together are exactly the money the ledger says came in. */
  lemma {:induction false} GrantsInEveryRun(steps: seq<Step>, user: nat)
    ensures var db := Run(EMPTY, steps);
            var a := Budget.GetAccount(db.accounts, user);
            a.granted == Granted(db.ledger, user) && a.balance + a.spent == Granted(db.ledger, user)
  {
    var db := Run(EMPTY, steps);
    Reachable.ReachableIsOk(steps);
    assert Budget.AccountOk(db, user);
    if steps != [] {
      GrantsInEveryRun(steps[..|steps| - 1], user);
      Reachable.ReachableIsOk(steps[..|steps| - 1]);
      StepGrantsExactly(Run(EMPTY, steps[..|steps| - 1]), steps[|steps| - 1], user);
    }
  }
}
