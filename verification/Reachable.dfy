/** The invariant of every run, and what a step may do to a single row. */
module Reachable {
  import opened Rows
  import opened Tables
  import opened Workflow
  import opened Invariant
  import opened Protocol
  import opened Transactions
  import opened Accounting
  import opened Sums
  import Outbox
  import Leases
  import Lifecycle
  import Budget
  import Charging

  ghost predicate Inv(db: Db) {
    ProtocolOk(db) && AccountingOk(db)
  }

  lemma NextKeepsProtocol(db: Db, step: Step)
    requires ProtocolOk(db)
    ensures ProtocolOk(Next(db, step))
  {
    match step
    case Tick(seconds) => TickKeeps(db, seconds);
    case GrantBudget(_, _, _) =>
    case Create(_, _) => ApiKeepsProtocol(db, step);
    case ReviewOutline(_, _, _) => ApiKeepsProtocol(db, step);
    case ReviewFinal(_, _, _) => ApiKeepsProtocol(db, step);
    case Dispatched(event) => DispatchedKeeps(db, event);
    case ClaimDelivery(event, owner) => ClaimKeeps(db, event, owner);
    case AcquireSession(owner) => AcquireKeeps(db, owner);
    case CompleteStale(owner) => CompleteObsoleteKeeps(db, owner);
    case RetryLocked(owner) => RetryBlockedKeeps(db, owner);
    case BeatOnce(owner) => BeatKeeps(db, owner);
    case SaveSuccess(owner, result) => if IsRunning(db, owner) { PersistSuccessKeeps(db, owner, result); }
    case SaveFailure(owner) => if IsRunning(db, owner) { PersistFailureKeeps(db, owner); }
    case RetryLater(owner) => if IsRunning(db, owner) { ScheduleRetryKeeps(db, owner); }
    case ReleaseSession(owner) => ReleaseKeeps(db, owner);
    case ReapExhausted(skipped) => ReaperKeeps(db, skipped);
  }

  lemma ApiKeepsProtocol(db: Db, step: Step)
    requires ProtocolOk(db) && (step.Create? || step.ReviewOutline? || step.ReviewFinal?)
    ensures ProtocolOk(Next(db, step))
  {
    match step
    case Create(user, lockFree) => CreateKeeps(db, user, lockFree);
    case ReviewOutline(user, session, outline) => OutlineReviewKeeps(db, user, session, outline);
    case ReviewFinal(user, session, action) => FinalReviewKeeps(db, user, session, action);
  }

  lemma NextKeepsAccounting(db: Db, step: Step)
    requires Inv(db)
    ensures AccountingOk(Next(db, step))
  {
    match step
    case Tick(seconds) => NoMoneyMovedKeeps(db, Next(db, step));
    case GrantBudget(user, amount, tokens) => GrantKeeps(db, user, amount, tokens);
    case Create(user, lockFree) => CreateKeepsAccounting(db, user, lockFree);
    case ReviewOutline(user, session, outline) =>
      OutlineReviewMovesNoMoney(db, user, session, outline);
      NoMoneyMovedKeeps(db, Next(db, step));
    case ReviewFinal(user, session, action) =>
      FinalReviewMovesNoMoney(db, user, session, action);
      NoMoneyMovedKeeps(db, Next(db, step));
    case Dispatched(event) => NoMoneyMovedKeeps(db, Next(db, step));
    case AcquireSession(owner) =>
      AcquireMovesNoMoney(db, owner);
      NoMoneyMovedKeeps(db, Next(db, step));
    case SaveSuccess(owner, result) => if IsRunning(db, owner) { PersistSuccessKeepsAccounting(db, owner, result); }
    case SaveFailure(owner) => if IsRunning(db, owner) { PersistFailureKeepsAccounting(db, owner); }
    case RetryLater(owner) =>
      if IsRunning(db, owner) {
        ScheduleRetryMovesNoMoney(db, owner);
        NoMoneyMovedKeeps(db, Next(db, step));
      }
    case ReapExhausted(skipped) =>
      ReaperMovesNoMoney(db, skipped);
      NoMoneyMovedKeeps(db, Next(db, step));
    case _ => WorkerStepKeepsAccounting(db, step);
  }

  lemma WorkerStepKeepsAccounting(db: Db, step: Step)
    requires AccountingOk(db)
    requires step.ClaimDelivery? || step.CompleteStale? || step.RetryLocked? || step.BeatOnce? || step.ReleaseSession?
    ensures AccountingOk(Next(db, step))
  {
    WorkerMovesNoMoney(db, if step.ClaimDelivery? then step.event else 0, step.owner);
    NoMoneyMovedKeeps(db, Next(db, step));
  }

  lemma NextKeepsInv(db: Db, step: Step)
    requires Inv(db)
    ensures Inv(Next(db, step))
  {
    NextKeepsProtocol(db, step);
    NextKeepsAccounting(db, step);
  }

  /** Every transaction keeps the invariant, so every run does. */
  lemma {:induction false} RunKeepsInv(db: Db, steps: seq<Step>)
    requires Inv(db)
    ensures Inv(Run(db, steps))
  {
    if steps != [] {
      RunKeepsInv(db, steps[..|steps| - 1]);
      NextKeepsInv(Run(db, steps[..|steps| - 1]), steps[|steps| - 1]);
    }
  }

  lemma EmptyIsOk()
    ensures Inv(EMPTY)
  {
  }

  /** The invariant holds in every state reachable from the empty database. */
  lemma ReachableIsOk(steps: seq<Step>)
    ensures Inv(Run(EMPTY, steps))
  {
    EmptyIsOk();
    RunKeepsInv(EMPTY, steps);
  }
}
