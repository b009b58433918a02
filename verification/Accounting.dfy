/** Every transaction keeps the accounts, reservations and charges consistent. */
module Accounting {
  import opened Rows
  import opened Tables
  import opened Workflow
  import opened Invariant
  import opened Sums
  import Outbox
  import Leases
  import Protocol
  import Transactions
  import Budget
  import Charging

  predicate AllReserved(db: Db) {
    forall s | 0 <= s < |db.sessions| :: s in db.reservations
  }

  ghost predicate AccountingOk(db: Db) {
    AllReserved(db) && Budget.MoneyOk(db) && Charging.ChargesOk(db)
  }

  /** A session row up to what the protocol changes. */
  predicate SameAmounts(row: Session, after: Session) {
    after.userId == row.userId && after.spentTokens == row.spentTokens && after.spentUsd == row.spentUsd
  }

  /** The transaction moved no money. */
  predicate NoMoneyMoved(db: Db, after: Db) {
    && after.accounts == db.accounts && after.reservations == db.reservations
    && after.settlements == db.settlements
    && after.ledger == db.ledger && after.runs == db.runs
    && |after.sessions| == |db.sessions|
    && forall s | 0 <= s < |db.sessions| :: SameAmounts(db.sessions[s], after.sessions[s])
  }

  /** Runs are the same and new entries are no COMMITs; new sessions have spent nothing. */
  predicate NoCharge(db: Db, after: Db) {
    && after.runs == db.runs
    && db.ledger <= after.ledger
    && (forall i | |db.ledger| <= i < |after.ledger| :: after.ledger[i].kind != Commit)
    && |db.sessions| <= |after.sessions|
    && (forall s | 0 <= s < |db.sessions| :: SameAmounts(db.sessions[s], after.sessions[s]))
    && (forall s | |db.sessions| <= s < |after.sessions| ::
          after.sessions[s].spentTokens == 0 && after.sessions[s].spentUsd == 0)
  }

  lemma NoChargeSums(db: Db, after: Db, s: nat)
    requires NoCharge(db, after)
    ensures Budget.CommittedTokens(after.ledger, s) == Budget.CommittedTokens(db.ledger, s)
    ensures Budget.CommittedUsd(after.ledger, s) == Budget.CommittedUsd(db.ledger, s)
  {
    var n := |db.ledger|;
    SumAgree(Budget.CommitTokensOf(db.ledger, s), Budget.CommitTokensOf(after.ledger, s), n);
    SumAgree(Budget.CommitUsdOf(db.ledger, s), Budget.CommitUsdOf(after.ledger, s), n);
    Budget.ZeroTail(Budget.CommitTokensOf(after.ledger, s), n, |after.ledger|);
    Budget.ZeroTail(Budget.CommitUsdOf(after.ledger, s), n, |after.ledger|);
  }

  /** A session that does not exist yet has no runs and no COMMITs. */
  lemma NothingSpentYet(db: Db, s: nat)
    requires Charging.ChargesOk(db) && s >= |db.sessions|
    ensures Budget.CommittedTokens(db.ledger, s) == 0 && Budget.CommittedUsd(db.ledger, s) == 0
    ensures Charging.RunTokens(db.runs, s) == 0
  {
    forall i | 0 <= i < |db.ledger| ensures !Budget.IsCommitOf(db.ledger[i], s) {
      assert Charging.CommitOk(db.ledger[i], db);
    }
    SumZero(Budget.CommitTokensOf(db.ledger, s), |db.ledger|);
    SumZero(Budget.CommitUsdOf(db.ledger, s), |db.ledger|);
    SumZero(Charging.RunTokensOf(db.runs, s), |db.runs|);
  }

  lemma NoChargeKeepsCharges(db: Db, after: Db)
    requires Charging.ChargesOk(db) && NoCharge(db, after)
    ensures Charging.ChargesOk(after)
  {
    forall s | 0 <= s < |after.sessions| ensures Charging.ViewsAgree(after, s) {
      NoChargeSums(db, after, s);
      if s < |db.sessions| {
        assert Charging.ViewsAgree(db, s);
      } else {
        NothingSpentYet(db, s);
      }
    }
    forall i | 0 <= i < |after.ledger| ensures Charging.CommitOk(after.ledger[i], after) {
      assert i < |db.ledger| ==> Charging.CommitOk(db.ledger[i], db);
    }
  }

  lemma NoMoneyMovedKeeps(db: Db, after: Db)
    requires AccountingOk(db) && NoMoneyMoved(db, after)
    ensures AccountingOk(after)
  {
    assert Budget.SameBooks(db, after);
    Budget.SameBooksKeepMoney(db, after);
    NoChargeKeepsCharges(db, after);
  }

  // -------------------------------------------------------------- transactions without money

  lemma RowMovesNoMoney(db: Db, s: nat, row: Session, events: seq<Event>, versions: seq<Version>,
                        leases: seq<Lease>, attempts: map<Token, Attempt>)
    requires s < |db.sessions| && SameAmounts(db.sessions[s], row)
    ensures NoMoneyMoved(db, db.(sessions := db.sessions[s := row], events := events, versions := versions,
                                 leases := leases, attempts := attempts))
  {
  }

  lemma AcquireMovesNoMoney(db: Db, owner: Token)
    requires ProtocolOk(db)
    ensures NoMoneyMoved(db, Acquire(db, owner))
  {
    if owner in db.attempts && db.attempts[owner].stage == Claimed {
      if Protocol.WouldAcquire(db, owner) {
        var a := db.attempts[owner];
        var acquired := AcquireLease(db, a.sessionId, a.phase, owner);
        Protocol.AcquiredShape(db, owner, acquired.db, acquired.leaseVersion);
        RowMovesNoMoney(db, a.sessionId, acquired.db.sessions[a.sessionId], db.events, acquired.db.versions,
                        acquired.db.leases, Acquire(db, owner).attempts);
      } else {
        Protocol.AcquireStops(db, owner);
      }
    }
  }

  lemma WorkerMovesNoMoney(db: Db, event: nat, owner: Token)
    ensures NoMoneyMoved(db, Claim(db, event, owner))
    ensures NoMoneyMoved(db, CompleteObsolete(db, owner))
    ensures NoMoneyMoved(db, RetryBlocked(db, owner))
    ensures NoMoneyMoved(db, Beat(db, owner))
    ensures NoMoneyMoved(db, Workflow.Release(db, owner))
  {
  }

  lemma ScheduleRetryMovesNoMoney(db: Db, owner: Token)
    requires ProtocolOk(db) && IsRunning(db, owner)
    ensures NoMoneyMoved(db, ScheduleRetry(db, owner).After(db))
  {
    Protocol.ScheduleRetryShape(db, owner);
    Protocol.OwnerIsTheSessions(db, owner);
    var after := ScheduleRetry(db, owner).After(db);
    var s := db.attempts[owner].sessionId;
    RowMovesNoMoney(db, s, db.sessions[s].(status := Queued), after.events, after.versions, after.leases, after.attempts);
  }

  lemma OutlineReviewMovesNoMoney(db: Db, user: nat, s: nat, outline: string)
    ensures NoMoneyMoved(db, SubmitOutlineReview(db, user, s, outline).After(db))
  {
  }

  lemma FinalReviewMovesNoMoney(db: Db, user: nat, s: nat, action: ReviewAction)
    ensures NoMoneyMoved(db, SubmitFinalReview(db, user, s, action).After(db))
  {
    var outcome := SubmitFinalReview(db, user, s, action);
    if outcome.Committed? {
      assert outcome.db.sessions == db.sessions[s := outcome.db.sessions[s]];
    }
  }

  lemma ReaperMovesNoMoney(db: Db, skipped: set<nat>)
    ensures NoMoneyMoved(db, FailExhaustedClaims(db, skipped))
  {
  }

  // ----------------------------------------------------------------- transactions with money

  lemma GrantKeeps(db: Db, user: nat, amount: nat, tokens: nat)
    requires AccountingOk(db)
    ensures AccountingOk(Budget.GrantInitial(db, user, amount, tokens))
  {
    Budget.GrantKeepsMoney(db, user, amount, tokens);
    NoChargeKeepsCharges(db, Budget.GrantInitial(db, user, amount, tokens));
  }

  lemma CreateKeepsAccounting(db: Db, user: nat, lockFree: bool)
    requires AccountingOk(db)
    ensures AccountingOk(CreateGeneration(db, user, lockFree).After(db))
  {
    var outcome := CreateGeneration(db, user, lockFree);
    if outcome.Committed? {
      var after := outcome.db;
      var inserted := InsertSession(db.(quotas := after.quotas), user);
      var s := |db.sessions|;
      assert Budget.SameBooks(db, inserted);
      Budget.SameBooksKeepMoney(db, inserted);
      NoChargeKeepsCharges(db, inserted);
      assert s !in db.reservations by {
        assert s in db.reservations ==> Budget.ReservationOk(db, s);
      }
      Budget.ReserveKeepsMoney(inserted, s);
      var reserved := Budget.CheckAndReserve(inserted, user, s).value;
      NoChargeKeepsCharges(inserted, reserved);
      assert Budget.SameBooks(reserved, after);
      Budget.SameBooksKeepMoney(reserved, after);
      NoChargeKeepsCharges(reserved, after);
    }
  }

  lemma UsageKeeps(db: Db, s: nat, version: nat, usage: seq<StageUsage>)
    requires AccountingOk(db) && s < |db.sessions|
    ensures AccountingOk(Charging.CommitUsage(db, db.sessions[s].userId, s, version, usage))
  {
    var user := db.sessions[s].userId;
    var after := Charging.CommitUsage(db, user, s, version, usage);
    Charging.UsageOnlyCharges(db, user, s, version, usage);
    assert Budget.SameBooks(db, after);
    Budget.SameBooksKeepMoney(db, after);
    Charging.CommitUsageKeepsCharges(db, user, s, version, usage);
  }

  lemma ReleaseExcessKeeps(db: Db, s: nat)
    requires AccountingOk(db) && s < |db.sessions|
    ensures AccountingOk(Budget.ReleaseExcess(db, db.sessions[s].userId, s))
  {
    var after := Budget.ReleaseExcess(db, db.sessions[s].userId, s);
    if Budget.OpenReservation(db.reservations, s) {
      Budget.ReleaseExcessSettles(db, s);
      NoChargeKeepsCharges(db, after);
    }
  }

  lemma ReleaseAllKeeps(db: Db, s: nat)
    requires AccountingOk(db) && s < |db.sessions|
    ensures AccountingOk(Budget.ReleaseAll(db, db.sessions[s].userId, s))
  {
    var after := Budget.ReleaseAll(db, db.sessions[s].userId, s);
    if Budget.OpenReservation(db.reservations, s) {
      Budget.ReleaseAllFrees(db, s);
      NoChargeKeepsCharges(db, after);
    }
  }

  lemma OutlineCheckpointKeeps(db: Db, a: Attempt, v: nat, result: RunResult)
    requires AccountingOk(db) && a.sessionId < |db.sessions| && v < |db.versions|
    requires a.userId == db.sessions[a.sessionId].userId
    ensures AccountingOk(OutlineCheckpoint(db, a, v, result).After(db))
  {
    UsageKeeps(db, a.sessionId, db.versions[v].number, result.usage);
    var charged := Charging.CommitUsage(db, a.userId, a.sessionId, db.versions[v].number, result.usage);
    if OutlineCheckpoint(db, a, v, result).Committed? {
      NoMoneyMovedKeeps(charged, OutlineCheckpoint(db, a, v, result).db);
    }
  }

  lemma AgentRejectionKeeps(db: Db, a: Attempt, v: nat, result: RunResult)
    requires AccountingOk(db) && a.sessionId < |db.sessions| && v < |db.versions|
    requires a.userId == db.sessions[a.sessionId].userId
    ensures AccountingOk(AgentRejection(db, a, v, result).After(db))
  {
    var s := a.sessionId;
    UsageKeeps(db, s, db.versions[v].number, result.usage);
    Charging.UsageOnlyCharges(db, a.userId, s, db.versions[v].number, result.usage);
    var charged := Charging.CommitUsage(db, a.userId, s, db.versions[v].number, result.usage);
    var version := db.versions[v].(status := AgentRejected, jobPhase := a.phase);
    if AgentRejection(db, a, v, result).Committed? {
      var marked := UpdateStatus(charged.(versions := db.versions[v := version]), s, AgentRejected).db;
      var cleared := SetSession(marked, s, marked.sessions[s].(jobPhase := None));
      NoMoneyMovedKeeps(charged, cleared);
      ReleaseExcessKeeps(cleared, s);
    }
  }

  lemma FinalCheckpointKeeps(db: Db, a: Attempt, v: nat, result: RunResult)
    requires AccountingOk(db) && a.sessionId < |db.sessions| && v < |db.versions|
    requires a.userId == db.sessions[a.sessionId].userId
    ensures AccountingOk(FinalCheckpoint(db, a, v, result).After(db))
  {
    var s := a.sessionId;
    UsageKeeps(db, s, db.versions[v].number, result.usage);
    Charging.UsageOnlyCharges(db, a.userId, s, db.versions[v].number, result.usage);
    var charged := Charging.CommitUsage(db, a.userId, s, db.versions[v].number, result.usage);
    var outcome := FinalCheckpoint(db, a, v, result);
    if outcome.Committed? {
      SettleAndMove(charged, s, outcome.db.versions, outcome.db);
    }
  }

  /** Settle, then write versions and the status. */
  lemma SettleAndMove(db: Db, s: nat, versions: seq<Version>, after: Db)
    requires AccountingOk(db) && s < |db.sessions|
    requires UpdateStatus(Budget.ReleaseExcess(db.(versions := versions), db.sessions[s].userId, s), s, AwaitingFinalReview)
             == Committed(after)
    ensures AccountingOk(after)
  {
    var written := db.(versions := versions);
    NoMoneyMovedKeeps(db, written);
    ReleaseExcessKeeps(written, s);
    NoMoneyMovedKeeps(Budget.ReleaseExcess(written, db.sessions[s].userId, s), after);
  }

  lemma PersistSuccessKeepsAccounting(db: Db, owner: Token, result: RunResult)
    requires ProtocolOk(db) && AccountingOk(db) && IsRunning(db, owner)
    ensures AccountingOk(PersistSuccess(db, owner, result).After(db))
  {
    if PersistSuccess(db, owner, result).Committed? {
      var a := db.attempts[owner];
      Protocol.OwnerIsTheSessions(db, owner);
      Transactions.CommittedThroughCheckpoint(db, owner, result);
      var v := ActiveVersion(db, a.sessionId).value;
      OutlineCheckpointKeeps(db, a, v, result);
      AgentRejectionKeeps(db, a, v, result);
      FinalCheckpointKeeps(db, a, v, result);
      NoMoneyMovedKeeps(Transactions.Checkpoint(db, a, v, result).db, PersistSuccess(db, owner, result).db);
    }
  }

  lemma PersistFailureKeepsAccounting(db: Db, owner: Token)
    requires ProtocolOk(db) && AccountingOk(db) && IsRunning(db, owner)
    ensures AccountingOk(PersistFailure(db, owner).After(db))
  {
    if PersistFailure(db, owner).Committed? {
      var a := db.attempts[owner];
      Protocol.OwnerIsTheSessions(db, owner);
      FailAndFree(db, a.sessionId, a.phase, PersistFailure(db, owner).db.events);
    }
  }

  /** Mark failed, then free the whole reservation. */
  lemma FailAndFree(db: Db, s: nat, phase: Phase, events: seq<Event>)
    requires AccountingOk(db) && s < |db.sessions|
    requires UpdateStatus(SetVersionJob(db, s, Failed, phase), s, Failed).Committed?
    ensures var marked := UpdateStatus(SetVersionJob(db, s, Failed, phase), s, Failed).db;
            AccountingOk(Budget.ReleaseAll(marked, db.sessions[s].userId, s).(events := events))
  {
    MarkedFailed(db, s, phase);
    FreeAll(UpdateStatus(SetVersionJob(db, s, Failed, phase), s, Failed).db, s, events);
  }

  lemma MarkedFailed(db: Db, s: nat, phase: Phase)
    requires AccountingOk(db) && s < |db.sessions|
    requires UpdateStatus(SetVersionJob(db, s, Failed, phase), s, Failed).Committed?
    ensures var marked := UpdateStatus(SetVersionJob(db, s, Failed, phase), s, Failed).db;
            AccountingOk(marked) && s < |marked.sessions| && marked.sessions[s].userId == db.sessions[s].userId
  {
    NoMoneyMovedKeeps(db, UpdateStatus(SetVersionJob(db, s, Failed, phase), s, Failed).db);
  }

  lemma FreeAll(db: Db, s: nat, events: seq<Event>)
    requires AccountingOk(db) && s < |db.sessions|
    ensures AccountingOk(Budget.ReleaseAll(db, db.sessions[s].userId, s).(events := events))
  {
    ReleaseAllKeeps(db, s);
    var freed := Budget.ReleaseAll(db, db.sessions[s].userId, s);
    NoMoneyMovedKeeps(freed, freed.(events := events));
  }
}
