/** What saving a result or a failure answers: when it is saved, every document and row it
    leaves then, and every amount it moves. */
module Saving {
  import opened Rows
  import opened Tables
  import opened Workflow
  import opened Invariant
  import opened Protocol
  import opened Transactions
  import opened Answers
  import opened Usage
  import Accounting
  import Reachable
  import Budget
  import Charging
  import Outbox
  import Leases
  import Promises

  // -------------------------------------------------------------------------- ownership

  /** The attempt's claim runs, its session is PROCESSING, and its open lease runs. */
  predicate OwnsAll(db: Db, owner: Token) {
    && IsRunning(db, owner) && Owns(db, owner)
    && var a := db.attempts[owner];
       && db.events[a.eventId].lockedUntil.Some? && db.events[a.eventId].lockedUntil.value > db.clock
       && a.sessionId < |db.sessions| && db.sessions[a.sessionId].status == Processing
       && (exists i | 0 <= i < |db.leases| ::
             db.leases[i].owner == owner && db.leases[i].endedAt.None? && db.leases[i].expiresAt > db.clock)
  }

  lemma OwnsAllMeans(db: Db, owner: Token)
    requires Leases.LeasesOk(db.leases, db.attempts) && IsRunning(db, owner)
    ensures OwnsAll(db, owner) <==> OwnsAttempt(db, owner)
  {
    OwnLease(db, owner);
  }

  function AccountOf(db: Db, user: nat): Account {
    if user in db.accounts then db.accounts[user] else Account(0, 0, 0, 0)
  }

  predicate HoldsReservation(db: Db, s: nat) {
    s in db.reservations && db.reservations[s].releasedAt.None?
  }

  /** Reservations, accounts and settlements are as before. */
  predicate NothingSettled(db: Db, after: Db) {
    after.reservations == db.reservations && after.accounts == db.accounts && after.settlements == db.settlements
  }

  // ---------------------------------------------------------------------------- failure

  /** The whole reservation is given back, nothing is charged, and one RELEASE entry says so. */
  predicate Refunded(db: Db, after: Db, user: nat, s: nat)
    requires HoldsReservation(db, s)
  {
    var r := db.reservations[s];
    var account := AccountOf(db, user);
    && after.accounts == db.accounts[user := account.(reserved := account.reserved - r.usd)]
    && after.reservations == db.reservations[s := r.(releasedAt := Some(db.clock))]
    && after.settlements == db.settlements
    && after.ledger == db.ledger + [Entry(user, Some(s), None, Release, r.tokens, r.usd)]
  }

  lemma ReleaseAllRefunds(db: Db, s: nat)
    requires Budget.MoneyOk(db) && s < |db.sessions|
    ensures var user := db.sessions[s].userId;
            var after := Budget.ReleaseAll(db, user, s);
            && after == db.(accounts := after.accounts, reservations := after.reservations, ledger := after.ledger)
            && if HoldsReservation(db, s) then Refunded(db, after, user, s) else after == db
  {
    if HoldsReservation(db, s) {
      Budget.ReleaseAllFrees(db, s);
      assert Budget.ReservationOk(db, s);
    }
  }

  /** A failure is saved exactly by an attempt that owns claim, session and lease.  Its event,
      session and version are FAILED then; an open reservation is refunded in full, and with
      none no money moves. */
  lemma FailureAnswer(db: Db, owner: Token)
    requires ProtocolOk(db) && Budget.MoneyOk(db)
    ensures var after := Next(db, SaveFailure(owner));
            if OwnsAll(db, owner) then
              var a := db.attempts[owner];
              var s := a.sessionId;
              && ActiveVersion(db, s).Some?
              && var v := ActiveVersion(db, s).value;
                 && after == db.(
                      events := db.events[a.eventId := db.events[a.eventId].(status := EventFailed,
                                                                             lockedBy := None, lockedUntil := None)],
                      sessions := db.sessions[s := db.sessions[s].(status := Failed)],
                      versions := db.versions[v := db.versions[v].(status := Failed, jobPhase := a.phase)],
                      accounts := after.accounts, reservations := after.reservations, ledger := after.ledger)
                 && if HoldsReservation(db, s) then Refunded(db, after, db.sessions[s].userId, s)
                    else NothingSettled(db, after) && after.ledger == db.ledger
            else after == db
  {
    if IsRunning(db, owner) {
      OwnsAllMeans(db, owner);
      if OwnsAttempt(db, owner) {
        OwnerIsTheSessions(db, owner);
        assert ActiveVersionOk(db.sessions, db.attempts[owner].sessionId, db.versions);
        FailureRows(db, owner);
      }
    }
  }

  /** Marked FAILED, refunded, and the claim ended. */
  lemma FailureRows(db: Db, owner: Token)
    requires Budget.MoneyOk(db) && IsRunning(db, owner) && OwnsAttempt(db, owner)
    requires var a := db.attempts[owner];
             ActiveVersion(db, a.sessionId).Some? && a.userId == db.sessions[a.sessionId].userId
    ensures var a := db.attempts[owner];
            var s := a.sessionId;
            var v := ActiveVersion(db, s).value;
            var after := Next(db, SaveFailure(owner));
            && after == db.(
                 events := db.events[a.eventId := db.events[a.eventId].(status := EventFailed,
                                                                        lockedBy := None, lockedUntil := None)],
                 sessions := db.sessions[s := db.sessions[s].(status := Failed)],
                 versions := db.versions[v := db.versions[v].(status := Failed, jobPhase := a.phase)],
                 accounts := after.accounts, reservations := after.reservations, ledger := after.ledger)
            && if HoldsReservation(db, s) then Refunded(db, after, db.sessions[s].userId, s)
               else NothingSettled(db, after) && after.ledger == db.ledger
  {
    var a := db.attempts[owner];
    var s := a.sessionId;
    var v := ActiveVersion(db, s).value;
    var marked := db.(versions := db.versions[v := db.versions[v].(status := Failed, jobPhase := a.phase)],
                      sessions := db.sessions[s := db.sessions[s].(status := Failed)]);
    MarkedKeepsMoney(db, marked);
    ReleaseAllRefunds(marked, s);
    FailureSteps(db, owner, marked);
  }

  lemma MarkedKeepsMoney(db: Db, marked: Db)
    requires Budget.MoneyOk(db) && |marked.sessions| == |db.sessions|
    requires marked == db.(versions := marked.versions, sessions := marked.sessions)
    requires forall s | 0 <= s < |db.sessions| :: marked.sessions[s].userId == db.sessions[s].userId
    ensures Budget.MoneyOk(marked)
  {
    assert Budget.SameBooks(db, marked);
    Budget.SameBooksKeepMoney(db, marked);
  }

  lemma FailureSteps(db: Db, owner: Token, marked: Db)
    requires IsRunning(db, owner) && OwnsAttempt(db, owner) && ActiveVersion(db, db.attempts[owner].sessionId).Some?
    requires var a := db.attempts[owner];
             var s := a.sessionId;
             var v := ActiveVersion(db, s).value;
             marked == db.(versions := db.versions[v := db.versions[v].(status := Failed, jobPhase := a.phase)],
                           sessions := db.sessions[s := db.sessions[s].(status := Failed)])
    ensures var a := db.attempts[owner];
            Next(db, SaveFailure(owner)) == Budget.ReleaseAll(marked, a.userId, a.sessionId).(
              events := db.events[a.eventId := db.events[a.eventId].(status := EventFailed,
                                                                     lockedBy := None, lockedUntil := None)])
  {
    var a := db.attempts[owner];
    assert UpdateStatus(SetVersionJob(db, a.sessionId, Failed, a.phase), a.sessionId, Failed) == Committed(marked);
    ReleaseAllEvents(marked, a.userId, a.sessionId);
  }

  lemma ReleaseAllEvents(db: Db, user: nat, s: nat)
    ensures Budget.ReleaseAll(db, user, s).events == db.events
  {
  }

  // ---------------------------------------------------------------------------- success

  /** The status a saved result moves session and version to. */
  function Outcome(a: Attempt, result: RunResult): Status {
    if a.phase != FreshGeneration then AwaitingFinalReview
    else if result.intentClear then AwaitingOutlineReview
    else AgentRejected
  }

  /** The version after the result: an outline waits with what came with it; a final result
      keeps the outline it was written from; a rejection leaves the documents alone. */
  function Documents(version: Version, a: Attempt, result: RunResult): Version {
    if a.phase != FreshGeneration then
      version.(status := AwaitingFinalReview, jobPhase := a.phase,
               outlineData := if result.outline != "" then result.outline else version.outlineData,
               approvedOutline := if result.outline != "" then result.outline
                                  else if a.approvedOutline != "" then a.approvedOutline
                                  else version.approvedOutline,
               draft := result.draft, finalContent := result.finalContent)
    else if result.intentClear then
      version.(status := AwaitingOutlineReview, jobPhase := ResearchPhase, outlineData := result.outline,
               draft := result.draft, finalContent := result.finalContent)
    else
      version.(status := AgentRejected, jobPhase := a.phase)
  }

  /** The session after the result: its status, its grown totals, and no phase once rejected. */
  function Row(row: Session, a: Attempt, result: RunResult, due: seq<StageUsage>): Session {
    row.(status := Outcome(a, result),
         jobPhase := if Outcome(a, result) == AgentRejected then None else row.jobPhase,
         spentTokens := row.spentTokens + TokenTotal(due),
         spentUsd := row.spentUsd + UsdTotal(due))
  }

  /** Minus the COMMIT sums of the session, with the due items of this result. */
  function Cost(db: Db, s: nat, due: seq<StageUsage>): int {
    UsdTotal(due) - Budget.CommittedUsd(db.ledger, s)
  }

  function TokenCost(db: Db, s: nat, due: seq<StageUsage>): int {
    TokenTotal(due) - Budget.CommittedTokens(db.ledger, s)
  }

  /** The reservation is closed, its user charged what the ledger records for the session by
      now, and the rest is given back in one RELEASE entry behind the n entries so far. */
  predicate Settled(db: Db, after: Db, user: nat, s: nat, cost: int, tokens: int, n: nat)
    requires HoldsReservation(db, s)
  {
    var r := db.reservations[s];
    var account := AccountOf(db, user);
    && cost >= 0
    && after.accounts == db.accounts[user := Account(account.balance - cost, account.reserved - r.usd,
                                                     account.granted, account.spent + cost)]
    && after.reservations == db.reservations[s := r.(releasedAt := Some(db.clock))]
    && after.settlements == db.settlements[s := Settlement(cost, n)]
    && |after.ledger| == n + 1
    && after.ledger[n] == Entry(user, Some(s), None, Release,
                                if r.tokens > tokens then r.tokens - tokens else 0,
                                if r.usd > cost then r.usd - cost else 0)
  }

  /** Everything a saved result leaves. */
  predicate Saved(db: Db, after: Db, owner: Token, result: RunResult)
    requires owner in db.attempts
  {
    var a := db.attempts[owner];
    var s := a.sessionId;
    && a.eventId < |db.events| && s < |db.sessions| && ActiveVersion(db, s).Some?
    && var v := ActiveVersion(db, s).value;
       var user := db.sessions[s].userId;
       var number := db.versions[v].number;
       var due := Due(db.runs, s, number, result.usage, |result.usage|);
       && after == db.(
            events := db.events[a.eventId := db.events[a.eventId].(status := EventProcessed,
                                                                   lockedBy := None, lockedUntil := None)],
            sessions := db.sessions[s := Row(db.sessions[s], a, result, due)],
            versions := db.versions[v := Documents(db.versions[v], a, result)],
            runs := after.runs, ledger := after.ledger, accounts := after.accounts,
            reservations := after.reservations, settlements := after.settlements)
       && db.ledger <= after.ledger && |after.ledger| >= |db.ledger| + |due|
       && (forall m | 0 <= m < |due| :: Charges(after.ledger[|db.ledger| + m], due[m], user, s, number, after.runs))
       && (if Outcome(a, result) != AwaitingOutlineReview && HoldsReservation(db, s) then
             Settled(db, after, user, s, Cost(db, s, due), TokenCost(db, s, due), |db.ledger| + |due|)
           else NothingSettled(db, after) && |after.ledger| == |db.ledger| + |due|)
  }

  /** The tables with the usage committed. */
  predicate UsageShape(db: Db, charged: Db, s: nat, number: nat, usage: seq<StageUsage>)
    requires s < |db.sessions|
  {
    var due := Due(db.runs, s, number, usage, |usage|);
    && charged == db.(runs := charged.runs, ledger := charged.ledger,
                      sessions := db.sessions[s := db.sessions[s].(
                        spentTokens := db.sessions[s].spentTokens + TokenTotal(due),
                        spentUsd := db.sessions[s].spentUsd + UsdTotal(due))])
    && Charged(db, charged, db.sessions[s].userId, s, number, due)
    && -Budget.CommittedUsd(charged.ledger, s) == Cost(db, s, due)
    && -Budget.CommittedTokens(charged.ledger, s) == TokenCost(db, s, due)
  }

  lemma UsageState(db: Db, s: nat, number: nat, usage: seq<StageUsage>, charged: Db)
    requires Charging.ChargesOk(db) && s < |db.sessions|
    requires charged == Charging.CommitUsage(db, db.sessions[s].userId, s, number, usage)
    ensures UsageShape(db, charged, s, number, usage)
  {
    var user := db.sessions[s].userId;
    var due := Due(db.runs, s, number, usage, |usage|);
    Charging.UsageOnlyCharges(db, user, s, number, usage);
    UsageChargesExactly(db, user, s, number, usage);
    LedgerSumsExactly(db, user, s, number, usage);
    UsageShapeFrom(db, charged, s, number, usage, due);
  }

  lemma UsageShapeFrom(db: Db, charged: Db, s: nat, number: nat, usage: seq<StageUsage>, due: seq<StageUsage>)
    requires s < |db.sessions| && Charging.OnlyCharges(db, charged, s)
    requires due == Due(db.runs, s, number, usage, |usage|)
    requires Charged(db, charged, db.sessions[s].userId, s, number, due)
    requires Budget.CommittedUsd(charged.ledger, s) == Budget.CommittedUsd(db.ledger, s) - UsdTotal(due)
    requires Budget.CommittedTokens(charged.ledger, s) == Budget.CommittedTokens(db.ledger, s) - TokenTotal(due)
    ensures UsageShape(db, charged, s, number, usage)
  {
    ChargedRow(db, charged, s, db.sessions[s].spentTokens + TokenTotal(due), db.sessions[s].spentUsd + UsdTotal(due));
  }

  lemma ChargedRow(db: Db, charged: Db, s: nat, tokens: int, usd: int)
    requires s < |db.sessions| && Charging.OnlyCharges(db, charged, s)
    requires charged.sessions[s].spentTokens == tokens && charged.sessions[s].spentUsd == usd
    ensures charged == db.(runs := charged.runs, ledger := charged.ledger,
                           sessions := db.sessions[s := db.sessions[s].(spentTokens := tokens, spentUsd := usd)])
  {
  }

  /** Closing an open reservation, amount by amount. */
  lemma ClosingSettles(db: Db, s: nat)
    requires Budget.MoneyOk(db) && s < |db.sessions|
    ensures var user := db.sessions[s].userId;
            var after := Budget.ReleaseExcess(db, user, s);
            && after == db.(accounts := after.accounts, reservations := after.reservations,
                            settlements := after.settlements, ledger := after.ledger)
            && if HoldsReservation(db, s) then
                 && db.ledger <= after.ledger
                 && Settled(db, after, user, s, -Budget.CommittedUsd(db.ledger, s),
                            -Budget.CommittedTokens(db.ledger, s), |db.ledger|)
               else after == db
  {
    if HoldsReservation(db, s) {
      Budget.ReleaseExcessSettles(db, s);
      Budget.CommitsAreNegative(db, s);
    }
  }

  /** A result is saved exactly by an attempt that owns claim, session and lease, when the
      result is usable.  Its event is PROCESSED then, session and version move together, the
      documents are stored, and the due usage is charged.  An outline leaves reservation and
      account alone; a rejection and a final result settle an open reservation. */
  lemma SuccessAnswer(db: Db, owner: Token, result: RunResult)
    requires Reachable.Inv(db)
    ensures var after := Next(db, SaveSuccess(owner, result));
            if OwnsAll(db, owner) && Promises.Usable(result, db.attempts[owner].phase) then Saved(db, after, owner, result)
            else after == db
  {
    if IsRunning(db, owner) {
      OwnsAllMeans(db, owner);
      Promises.SavesExactly(db, owner, result);
      if OwnsAttempt(db, owner) && Promises.Usable(result, db.attempts[owner].phase) {
        CommittedThroughCheckpoint(db, owner, result);
        OwnerIsTheSessions(db, owner);
        SavedRows(db, owner, result);
      }
    }
  }

  lemma SavedRows(db: Db, owner: Token, result: RunResult)
    requires Accounting.AccountingOk(db) && IsRunning(db, owner) && PersistSuccess(db, owner, result).Committed?
    requires OwnsAttempt(db, owner) && ActiveVersion(db, db.attempts[owner].sessionId).Some?
    requires db.attempts[owner].userId == db.sessions[db.attempts[owner].sessionId].userId
    ensures Saved(db, Next(db, SaveSuccess(owner, result)), owner, result)
  {
    var a := db.attempts[owner];
    var v := ActiveVersion(db, a.sessionId).value;
    CheckpointRows(db, a, v, result);
    SuccessSteps(db, owner, result, Checkpoint(db, a, v, result).db);
    EndsClaim(db, Checkpoint(db, a, v, result).db, Next(db, SaveSuccess(owner, result)), owner, v, result);
  }

  lemma SuccessSteps(db: Db, owner: Token, result: RunResult, mid: Db)
    requires IsRunning(db, owner) && PersistSuccess(db, owner, result).Committed?
    requires OwnsAttempt(db, owner) && ActiveVersion(db, db.attempts[owner].sessionId).Some?
    requires var a := db.attempts[owner];
             Checkpoint(db, a, ActiveVersion(db, a.sessionId).value, result) == Committed(mid) && mid.events == db.events
    ensures var a := db.attempts[owner];
            Next(db, SaveSuccess(owner, result)) == mid.(
              events := db.events[a.eventId := db.events[a.eventId].(status := EventProcessed,
                                                                     lockedBy := None, lockedUntil := None)])
  {
    CommittedThroughCheckpoint(db, owner, result);
  }

  lemma EndsClaim(db: Db, mid: Db, after: Db, owner: Token, v: nat, result: RunResult)
    requires IsRunning(db, owner) && Owns(db, owner)
    requires db.attempts[owner].sessionId < |db.sessions| && ActiveVersion(db, db.attempts[owner].sessionId) == Some(v)
    requires Checkpointed(db, mid, db.attempts[owner], v, result)
    requires var a := db.attempts[owner];
             after == mid.(events := db.events[a.eventId := db.events[a.eventId].(status := EventProcessed,
                                                                                  lockedBy := None, lockedUntil := None)])
    ensures Saved(db, after, owner, result)
  {
  }

  /** The checkpoint, before the claim ends. */
  predicate Checkpointed(db: Db, after: Db, a: Attempt, v: nat, result: RunResult)
    requires a.sessionId < |db.sessions| && v < |db.versions|
  {
    var s := a.sessionId;
    var user := db.sessions[s].userId;
    var number := db.versions[v].number;
    var due := Due(db.runs, s, number, result.usage, |result.usage|);
    && after == db.(
         sessions := db.sessions[s := Row(db.sessions[s], a, result, due)],
         versions := db.versions[v := Documents(db.versions[v], a, result)],
         runs := after.runs, ledger := after.ledger, accounts := after.accounts,
         reservations := after.reservations, settlements := after.settlements)
    && db.ledger <= after.ledger && |after.ledger| >= |db.ledger| + |due|
    && (forall m | 0 <= m < |due| :: Charges(after.ledger[|db.ledger| + m], due[m], user, s, number, after.runs))
    && (if Outcome(a, result) != AwaitingOutlineReview && HoldsReservation(db, s) then
          Settled(db, after, user, s, Cost(db, s, due), TokenCost(db, s, due), |db.ledger| + |due|)
        else NothingSettled(db, after) && |after.ledger| == |db.ledger| + |due|)
  }

  lemma CheckpointRows(db: Db, a: Attempt, v: nat, result: RunResult)
    requires Accounting.AccountingOk(db) && a.sessionId < |db.sessions| && v < |db.versions|
    requires a.userId == db.sessions[a.sessionId].userId && db.sessions[a.sessionId].status == Processing
    ensures Checkpoint(db, a, v, result).Committed? && Checkpointed(db, Checkpoint(db, a, v, result).db, a, v, result)
  {
    if a.phase != FreshGeneration {
      FinalRows(db, a, v, result);
    } else if result.intentClear {
      OutlineRows(db, a, v, result);
    } else {
      RejectionRows(db, a, v, result);
    }
  }

  lemma OutlineRows(db: Db, a: Attempt, v: nat, result: RunResult)
    requires Accounting.AccountingOk(db) && a.sessionId < |db.sessions| && v < |db.versions|
    requires a.userId == db.sessions[a.sessionId].userId && db.sessions[a.sessionId].status == Processing
    requires a.phase == FreshGeneration && result.intentClear
    ensures OutlineCheckpoint(db, a, v, result).Committed?
    ensures Checkpointed(db, OutlineCheckpoint(db, a, v, result).db, a, v, result)
  {
    var charged := Charging.CommitUsage(db, a.userId, a.sessionId, db.versions[v].number, result.usage);
    UsageState(db, a.sessionId, db.versions[v].number, result.usage, charged);
    OutlineSteps(db, charged, a, v, result);
    WaitingRows(db, charged, OutlineCheckpoint(db, a, v, result).db, a, v, result);
  }

  lemma OutlineSteps(db: Db, charged: Db, a: Attempt, v: nat, result: RunResult)
    requires a.sessionId < |db.sessions| && v < |db.versions| && a.phase == FreshGeneration && result.intentClear
    requires charged == Charging.CommitUsage(db, a.userId, a.sessionId, db.versions[v].number, result.usage)
    requires charged.sessions[a.sessionId].status == Processing
    ensures OutlineCheckpoint(db, a, v, result) == Committed(charged.(
              versions := db.versions[v := Documents(db.versions[v], a, result)],
              sessions := charged.sessions[a.sessionId := charged.sessions[a.sessionId].(status := AwaitingOutlineReview)]))
  {
  }

  /** The rows of a checkpoint that leaves the reservation open. */
  lemma WaitingRows(db: Db, charged: Db, after: Db, a: Attempt, v: nat, result: RunResult)
    requires a.sessionId < |db.sessions| && v < |db.versions| && Outcome(a, result) == AwaitingOutlineReview
    requires UsageShape(db, charged, a.sessionId, db.versions[v].number, result.usage)
    requires after == charged.(
               versions := db.versions[v := Documents(db.versions[v], a, result)],
               sessions := charged.sessions[a.sessionId := charged.sessions[a.sessionId].(status := AwaitingOutlineReview)])
    ensures Checkpointed(db, after, a, v, result)
  {
    var due := Due(db.runs, a.sessionId, db.versions[v].number, result.usage, |result.usage|);
    assert after.sessions == db.sessions[a.sessionId := Row(db.sessions[a.sessionId], a, result, due)];
  }

  lemma FinalRows(db: Db, a: Attempt, v: nat, result: RunResult)
    requires Accounting.AccountingOk(db) && a.sessionId < |db.sessions| && v < |db.versions|
    requires a.userId == db.sessions[a.sessionId].userId && db.sessions[a.sessionId].status == Processing
    requires a.phase != FreshGeneration
    ensures FinalCheckpoint(db, a, v, result).Committed?
    ensures Checkpointed(db, FinalCheckpoint(db, a, v, result).db, a, v, result)
  {
    var s := a.sessionId;
    var charged := Charging.CommitUsage(db, a.userId, s, db.versions[v].number, result.usage);
    UsageState(db, s, db.versions[v].number, result.usage, charged);
    Accounting.UsageKeeps(db, s, db.versions[v].number, result.usage);
    var written := charged.(versions := db.versions[v := Documents(db.versions[v], a, result)]);
    MarkedKeepsMoney(charged, written);
    ClosingSettles(written, s);
    var closed := Budget.ReleaseExcess(written, a.userId, s);
    FinalSteps(db, charged, closed, a, v, result);
    SettledRows(db, charged, written, closed, FinalCheckpoint(db, a, v, result).db, a, v, result);
  }

  /** How the final checkpoint runs through usage, documents, closing and status. */
  lemma FinalSteps(db: Db, charged: Db, closed: Db, a: Attempt, v: nat, result: RunResult)
    requires a.sessionId < |db.sessions| && v < |db.versions| && a.phase != FreshGeneration
    requires charged == Charging.CommitUsage(db, a.userId, a.sessionId, db.versions[v].number, result.usage)
    requires closed == Budget.ReleaseExcess(
               charged.(versions := db.versions[v := Documents(db.versions[v], a, result)]), a.userId, a.sessionId)
    requires closed.sessions == charged.sessions && charged.sessions[a.sessionId].status == Processing
    ensures FinalCheckpoint(db, a, v, result) == Committed(closed.(
              sessions := charged.sessions[a.sessionId := charged.sessions[a.sessionId].(status := AwaitingFinalReview)]))
  {
    FinalUpdate(db, charged, closed, a, v, result);
  }

  lemma FinalUpdate(db: Db, charged: Db, closed: Db, a: Attempt, v: nat, result: RunResult)
    requires a.sessionId < |db.sessions| && v < |db.versions| && a.phase != FreshGeneration
    requires charged == Charging.CommitUsage(db, a.userId, a.sessionId, db.versions[v].number, result.usage)
    requires closed == Budget.ReleaseExcess(
               charged.(versions := db.versions[v := Documents(db.versions[v], a, result)]), a.userId, a.sessionId)
    ensures a.sessionId < |closed.sessions|
    ensures FinalCheckpoint(db, a, v, result) == UpdateStatus(closed, a.sessionId, AwaitingFinalReview)
  {
    assert Documents(db.versions[v], a, result)
        == db.versions[v].(status := AwaitingFinalReview, jobPhase := a.phase,
                           outlineData := Or(result.outline, db.versions[v].outlineData),
                           approvedOutline := Or(Or(result.outline, a.approvedOutline), db.versions[v].approvedOutline),
                           draft := result.draft, finalContent := result.finalContent);
  }

  /** The rows of a checkpoint that closes the reservation. */
  lemma SettledRows(db: Db, charged: Db, written: Db, closed: Db, after: Db, a: Attempt, v: nat, result: RunResult)
    requires a.sessionId < |db.sessions| && v < |db.versions| && Outcome(a, result) != AwaitingOutlineReview
    requires UsageShape(db, charged, a.sessionId, db.versions[v].number, result.usage)
    requires written == charged.(versions := db.versions[v := Documents(db.versions[v], a, result)],
                                 sessions := written.sessions)
    requires closed == written.(accounts := closed.accounts, reservations := closed.reservations,
                                settlements := closed.settlements, ledger := closed.ledger)
    requires var s := a.sessionId;
             if HoldsReservation(written, s) then
               && written.ledger <= closed.ledger
               && Settled(written, closed, db.sessions[s].userId, s, -Budget.CommittedUsd(written.ledger, s),
                          -Budget.CommittedTokens(written.ledger, s), |written.ledger|)
             else closed == written
    requires var row := charged.sessions[a.sessionId];
             after == closed.(sessions := charged.sessions[a.sessionId := row.(
               status := Outcome(a, result),
               jobPhase := if Outcome(a, result) == AgentRejected then None else row.jobPhase)])
    ensures Checkpointed(db, after, a, v, result)
  {
    var due := Due(db.runs, a.sessionId, db.versions[v].number, result.usage, |result.usage|);
    assert after.sessions == db.sessions[a.sessionId := Row(db.sessions[a.sessionId], a, result, due)];
    forall m | 0 <= m < |due|
      ensures Charges(after.ledger[|db.ledger| + m], due[m], db.sessions[a.sessionId].userId, a.sessionId,
                      db.versions[v].number, after.runs)
    {
      assert after.ledger[|db.ledger| + m] == charged.ledger[|db.ledger| + m];
    }
  }

  lemma RejectionRows(db: Db, a: Attempt, v: nat, result: RunResult)
    requires Accounting.AccountingOk(db) && a.sessionId < |db.sessions| && v < |db.versions|
    requires a.userId == db.sessions[a.sessionId].userId && db.sessions[a.sessionId].status == Processing
    requires a.phase == FreshGeneration && !result.intentClear
    ensures AgentRejection(db, a, v, result).Committed?
    ensures Checkpointed(db, AgentRejection(db, a, v, result).db, a, v, result)
  {
    var s := a.sessionId;
    var charged := Charging.CommitUsage(db, a.userId, s, db.versions[v].number, result.usage);
    UsageState(db, s, db.versions[v].number, result.usage, charged);
    Accounting.UsageKeeps(db, s, db.versions[v].number, result.usage);
    var row := charged.sessions[s].(status := AgentRejected, jobPhase := None);
    var written := charged.(versions := db.versions[v := Documents(db.versions[v], a, result)],
                            sessions := charged.sessions[s := row]);
    MarkedKeepsMoney(charged, written);
    ClosingSettles(written, s);
    var closed := Budget.ReleaseExcess(written, a.userId, s);
    RejectionSteps(db, charged, a, v, result);
    SettledRows(db, charged, written, closed, closed, a, v, result);
  }

  lemma RejectionSteps(db: Db, charged: Db, a: Attempt, v: nat, result: RunResult)
    requires a.sessionId < |db.sessions| && v < |db.versions| && a.phase == FreshGeneration && !result.intentClear
    requires charged == Charging.CommitUsage(db, a.userId, a.sessionId, db.versions[v].number, result.usage)
    requires charged.sessions[a.sessionId].status == Processing
    ensures var s := a.sessionId;
            var row := charged.sessions[s].(status := AgentRejected, jobPhase := None);
            AgentRejection(db, a, v, result) == Committed(Budget.ReleaseExcess(
              charged.(versions := db.versions[v := Documents(db.versions[v], a, result)],
                       sessions := charged.sessions[s := row]), a.userId, s))
  {
    var s := a.sessionId;
    var marked := charged.sessions[s].(status := AgentRejected);
    assert charged.sessions[s := marked][s := marked.(jobPhase := None)]
        == charged.sessions[s := marked.(jobPhase := None)];
  }
}
