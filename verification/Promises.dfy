/** What the invariants promise in plain terms, in every reachable state; and that an
    attempt nobody interrupts finishes its event. */
module Promises {
  import opened Rows
  import opened Tables
  import opened Workflow
  import opened Invariant
  import opened Protocol
  import opened Transactions
  import opened Coherence
  import Reachable
  import Fencing
  import Recovery
  import Outbox
  import Leases
  import Lifecycle
  import Budget
  import Charging
  import Sums

  /** In every run: the owner and the lock expiry are set exactly while an event is
      PROCESSING, a PENDING event has an attempt left, a session has at most one active
      event and at most one open lease. */
  lemma ClaimsInEveryRun(steps: seq<Step>, i: nat, j: nat)
    ensures var db := Run(EMPTY, steps);
            && (i < |db.events| ==>
                  && (db.events[i].lockedBy.Some? <==> db.events[i].status == EventProcessing)
                  && (db.events[i].lockedUntil.Some? <==> db.events[i].status == EventProcessing)
                  && (db.events[i].status == EventPending ==> db.events[i].attempts <= 3))
            && (i < j < |db.events| && Outbox.Active(db.events[i]) && Outbox.Active(db.events[j]) ==>
                  db.events[i].sessionId != db.events[j].sessionId)
            && (i < j < |db.leases| && db.leases[i].endedAt.None? && db.leases[j].endedAt.None? ==>
                  db.leases[i].sessionId != db.leases[j].sessionId)
  {
    Reachable.ReachableIsOk(steps);
    var db := Run(EMPTY, steps);
    assert i < |db.events| ==> Outbox.EventOk(db.events[i], i, db.attempts);
  }

  /** In every run, for every user: what is reserved is the sum of the open reservations,
      balance and spending add up to the grants, spending is the sum of the settled costs
      and never more than the ledger records, and the available balance is negative by at
      most what settled sessions went over their reservations. */
  lemma AccountsInEveryRun(steps: seq<Step>, user: nat)
    ensures var db := Run(EMPTY, steps);
            var a := Budget.GetAccount(db.accounts, user);
            && a.reserved == Budget.OpenTotal(db, user)
            && a.balance + a.spent == a.granted
            && a.spent == Budget.SettledTotal(db, user)
            && a.spent <= Sums.Sum(Budget.LedgerUsdOf(db, user), |db.sessions|)
            && a.balance - a.reserved >= -Budget.OverrunTotal(db, user)
            && ((forall s | s in db.settlements :: db.settlements[s].usd <= ESTIMATED_USD) ==>
                  0 <= a.reserved <= a.balance)
  {
    Reachable.ReachableIsOk(steps);
    var db := Run(EMPTY, steps);
    assert Budget.AccountOk(db, user);
    Budget.ChargedWithinLedger(db, user);
    if forall s | s in db.settlements :: db.settlements[s].usd <= ESTIMATED_USD {
      Budget.ReservedWithinBalance(db, user);
    }
  }

  /** In every run the three views of a session's usage agree, no agent run has two COMMIT
      entries, and a COMMIT is over minus the tokens and minus the price of its run. */
  lemma UsageInEveryRun(steps: seq<Step>, s: nat, i: nat, j: nat)
    ensures var db := Run(EMPTY, steps);
            && (s < |db.sessions| ==>
                  && db.sessions[s].spentTokens == -Budget.CommittedTokens(db.ledger, s)
                  && db.sessions[s].spentTokens == Charging.RunTokens(db.runs, s)
                  && db.sessions[s].spentUsd == -Budget.CommittedUsd(db.ledger, s))
            && (i < j < |db.ledger| && db.ledger[i].kind == Commit && db.ledger[j].kind == Commit ==>
                  db.ledger[i].runId != db.ledger[j].runId)
            && (i < |db.ledger| && db.ledger[i].kind == Commit ==>
                  && db.ledger[i].runId.Some? && db.ledger[i].runId.value < |db.runs|
                  && db.ledger[i].tokens == -(db.runs[db.ledger[i].runId.value].tokens as int)
                  && db.ledger[i].usd == -(db.runs[db.ledger[i].runId.value].usd as int))
  {
    Reachable.ReachableIsOk(steps);
    var db := Run(EMPTY, steps);
    assert i < |db.ledger| ==> Charging.CommitOk(db.ledger[i], db);
    assert s < |db.sessions| ==> Charging.ViewsAgree(db, s);
  }

  /** In every run at most one attempt owns a session: claim, PROCESSING status and lease. */
  lemma OneOwnerInEveryRun(steps: seq<Step>, t: Token, u: Token)
    requires var db := Run(EMPTY, steps);
             && IsRunning(db, t) && OwnsAttempt(db, t) && IsRunning(db, u) && OwnsAttempt(db, u)
             && db.attempts[t].sessionId == db.attempts[u].sessionId
    ensures t == u
  {
  }

  /** The result has what its phase has to deliver, or rejects the request. */
  predicate Usable(result: RunResult, phase: Phase) {
    if phase == FreshGeneration then !result.intentClear || result.outline != "" else result.finalContent != ""
  }

  /** A result is saved if and only if its attempt owns claim, session and lease and the
      result is usable: no other check of the transaction ever raises.  A failure is saved
      if and only if its attempt owns them.  Otherwise nothing is written. */
  lemma SavesExactly(db: Db, owner: Token, result: RunResult)
    requires ProtocolOk(db) && IsRunning(db, owner)
    ensures PersistSuccess(db, owner, result).Committed?
       <==> OwnsAttempt(db, owner) && Usable(result, db.attempts[owner].phase)
    ensures PersistFailure(db, owner).Committed? <==> OwnsAttempt(db, owner)
    ensures !OwnsAttempt(db, owner) ==>
              Next(db, SaveSuccess(owner, result)) == db && Next(db, SaveFailure(owner)) == db
  {
    if OwnsAttempt(db, owner) {
      FailureIsSaved(db, owner);
      if Usable(result, db.attempts[owner].phase) {
        OwnedIsSaved(db, owner, result);
      }
    }
  }

  lemma FailureIsSaved(db: Db, owner: Token)
    requires IsRunning(db, owner) && OwnsAttempt(db, owner)
    ensures PersistFailure(db, owner).Committed?
  {
  }

  // -------------------------------------------------------- an uninterrupted attempt

  /** The session can be acquired for its event: QUEUED without an open lease, or with an
      open lease that has expired. */
  predicate Free(db: Db, s: nat) {
    var current := Leases.ActiveLease(db.leases, s);
    && s < |db.sessions|
    && (if current.Some? then db.leases[current.value].expiresAt <= db.clock
        else db.sessions[s].status == Queued)
  }

  /** The result has what the phase has to deliver. */
  predicate Delivers(result: RunResult, phase: Phase) {
    if phase == FreshGeneration then result.intentClear && result.outline != "" else result.finalContent != ""
  }

  lemma ClaimedState(db: Db, event: nat, owner: Token)
    requires ProtocolOk(db) && Coherent(db) && owner !in db.attempts
    requires event < |db.events| && Outbox.Claimable(db.events[event], db.clock)
    ensures var claimed := Claim(db, event, owner);
            && ProtocolOk(claimed) && Coherent(claimed)
            && claimed == db.(events := claimed.events, attempts := claimed.attempts)
            && owner in claimed.attempts && claimed.attempts[owner].stage == Claimed
            && claimed.attempts[owner].eventId == event < |claimed.events|
            && claimed.attempts[owner].sessionId == db.events[event].sessionId
            && claimed.attempts[owner].phase == db.events[event].phase
            && claimed.events[event].lockedBy == Some(owner)
            && Outbox.CurrentClaim(claimed.events, event, owner, db.clock)
  {
    ClaimKeeps(db, event, owner);
    ClaimCoherent(db, event, owner);
  }

  lemma FreeIsAcquired(db: Db, event: nat, owner: Token)
    requires ProtocolOk(db) && Coherent(db)
    requires owner in db.attempts && db.attempts[owner].stage == Claimed && db.attempts[owner].eventId == event
    requires Outbox.CurrentClaim(db.events, event, owner, db.clock)
    requires Free(db, db.attempts[owner].sessionId)
    ensures WouldAcquire(db, owner)
  {
    ActiveMatches(db, event);
    OwnerIsTheSessions(db, owner);
    assert LinkOk(db.events[event], db.sessions);
    Recovery.AcquiresExactly(db, owner);
  }

  /** The attempt acquires the session, and then owns claim, session and lease. */
  lemma AcquiresFree(db: Db, event: nat, owner: Token)
    requires ProtocolOk(db) && Coherent(db)
    requires owner in db.attempts && db.attempts[owner].stage == Claimed && db.attempts[owner].eventId == event
    requires Outbox.CurrentClaim(db.events, event, owner, db.clock)
    requires Free(db, db.attempts[owner].sessionId)
    ensures var acquired := Acquire(db, owner);
            && IsRunning(acquired, owner) && OwnsAttempt(acquired, owner) && ProtocolOk(acquired)
            && acquired.attempts[owner].sessionId == db.attempts[owner].sessionId
            && acquired.attempts[owner].eventId == event && acquired.attempts[owner].phase == db.attempts[owner].phase
  {
    var a := db.attempts[owner];
    FreeIsAcquired(db, event, owner);
    AcquireKeeps(db, owner);
    var acquired := AcquireLease(db, a.sessionId, a.phase, owner);
    AcquiredShape(db, owner, acquired.db, acquired.leaseVersion);
    NewLeaseIsActive(db, Acquire(db, owner), a.sessionId, owner, acquired.leaseVersion);
  }

  lemma NewLeaseIsActive(db: Db, after: Db, s: nat, owner: Token, version: nat)
    requires Leases.LeasesOk(after.leases, after.attempts)
    requires after.leases == Leases.Insert(FreedLeases(db, s), db.clock, s, owner, version) && after.clock == db.clock
    ensures Leases.CurrentLease(after.leases, s, owner, version, after.clock)
  {
  }

  /** An owned attempt with a usable result is saved. */
  lemma OwnedIsSaved(db: Db, owner: Token, result: RunResult)
    requires ProtocolOk(db) && IsRunning(db, owner) && OwnsAttempt(db, owner)
    requires Usable(result, db.attempts[owner].phase)
    ensures PersistSuccess(db, owner, result).Committed?
  {
    var a := db.attempts[owner];
    OwnerIsTheSessions(db, owner);
    assert ActiveVersionOk(db.sessions, a.sessionId, db.versions);
    var v := ActiveVersion(db, a.sessionId).value;
    Charging.UsageOnlyCharges(db, a.userId, a.sessionId, db.versions[v].number, result.usage);
  }

  lemma NextSaves(db: Db, owner: Token, result: RunResult)
    requires IsRunning(db, owner) && PersistSuccess(db, owner, result).Committed?
    ensures Next(db, SaveSuccess(owner, result)) == PersistSuccess(db, owner, result).db
  {
  }

  /** A saved result ends the event and moves the session to its review. */
  lemma SavedState(db: Db, owner: Token, result: RunResult, after: Db)
    requires ProtocolOk(db) && IsRunning(db, owner)
    requires PersistSuccess(db, owner, result) == Committed(after)
    requires Delivers(result, db.attempts[owner].phase)
    ensures var a := db.attempts[owner];
            && a.eventId < |after.events| && after.events[a.eventId].status == EventProcessed
            && a.sessionId < |after.sessions|
            && after.sessions[a.sessionId].status
               == if a.phase == FreshGeneration then AwaitingOutlineReview else AwaitingFinalReview
  {
    PersistSuccessShape(db, owner, result);
  }

  function WholeAttempt(event: nat, owner: Token, result: RunResult): seq<Step> {
    [ClaimDelivery(event, owner)] + [AcquireSession(owner)] + [SaveSuccess(owner, result)]
  }

  lemma ThreeSteps(db: Db, a: Step, b: Step, c: Step, one: Db, two: Db)
    requires one == Next(db, a) && two == Next(one, b)
    ensures Run(db, [a] + [b] + [c]) == Next(two, c)
  {
    Fencing.RunOne(db, a);
    Fencing.RunThen(db, [a], b);
    Fencing.RunThen(db, [a] + [b], c);
  }

  lemma ClaimThenAcquire(db: Db, event: nat, owner: Token, claimed: Db)
    requires claimed == Claim(db, event, owner)
    ensures Next(db, ClaimDelivery(event, owner)) == claimed
    ensures Next(claimed, AcquireSession(owner)) == Acquire(claimed, owner)
  {
  }

  lemma WholeAttemptRuns(db: Db, event: nat, owner: Token, result: RunResult, claimed: Db, acquired: Db)
    requires claimed == Claim(db, event, owner) && acquired == Acquire(claimed, owner)
    ensures Run(db, WholeAttempt(event, owner, result)) == Next(acquired, SaveSuccess(owner, result))
  {
    ClaimThenAcquire(db, event, owner, claimed);
    ThreeSteps(db, ClaimDelivery(event, owner), AcquireSession(owner), SaveSuccess(owner, result), claimed, acquired);
  }

  /** A claimable event of a free session, one fresh attempt and no interruption: the
      event ends PROCESSED and the session waits for its review. */
  lemma UninterruptedAttempt(db: Db, event: nat, owner: Token, result: RunResult)
    requires ProtocolOk(db) && Coherent(db) && owner !in db.attempts
    requires event < |db.events| && Outbox.Claimable(db.events[event], db.clock)
    requires Free(db, db.events[event].sessionId) && Delivers(result, db.events[event].phase)
    ensures var s := db.events[event].sessionId;
            var after := Run(db, WholeAttempt(event, owner, result));
            && event < |after.events| && after.events[event].status == EventProcessed
            && s < |after.sessions|
            && after.sessions[s].status
               == if db.events[event].phase == FreshGeneration then AwaitingOutlineReview else AwaitingFinalReview
  {
    var claimed := Claim(db, event, owner);
    var acquired := Acquire(claimed, owner);
    ClaimedState(db, event, owner);
    AcquiresFree(claimed, event, owner);
    OwnedIsSaved(acquired, owner, result);
    SavedState(acquired, owner, result, PersistSuccess(acquired, owner, result).db);
    NextSaves(acquired, owner, result);
    WholeAttemptRuns(db, event, owner, result, claimed, acquired);
  }
}
