/** Committing provider usage: agent runs, COMMIT entries and session totals. */
module Charging {
  import opened Rows
  import opened Tables
  import opened Sums
  import opened Budget

  /** The row get_by_session_and_stage finds. */
  function FindRun(runs: seq<AgentRun>, session: nat, stage: StageName): (r: Option<nat>)
    ensures r.None? ==> forall i | 0 <= i < |runs| :: runs[i].sessionId != session || runs[i].stage != stage
    ensures r.Some? ==> r.value < |runs| && runs[r.value].sessionId == session && runs[r.value].stage == stage
  {
    if runs == [] then None
    else
      var last := |runs| - 1;
      if runs[last].sessionId == session && runs[last].stage == stage then Some(last)
      else FindRun(runs[..last], session, stage)
  }

  predicate Ignored(usage: StageUsage) {
    usage.tokens == 0 && !usage.hasLatency
  }

  predicate AlreadyCompleted(runs: seq<AgentRun>, session: nat, stage: StageName) {
    var existing := FindRun(runs, session, stage);
    existing.Some? && runs[existing.value].status == RunCompleted
  }

  /** The run table with this usage completed, and the id of its run. */
  function CompleteRun(runs: seq<AgentRun>, session: nat, stage: StageName, usage: StageUsage): (seq<AgentRun>, nat) {
    var existing := FindRun(runs, session, stage);
    if existing.Some? then
      var id := existing.value;
      (runs[id := runs[id].(tokens := usage.tokens, usd := usage.usd, status := RunCompleted)], id)
    else
      (runs + [AgentRun(session, stage, RunCompleted, usage.tokens, usage.usd)], |runs|)
  }

  /** One turn of the loop over the usage items. */
  function CommitItem(db: Db, user: nat, session: nat, version: nat, usage: StageUsage): (after: Db)
    requires session < |db.sessions|
    ensures |after.sessions| == |db.sessions|
  {
    var stage := StageName(version, usage.stage);
    if Ignored(usage) || AlreadyCompleted(db.runs, session, stage) then db
    else
      var (runs, id) := CompleteRun(db.runs, session, stage, usage);
      var recorded := db.(runs := runs);
      if usage.tokens > 0 then CommitStage(recorded, user, session, id, usage.tokens, usage.usd)
      else recorded
  }

  function CommitUsage(db: Db, user: nat, session: nat, version: nat, usage: seq<StageUsage>): (after: Db)
    requires session < |db.sessions|
    ensures |after.sessions| == |db.sessions|
  {
    if usage == [] then db
    else
      var last := |usage| - 1;
      CommitItem(CommitUsage(db, user, session, version, usage[..last]), user, session, version, usage[last])
  }

  /** Nothing but runs, new ledger entries and the spent columns of one session changed. */
  ghost predicate OnlyCharges(db: Db, after: Db, s: nat)
    requires s < |db.sessions|
  {
    && |after.sessions| == |db.sessions|
    && after == db.(
         runs := after.runs,
         ledger := after.ledger,
         sessions := db.sessions[s := db.sessions[s].(spentTokens := after.sessions[s].spentTokens,
                                                      spentUsd := after.sessions[s].spentUsd)])
    && db.ledger <= after.ledger
    && (forall i | |db.ledger| <= i < |after.ledger| :: after.ledger[i].kind == Commit && ChargeEntry(after.ledger[i]))
  }

  lemma {:induction false} UsageOnlyCharges(db: Db, user: nat, s: nat, version: nat, usage: seq<StageUsage>)
    requires s < |db.sessions|
    ensures OnlyCharges(db, CommitUsage(db, user, s, version, usage), s)
  {
    if usage == [] {
      assert db.sessions[s := db.sessions[s]] == db.sessions;
    } else {
      var last := |usage| - 1;
      var before := CommitUsage(db, user, s, version, usage[..last]);
      UsageOnlyCharges(db, user, s, version, usage[..last]);
      ItemOnlyCharges(before, user, s, version, usage[last]);
    }
  }

  lemma ItemOnlyCharges(db: Db, user: nat, s: nat, version: nat, usage: StageUsage)
    requires s < |db.sessions|
    ensures OnlyCharges(db, CommitItem(db, user, s, version, usage), s)
  {
    assert db.sessions[s := db.sessions[s]] == db.sessions;
  }

  // ---------------------------------------------------------------------- invariant

  function RunTokensOf(runs: seq<AgentRun>, session: nat): nat -> int {
    (i: nat) =>
      if i < |runs| && runs[i].sessionId == session && runs[i].status == RunCompleted then runs[i].tokens else 0
  }

  /** The tokens of a session's completed agent runs. */
  function RunTokens(runs: seq<AgentRun>, session: nat): int {
    Sum(RunTokensOf(runs, session), |runs|)
  }

  /** The three views of what a session has used. */
  ghost predicate ViewsAgree(db: Db, s: nat)
    requires s < |db.sessions|
  {
    && db.sessions[s].spentTokens == -CommittedTokens(db.ledger, s)
    && db.sessions[s].spentTokens == RunTokens(db.runs, s)
    && db.sessions[s].spentUsd == -CommittedUsd(db.ledger, s)
  }

  /** A COMMIT names the completed run it charges. */
  predicate CommitOk(e: Entry, db: Db) {
    e.kind == Commit ==>
      && e.sessionId.Some? && e.sessionId.value < |db.sessions|
      && e.runId.Some? && e.runId.value < |db.runs|
      && db.runs[e.runId.value].sessionId == e.sessionId.value
      && db.runs[e.runId.value].status == RunCompleted
      && e.tokens == -(db.runs[e.runId.value].tokens as int)
      && e.usd == -(db.runs[e.runId.value].usd as int)
  }

  predicate OneCommitPerRun(ledger: seq<Entry>) {
    forall i, j | 0 <= i < j < |ledger| ::
      ledger[i].kind == Commit && ledger[j].kind == Commit ==> ledger[i].runId != ledger[j].runId
  }

  predicate OneRunPerStage(runs: seq<AgentRun>) {
    forall i, j | 0 <= i < j < |runs| ::
      runs[i].sessionId == runs[j].sessionId ==> runs[i].stage != runs[j].stage
  }

  ghost predicate ChargesOk(db: Db) {
    && (forall s | 0 <= s < |db.sessions| :: ViewsAgree(db, s))
    && (forall i | 0 <= i < |db.ledger| :: CommitOk(db.ledger[i], db))
    && (forall i | 0 <= i < |db.runs| :: db.runs[i].sessionId < |db.sessions|)
    && OneCommitPerRun(db.ledger)
    && OneRunPerStage(db.runs)
  }

  // ------------------------------------------------------------------------- proofs

  /** A run that is not completed yet, or does not exist, has no COMMIT. */
  lemma NoCommitYet(db: Db, session: nat, run: nat)
    requires ChargesOk(db)
    requires run >= |db.runs| || db.runs[run].status != RunCompleted
    ensures !CommitRecorded(db.ledger, session, run)
  {
  }

  lemma AppendedEntry(ledger: seq<Entry>, e: Entry, s: nat)
    ensures CommittedTokens(ledger + [e], s) == CommittedTokens(ledger, s) + if IsCommitOf(e, s) then e.tokens else 0
    ensures CommittedUsd(ledger + [e], s) == CommittedUsd(ledger, s) + if IsCommitOf(e, s) then e.usd else 0
  {
    SumAgree(CommitTokensOf(ledger, s), CommitTokensOf(ledger + [e], s), |ledger|);
    SumAgree(CommitUsdOf(ledger, s), CommitUsdOf(ledger + [e], s), |ledger|);
  }

  lemma CompletedRunTokens(runs: seq<AgentRun>, session: nat, stage: StageName, usage: StageUsage, s: nat)
    requires !AlreadyCompleted(runs, session, stage)
    ensures var (after, id) := CompleteRun(runs, session, stage, usage);
            RunTokens(after, s) == RunTokens(runs, s) + if s == session then usage.tokens else 0
  {
    var (after, id) := CompleteRun(runs, session, stage, usage);
    if id < |runs| {
      SumChange(RunTokensOf(runs, s), RunTokensOf(after, s), |runs|, id);
    } else {
      SumAgree(RunTokensOf(runs, s), RunTokensOf(after, s), |runs|);
    }
  }

  /** One usage item moves all three views by the same amount. */
  lemma CommitItemKeepsCharges(db: Db, user: nat, session: nat, version: nat, usage: StageUsage)
    requires ChargesOk(db) && session < |db.sessions|
    ensures ChargesOk(CommitItem(db, user, session, version, usage))
  {
    var stage := StageName(version, usage.stage);
    if !Ignored(usage) && !AlreadyCompleted(db.runs, session, stage) {
      var after := CommitItem(db, user, session, version, usage);
      var (runs, id) := CompleteRun(db.runs, session, stage, usage);
      NoCommitYet(db, session, id);
      CommitItemKeepsEntries(db, user, session, version, usage);
      forall s | 0 <= s < |after.sessions| ensures ViewsAgree(after, s) {
        assert ViewsAgree(db, s);
        CompletedRunTokens(db.runs, session, stage, usage, s);
        if usage.tokens > 0 {
          AppendedEntry(db.ledger, after.ledger[|db.ledger|], s);
        }
      }
    }
  }

  lemma CommitItemKeepsEntries(db: Db, user: nat, session: nat, version: nat, usage: StageUsage)
    requires ChargesOk(db) && session < |db.sessions|
    requires !Ignored(usage) && !AlreadyCompleted(db.runs, session, StageName(version, usage.stage))
    ensures var after := CommitItem(db, user, session, version, usage);
            && (forall i | 0 <= i < |after.ledger| :: CommitOk(after.ledger[i], after))
            && (forall i | 0 <= i < |after.runs| :: after.runs[i].sessionId < |after.sessions|)
            && OneCommitPerRun(after.ledger)
            && OneRunPerStage(after.runs)
  {
    var after := CommitItem(db, user, session, version, usage);
    var (runs, id) := CompleteRun(db.runs, session, StageName(version, usage.stage), usage);
    NoCommitYet(db, session, id);
    forall i | 0 <= i < |db.ledger|
      ensures CommitOk(db.ledger[i], after) && (db.ledger[i].kind == Commit ==> db.ledger[i].runId != Some(id))
    {
      assert CommitOk(db.ledger[i], db);
      assert db.ledger[i].kind == Commit && db.ledger[i].runId == Some(id) ==> id < |db.runs|;
    }
  }

  lemma {:induction false} CommitUsageKeepsCharges(db: Db, user: nat, session: nat, version: nat, usage: seq<StageUsage>)
    requires ChargesOk(db) && session < |db.sessions|
    ensures ChargesOk(CommitUsage(db, user, session, version, usage))
  {
    if usage != [] {
      var last := |usage| - 1;
      CommitUsageKeepsCharges(db, user, session, version, usage[..last]);
      CommitItemKeepsCharges(CommitUsage(db, user, session, version, usage[..last]), user, session, version, usage[last]);
    }
  }

  // ----------------------------------------------------------------- replay safety

  /** Nothing is left to do for a usage item: it is ignored, or its stage is complete. */
  predicate Settled(db: Db, session: nat, version: nat, usage: StageUsage) {
    Ignored(usage) || AlreadyCompleted(db.runs, session, StageName(version, usage.stage))
  }

  lemma SettledKept(db: Db, user: nat, session: nat, version: nat, usage: StageUsage, next: StageUsage)
    requires ChargesOk(db) && session < |db.sessions| && Settled(db, session, version, usage)
    ensures Settled(CommitItem(db, user, session, version, next), session, version, usage)
  {
    var after := CommitItem(db, user, session, version, next);
    CommitItemKeepsCharges(db, user, session, version, next);
    if !Ignored(usage) {
      var stage := StageName(version, usage.stage);
      var i := FindRun(db.runs, session, stage).value;
      RunFound(after.runs, i);
    }
  }

  /** With one run per stage the lookup does not depend on the order of rows. */
  lemma RunFound(runs: seq<AgentRun>, i: nat)
    requires OneRunPerStage(runs) && i < |runs|
    ensures FindRun(runs, runs[i].sessionId, runs[i].stage) == Some(i)
  {
  }

  lemma ItemSettled(db: Db, user: nat, session: nat, version: nat, usage: StageUsage)
    requires ChargesOk(db) && session < |db.sessions|
    ensures Settled(CommitItem(db, user, session, version, usage), session, version, usage)
  {
    if !Settled(db, session, version, usage) {
      var (runs, id) := CompleteRun(db.runs, session, StageName(version, usage.stage), usage);
      CommitItemKeepsCharges(db, user, session, version, usage);
      RunFound(CommitItem(db, user, session, version, usage).runs, id);
    }
  }

  lemma {:induction false} AllSettled(db: Db, user: nat, session: nat, version: nat, usage: seq<StageUsage>)
    requires ChargesOk(db) && session < |db.sessions|
    ensures forall k | 0 <= k < |usage| ::
              Settled(CommitUsage(db, user, session, version, usage), session, version, usage[k])
  {
    if usage != [] {
      var last := |usage| - 1;
      var before := CommitUsage(db, user, session, version, usage[..last]);
      AllSettled(db, user, session, version, usage[..last]);
      CommitUsageKeepsCharges(db, user, session, version, usage[..last]);
      forall k | 0 <= k < |usage|
        ensures Settled(CommitItem(before, user, session, version, usage[last]), session, version, usage[k])
      {
        if k == last {
          ItemSettled(before, user, session, version, usage[last]);
        } else {
          assert usage[..last][k] == usage[k];
          SettledKept(before, user, session, version, usage[k], usage[last]);
        }
      }
    }
  }

  lemma {:induction false} SettledUsageIsIgnored(db: Db, user: nat, session: nat, version: nat, usage: seq<StageUsage>)
    requires session < |db.sessions|
    requires forall k | 0 <= k < |usage| :: Settled(db, session, version, usage[k])
    ensures CommitUsage(db, user, session, version, usage) == db
  {
    if usage != [] {
      SettledUsageIsIgnored(db, user, session, version, usage[..|usage| - 1]);
    }
  }

  /** Applying the same usage list again for the same version changes nothing. */
  lemma ChargingIsReplaySafe(db: Db, user: nat, session: nat, version: nat, usage: seq<StageUsage>)
    requires ChargesOk(db) && session < |db.sessions|
    ensures var once := CommitUsage(db, user, session, version, usage);
            CommitUsage(once, user, session, version, usage) == once
  {
    AllSettled(db, user, session, version, usage);
    SettledUsageIsIgnored(CommitUsage(db, user, session, version, usage), user, session, version, usage);
  }
}
