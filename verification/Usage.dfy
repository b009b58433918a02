/** What committing a list of usage items charges: which items are due, the ledger entry of
    each, its run, and the growth of the session's totals. */
module Usage {
  import opened Rows
  import opened Tables
  import opened Sums
  import opened Charging
  import Budget

  // ------------------------------------------------------------------------ due items

  /** Some run of this session and stage is COMPLETED. */
  predicate IsDone(runs: seq<AgentRun>, s: nat, stage: StageName) {
    exists i | 0 <= i < |runs| :: runs[i].sessionId == s && runs[i].stage == stage && runs[i].status == RunCompleted
  }

  /** An item without tokens and without a latency measures nothing. */
  predicate Measures(item: StageUsage) {
    item.tokens > 0 || item.hasLatency
  }

  /** An earlier item of the list was the one to complete this stage. */
  predicate TakenBefore(usage: seq<StageUsage>, stage: string, n: nat)
    requires n <= |usage|
  {
    exists j | 0 <= j < n :: usage[j].stage == stage && Measures(usage[j])
  }

  /** Item n costs something, and its stage is not completed yet, neither by an earlier
      workflow run nor by an earlier item. */
  predicate IsDue(runs: seq<AgentRun>, s: nat, version: nat, usage: seq<StageUsage>, n: nat)
    requires n < |usage|
  {
    && usage[n].tokens > 0
    && !IsDone(runs, s, StageName(version, usage[n].stage))
    && !TakenBefore(usage, usage[n].stage, n)
  }

  /** The due ones among the first n items. */
  function Due(runs: seq<AgentRun>, s: nat, version: nat, usage: seq<StageUsage>, n: nat): seq<StageUsage>
    requires n <= |usage|
  {
    if n == 0 then []
    else Due(runs, s, version, usage, n - 1) + if IsDue(runs, s, version, usage, n - 1) then [usage[n - 1]] else []
  }

  function TokenTotal(items: seq<StageUsage>): nat {
    if |items| == 0 then 0 else TokenTotal(items[..|items| - 1]) + items[|items| - 1].tokens
  }

  function UsdTotal(items: seq<StageUsage>): nat {
    if |items| == 0 then 0 else UsdTotal(items[..|items| - 1]) + items[|items| - 1].usd
  }

  /** The entry charges the item to the user and the session, by way of the item's run. */
  predicate Charges(e: Entry, item: StageUsage, user: nat, s: nat, version: nat, runs: seq<AgentRun>) {
    && e.kind == Commit && e.userId == user && e.sessionId == Some(s)
    && e.tokens == -(item.tokens as int) && e.usd == -(item.usd as int)
    && e.runId.Some? && e.runId.value < |runs|
    && runs[e.runId.value] == AgentRun(s, StageName(version, item.stage), RunCompleted, item.tokens, item.usd)
  }

  /** One new ledger entry for each due item, in order, and nothing else charged. */
  predicate Charged(db: Db, after: Db, user: nat, s: nat, version: nat, due: seq<StageUsage>)
    requires s < |db.sessions|
  {
    && |after.sessions| == |db.sessions|
    && db.ledger <= after.ledger && |after.ledger| == |db.ledger| + |due|
    && (forall m | 0 <= m < |due| :: Charges(after.ledger[|db.ledger| + m], due[m], user, s, version, after.runs))
    && after.sessions[s].spentTokens == db.sessions[s].spentTokens + TokenTotal(due)
    && after.sessions[s].spentUsd == db.sessions[s].spentUsd + UsdTotal(due)
  }

  // -------------------------------------------------------------------------- one item

  lemma DoneIsCompleted(runs: seq<AgentRun>, s: nat, stage: StageName)
    requires OneRunPerStage(runs)
    ensures IsDone(runs, s, stage) <==> AlreadyCompleted(runs, s, stage)
  {
    if IsDone(runs, s, stage) {
      var i :| 0 <= i < |runs| && runs[i].sessionId == s && runs[i].stage == stage && runs[i].status == RunCompleted;
      RunFound(runs, i);
    }
  }

  /** An item that measures something completes its stage if that is still open, in one row. */
  lemma ItemCompletes(db: Db, user: nat, s: nat, version: nat, item: StageUsage)
    requires ChargesOk(db) && s < |db.sessions|
    ensures var stage := StageName(version, item.stage);
            var after := CommitItem(db, user, s, version, item);
            if IsDone(db.runs, s, stage) || !Measures(item) then after == db
            else exists id: nat ::
              && id < |after.runs| && |db.runs| <= |after.runs| && (id < |db.runs| ==> db.runs[id].status != RunCompleted)
              && after.runs[id] == AgentRun(s, stage, RunCompleted, item.tokens, item.usd)
              && (forall i | 0 <= i < |after.runs| && i != id :: i < |db.runs| && after.runs[i] == db.runs[i])
              && (if item.tokens > 0 then
                    && after.ledger == db.ledger
                         + [Entry(user, Some(s), Some(id), Commit, -(item.tokens as int), -(item.usd as int))]
                    && after.sessions[s].spentTokens == db.sessions[s].spentTokens + item.tokens
                    && after.sessions[s].spentUsd == db.sessions[s].spentUsd + item.usd
                  else after.ledger == db.ledger && after.sessions == db.sessions)
  {
    var stage := StageName(version, item.stage);
    DoneIsCompleted(db.runs, s, stage);
    if !IsDone(db.runs, s, stage) && Measures(item) {
      var (runs, id) := CompleteRun(db.runs, s, stage, item);
      NoCommitYet(db, s, id);
    }
  }

  /** After an item its stage is done if it measured anything, and no other has changed. */
  lemma DoneAfterItem(db: Db, user: nat, s: nat, version: nat, item: StageUsage, stage: string)
    requires ChargesOk(db) && s < |db.sessions|
    ensures IsDone(CommitItem(db, user, s, version, item).runs, s, StageName(version, stage))
       <==> IsDone(db.runs, s, StageName(version, stage)) || (item.stage == stage && Measures(item))
  {
    ItemCompletes(db, user, s, version, item);
    var after := CommitItem(db, user, s, version, item);
    var name := StageName(version, stage);
    if after != db && IsDone(db.runs, s, name) {
      var i :| 0 <= i < |db.runs| && db.runs[i].sessionId == s && db.runs[i].stage == name
               && db.runs[i].status == RunCompleted;
      assert after.runs[i] == db.runs[i];
    }
  }

  // ------------------------------------------------------------------------- the list

  function Before(db: Db, user: nat, s: nat, version: nat, usage: seq<StageUsage>, n: nat): Db
    requires s < |db.sessions| && n <= |usage|
  {
    CommitUsage(db, user, s, version, usage[..n])
  }

  lemma OneMore(db: Db, user: nat, s: nat, version: nat, usage: seq<StageUsage>, n: nat)
    requires s < |db.sessions| && n < |usage|
    ensures s < |Before(db, user, s, version, usage, n).sessions|
    ensures Before(db, user, s, version, usage, n + 1)
         == CommitItem(Before(db, user, s, version, usage, n), user, s, version, usage[n])
  {
    assert usage[..n + 1][..n] == usage[..n];
  }

  lemma {:induction false} DoneAfter(db: Db, user: nat, s: nat, version: nat, usage: seq<StageUsage>, n: nat, stage: string)
    requires ChargesOk(db) && s < |db.sessions| && n <= |usage|
    ensures IsDone(Before(db, user, s, version, usage, n).runs, s, StageName(version, stage))
       <==> IsDone(db.runs, s, StageName(version, stage)) || TakenBefore(usage, stage, n)
  {
    if n > 0 {
      var before := Before(db, user, s, version, usage, n - 1);
      DoneAfter(db, user, s, version, usage, n - 1, stage);
      CommitUsageKeepsCharges(db, user, s, version, usage[..n - 1]);
      OneMore(db, user, s, version, usage, n - 1);
      DoneAfterItem(before, user, s, version, usage[n - 1], stage);
    } else {
      assert usage[..0] == [];
    }
  }

  /** A COMPLETED run, and the entry that charges it, are not touched by a later item. */
  lemma ChargeStays(db: Db, user: nat, s: nat, version: nat, item: StageUsage, e: Entry, charged: StageUsage)
    requires ChargesOk(db) && s < |db.sessions| && Charges(e, charged, user, s, version, db.runs)
    ensures Charges(e, charged, user, s, version, CommitItem(db, user, s, version, item).runs)
  {
    ItemCompletes(db, user, s, version, item);
  }

  lemma ChargedOneMore(db: Db, mid: Db, user: nat, s: nat, version: nat, due: seq<StageUsage>, item: StageUsage)
    requires s < |db.sessions| && Charged(db, mid, user, s, version, due) && ChargesOk(mid)
    ensures var after := CommitItem(mid, user, s, version, item);
            var more := if item.tokens > 0 && !IsDone(mid.runs, s, StageName(version, item.stage)) then [item] else [];
            Charged(db, after, user, s, version, due + more)
  {
    var after := CommitItem(mid, user, s, version, item);
    forall m | 0 <= m < |due| ensures Charges(mid.ledger[|db.ledger| + m], due[m], user, s, version, after.runs) {
      ChargeStays(mid, user, s, version, item, mid.ledger[|db.ledger| + m], due[m]);
    }
    if item.tokens > 0 && !IsDone(mid.runs, s, StageName(version, item.stage)) {
      assert (due + [item])[..|due|] == due;
      NewCharge(mid, user, s, version, item);
    } else {
      assert due + [] == due;
      NoNewCharge(mid, user, s, version, item);
    }
  }

  lemma NewCharge(db: Db, user: nat, s: nat, version: nat, item: StageUsage)
    requires ChargesOk(db) && s < |db.sessions|
    requires item.tokens > 0 && !IsDone(db.runs, s, StageName(version, item.stage))
    ensures var after := CommitItem(db, user, s, version, item);
            && |after.sessions| == |db.sessions| && |after.ledger| == |db.ledger| + 1 && db.ledger <= after.ledger
            && Charges(after.ledger[|db.ledger|], item, user, s, version, after.runs)
            && after.sessions[s].spentTokens == db.sessions[s].spentTokens + item.tokens
            && after.sessions[s].spentUsd == db.sessions[s].spentUsd + item.usd
  {
    ItemCompletes(db, user, s, version, item);
  }

  lemma NoNewCharge(db: Db, user: nat, s: nat, version: nat, item: StageUsage)
    requires ChargesOk(db) && s < |db.sessions|
    requires item.tokens == 0 || IsDone(db.runs, s, StageName(version, item.stage))
    ensures var after := CommitItem(db, user, s, version, item);
            after.ledger == db.ledger && after.sessions == db.sessions
  {
    ItemCompletes(db, user, s, version, item);
  }

  lemma {:induction false} ChargedUpTo(db: Db, user: nat, s: nat, version: nat, usage: seq<StageUsage>, n: nat)
    requires ChargesOk(db) && s < |db.sessions| && n <= |usage|
    ensures Charged(db, Before(db, user, s, version, usage, n), user, s, version, Due(db.runs, s, version, usage, n))
  {
    if n == 0 {
      assert usage[..0] == [];
    } else {
      var mid := Before(db, user, s, version, usage, n - 1);
      ChargedUpTo(db, user, s, version, usage, n - 1);
      CommitUsageKeepsCharges(db, user, s, version, usage[..n - 1]);
      OneMore(db, user, s, version, usage, n - 1);
      DoneAfter(db, user, s, version, usage, n - 1, usage[n - 1].stage);
      ChargedOneMore(db, mid, user, s, version, Due(db.runs, s, version, usage, n - 1), usage[n - 1]);
    }
  }

  /** Committing any list of usage charges exactly its due items: one COMMIT entry for each,
      in order, over minus its tokens and minus its price, naming a COMPLETED run that holds
      them, and the session's totals grow by the sums of the due items. */
  lemma UsageChargesExactly(db: Db, user: nat, s: nat, version: nat, usage: seq<StageUsage>)
    requires ChargesOk(db) && s < |db.sessions|
    ensures Charged(db, CommitUsage(db, user, s, version, usage), user, s, version,
                    Due(db.runs, s, version, usage, |usage|))
  {
    assert usage[..|usage|] == usage;
    ChargedUpTo(db, user, s, version, usage, |usage|);
  }

  /** The COMMIT sums of the session fall by the sums of the due items. */
  lemma LedgerSumsExactly(db: Db, user: nat, s: nat, version: nat, usage: seq<StageUsage>)
    requires ChargesOk(db) && s < |db.sessions|
    ensures var after := CommitUsage(db, user, s, version, usage);
            var due := Due(db.runs, s, version, usage, |usage|);
            && Budget.CommittedUsd(after.ledger, s) == Budget.CommittedUsd(db.ledger, s) - UsdTotal(due)
            && Budget.CommittedTokens(after.ledger, s) == Budget.CommittedTokens(db.ledger, s) - TokenTotal(due)
  {
    UsageChargesExactly(db, user, s, version, usage);
    CommitUsageKeepsCharges(db, user, s, version, usage);
    assert ViewsAgree(db, s) && ViewsAgree(CommitUsage(db, user, s, version, usage), s);
  }

  /** After the list, the stages that are done are those that were, and those an item of the
      list measured. */
  lemma StagesDoneExactly(db: Db, user: nat, s: nat, version: nat, usage: seq<StageUsage>, stage: string)
    requires ChargesOk(db) && s < |db.sessions|
    ensures IsDone(CommitUsage(db, user, s, version, usage).runs, s, StageName(version, stage))
       <==> IsDone(db.runs, s, StageName(version, stage)) || TakenBefore(usage, stage, |usage|)
  {
    assert usage[..|usage|] == usage;
    DoneAfter(db, user, s, version, usage, |usage|, stage);
  }

  /** The run that item n completed, if it was the one to complete its stage. */
  predicate RunRecorded(db: Db, after: Db, s: nat, version: nat, usage: seq<StageUsage>, n: nat)
    requires n < |usage|
  {
    var item := usage[n];
    Measures(item) && !IsDone(db.runs, s, StageName(version, item.stage)) && !TakenBefore(usage, item.stage, n) ==>
      AgentRun(s, StageName(version, item.stage), RunCompleted, item.tokens, item.usd) in after.runs
  }

  /** A run row changes only when it was not COMPLETED and becomes so. */
  predicate RunsFrozen(runs: seq<AgentRun>, after: seq<AgentRun>) {
    && |runs| <= |after|
    && forall i | 0 <= i < |runs| ::
         after[i] == runs[i] || (runs[i].status != RunCompleted && after[i].status == RunCompleted)
  }

  lemma {:induction false} RunsRecordedUpTo(db: Db, user: nat, s: nat, version: nat, usage: seq<StageUsage>, n: nat)
    requires ChargesOk(db) && s < |db.sessions| && n <= |usage|
    ensures var after := Before(db, user, s, version, usage, n);
            && RunsFrozen(db.runs, after.runs)
            && forall k | 0 <= k < n :: RunRecorded(db, after, s, version, usage, k)
  {
    if n == 0 {
      assert usage[..0] == [];
    } else {
      var mid := Before(db, user, s, version, usage, n - 1);
      RunsRecordedUpTo(db, user, s, version, usage, n - 1);
      CommitUsageKeepsCharges(db, user, s, version, usage[..n - 1]);
      OneMore(db, user, s, version, usage, n - 1);
      DoneAfter(db, user, s, version, usage, n - 1, usage[n - 1].stage);
      NextFrozen(db, mid, user, s, version, usage[n - 1]);
      NextRecorded(db, mid, user, s, version, usage, n - 1);
    }
  }

  lemma NextFrozen(db: Db, mid: Db, user: nat, s: nat, version: nat, item: StageUsage)
    requires ChargesOk(mid) && s < |mid.sessions| && RunsFrozen(db.runs, mid.runs)
    ensures RunsFrozen(db.runs, CommitItem(mid, user, s, version, item).runs)
  {
    ItemCompletes(mid, user, s, version, item);
  }

  lemma NextRecorded(db: Db, mid: Db, user: nat, s: nat, version: nat, usage: seq<StageUsage>, n: nat)
    requires ChargesOk(mid) && s < |mid.sessions| && n < |usage|
    requires forall k | 0 <= k < n :: RunRecorded(db, mid, s, version, usage, k)
    requires IsDone(mid.runs, s, StageName(version, usage[n].stage))
        <==> IsDone(db.runs, s, StageName(version, usage[n].stage)) || TakenBefore(usage, usage[n].stage, n)
    ensures forall k | 0 <= k <= n :: RunRecorded(db, CommitItem(mid, user, s, version, usage[n]), s, version, usage, k)
  {
    ItemCompletes(mid, user, s, version, usage[n]);
    forall k | 0 <= k < n ensures RunRecorded(db, CommitItem(mid, user, s, version, usage[n]), s, version, usage, k) {
      assert RunRecorded(db, mid, s, version, usage, k);
      CompletedStays(mid, user, s, version, usage[n], usage[k]);
    }
  }

  lemma CompletedStays(db: Db, user: nat, s: nat, version: nat, item: StageUsage, other: StageUsage)
    requires ChargesOk(db) && s < |db.sessions|
    ensures var run := AgentRun(s, StageName(version, other.stage), RunCompleted, other.tokens, other.usd);
            run in db.runs ==> run in CommitItem(db, user, s, version, item).runs
  {
    ItemCompletes(db, user, s, version, item);
    var run := AgentRun(s, StageName(version, other.stage), RunCompleted, other.tokens, other.usd);
    if run in db.runs {
      var i :| 0 <= i < |db.runs| && db.runs[i] == run;
      assert CommitItem(db, user, s, version, item).runs[i] == run;
    }
  }

  /** The first item of the list to measure an open stage leaves its tokens and its price in
      a COMPLETED run of the stage; no COMPLETED run ever changes. */
  lemma RunsRecorded(db: Db, user: nat, s: nat, version: nat, usage: seq<StageUsage>)
    requires ChargesOk(db) && s < |db.sessions|
    ensures var after := CommitUsage(db, user, s, version, usage);
            && RunsFrozen(db.runs, after.runs)
            && forall k | 0 <= k < |usage| :: RunRecorded(db, after, s, version, usage, k)
  {
    assert usage[..|usage|] == usage;
    RunsRecordedUpTo(db, user, s, version, usage, |usage|);
  }
}
