/** What one turn of the reaper fails, and what it spares. */
module Reaping {
  import opened Rows
  import opened Tables
  import opened Workflow
  import opened Invariant
  import Reachable
  import Outbox
  import Lifecycle

  /** The claim has expired, all four attempts are used up, and nobody else has the row. */
  predicate IsSpent(db: Db, skipped: set<nat>, i: nat) {
    && i < |db.events| && i !in skipped
    && db.events[i].status == EventProcessing
    && db.events[i].lockedUntil.Some? && db.events[i].lockedUntil.value <= db.clock
    && db.events[i].attempts >= 4
  }

  /** Some spent claim is the session's. */
  predicate HasSpent(db: Db, skipped: set<nat>, s: nat) {
    exists i | 0 <= i < |db.events| :: IsSpent(db, skipped, i) && db.events[i].sessionId == s
  }

  predicate Unfinished(status: Status) {
    status == Queued || status == Processing || status == AwaitingOutlineReview || status == AwaitingFinalReview
  }

  /** An event changes if and only if its claim is spent; it is FAILED then, without owner
      and lock.  A session changes if and only if it is unfinished and a spent claim is its
      own; it is FAILED then, and nothing else in its row changes.  No other row changes. */
  lemma ReaperAnswer(db: Db, skipped: set<nat>)
    ensures var after := Next(db, ReapExhausted(skipped));
            && after == db.(events := after.events, sessions := after.sessions)
            && |after.events| == |db.events| && |after.sessions| == |db.sessions|
            && (forall i | 0 <= i < |db.events| ::
                  && (after.events[i] != db.events[i] <==> IsSpent(db, skipped, i))
                  && (IsSpent(db, skipped, i) ==>
                        after.events[i] == db.events[i].(status := EventFailed, lockedBy := None, lockedUntil := None)))
            && (forall s | 0 <= s < |db.sessions| ::
                  && (after.sessions[s] != db.sessions[s]
                      <==> Unfinished(db.sessions[s].status) && HasSpent(db, skipped, s))
                  && (after.sessions[s] != db.sessions[s] ==>
                        after.sessions[s] == db.sessions[s].(status := Failed)))
  {
    ReapedEvents(db, skipped);
    ReapedSessions(db, skipped);
  }

  lemma ReapedEvents(db: Db, skipped: set<nat>)
    ensures var after := Next(db, ReapExhausted(skipped));
            && |after.events| == |db.events|
            && forall i | 0 <= i < |db.events| ::
                 after.events[i] == if IsSpent(db, skipped, i)
                                    then db.events[i].(status := EventFailed, lockedBy := None, lockedUntil := None)
                                    else db.events[i]
  {
  }

  lemma SpentSessions(db: Db, skipped: set<nat>, s: nat)
    ensures s in Outbox.ExhaustedSessions(db.events, db.clock, skipped) <==> HasSpent(db, skipped, s)
  {
    if HasSpent(db, skipped, s) {
      var i :| 0 <= i < |db.events| && IsSpent(db, skipped, i) && db.events[i].sessionId == s;
      assert Outbox.Exhausted(db.events[i], db.clock);
    }
    if s in Outbox.ExhaustedSessions(db.events, db.clock, skipped) {
      var i: nat :| i < |db.events| && Outbox.Exhausted(db.events[i], db.clock) && i !in skipped
                    && db.events[i].sessionId == s;
      assert IsSpent(db, skipped, i);
    }
  }

  lemma ReapedSessions(db: Db, skipped: set<nat>)
    ensures var after := Next(db, ReapExhausted(skipped));
            && |after.sessions| == |db.sessions|
            && forall s | 0 <= s < |db.sessions| ::
                 after.sessions[s] == if Unfinished(db.sessions[s].status) && HasSpent(db, skipped, s)
                                      then db.sessions[s].(status := Failed) else db.sessions[s]
  {
    forall s: nat | s < |db.sessions|
      ensures Next(db, ReapExhausted(skipped)).sessions[s]
           == if Unfinished(db.sessions[s].status) && HasSpent(db, skipped, s)
              then db.sessions[s].(status := Failed) else db.sessions[s]
    {
      ReapedSession(db, skipped, s);
    }
  }

  lemma ReapedSession(db: Db, skipped: set<nat>, s: nat)
    requires s < |db.sessions|
    ensures FailExhaustedClaims(db, skipped).sessions[s]
         == if Unfinished(db.sessions[s].status) && HasSpent(db, skipped, s)
            then db.sessions[s].(status := Failed) else db.sessions[s]
  {
    SpentSessions(db, skipped, s);
    UnfinishedExactly(db.sessions[s].status);
    var doomed := Outbox.ExhaustedSessions(db.events, db.clock, skipped);
    assert FailExhaustedClaims(db, skipped).sessions[s]
        == if s in doomed && db.sessions[s].status !in Lifecycle.TERMINAL_STATES
           then db.sessions[s].(status := Failed) else db.sessions[s];
  }

  lemma UnfinishedExactly(status: Status)
    ensures Unfinished(status) <==> status !in Lifecycle.TERMINAL_STATES
  {
  }

  /** In every run the reaper spares a claim with attempts left: however often it runs, an
      expired claim with fewer than four attempts can be claimed again. */
  lemma SparesRetryable(steps: seq<Step>, skipped: set<nat>, i: nat, owner: Token)
    requires var db := Run(EMPTY, steps);
             && i < |db.events| && db.events[i].status == EventProcessing && db.events[i].attempts < 4
             && db.events[i].lockedUntil.Some? && db.events[i].lockedUntil.value <= db.clock
             && owner !in db.attempts
    ensures var after := Next(Run(EMPTY, steps), ReapExhausted(skipped));
            && after.events[i] == Run(EMPTY, steps).events[i]
            && Next(after, ClaimDelivery(i, owner)).events[i].lockedBy == Some(owner)
  {
    var db := Run(EMPTY, steps);
    Reachable.ReachableIsOk(steps);
    assert Outbox.EventTimesOk(db.events[i], db.clock);
    ReaperAnswer(db, skipped);
    Reclaimed(Next(db, ReapExhausted(skipped)), i, owner);
  }

  lemma Reclaimed(db: Db, i: nat, owner: Token)
    requires i < |db.events| && db.events[i].status == EventProcessing && db.events[i].availableAt <= db.clock
    requires db.events[i].lockedUntil.Some? && db.events[i].lockedUntil.value <= db.clock && owner !in db.attempts
    ensures Next(db, ClaimDelivery(i, owner)).events[i].lockedBy == Some(owner)
  {
  }
}
