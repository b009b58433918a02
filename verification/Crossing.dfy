/** A concrete run across the revision boundary: a stalled attempt of the first phase
    acquires a session whose revision is being worked on.  Its reservation was closed long
    ago, and it needs one again. */
module Crossing {
  import opened Rows
  import opened Tables
  import opened Workflow
  import opened Invariant
  import opened Coherence
  import opened Counterexamples
  import opened Reservations
  import Accounting
  import Fencing
  import Phases
  import Protocol
  import Reachable
  import Budget
  import Charging
  import Outbox
  import Leases
  import Sums

  const FINAL: RunResult := RunResult(true, "", "", "final", [])

  const RESEARCHED_EVENT: Event := RESEARCH_EVENT.(status := EventProcessed, attempts := 1)

  /** The third attempt saves a final result, which settles the reservation at no cost. */
  const FINISHED: Db := THIRD_ACQUIRED.(
    events := [DONE_EVENT, RESEARCHED_EVENT],
    accounts := map[0 := Account(ESTIMATED_USD, 0, ESTIMATED_USD, 0)],
    reservations := map[0 := Reservation(ESTIMATED_USD, ESTIMATED_TOKENS, Some(300))],
    settlements := map[0 := Settlement(0, 2)],
    ledger := THIRD_ACQUIRED.ledger + [Entry(0, Some(0), None, Release, ESTIMATED_TOKENS, ESTIMATED_USD)],
    sessions := [NEW_SESSION.(status := AwaitingFinalReview, jobPhase := Some(ResearchPhase))],
    versions := [Version(0, 1, AwaitingFinalReview, ResearchPhase, "outline", "outline", "", "final")])

  lemma NothingCommitted(ledger: seq<Entry>)
    requires forall i | 0 <= i < |ledger| :: ledger[i].kind != Commit
    ensures Budget.CommittedUsd(ledger, 0) == 0 && Budget.CommittedTokens(ledger, 0) == 0
  {
    Sums.SumZero(Budget.CommitUsdOf(ledger, 0), |ledger|);
    Sums.SumZero(Budget.CommitTokensOf(ledger, 0), |ledger|);
  }

  lemma Settles()
    ensures Budget.ReleaseExcess(THIRD_ACQUIRED.(versions := FINISHED.versions), 0, 0)
         == FINISHED.(events := THIRD_ACQUIRED.events, sessions := THIRD_ACQUIRED.sessions)
  {
    NothingCommitted(THIRD_ACQUIRED.ledger);
  }

  lemma ThirdOwns()
    ensures OwnsAttempt(THIRD_ACQUIRED, 3) && ActiveVersion(THIRD_ACQUIRED, 0) == Some(0)
  {
    var leases := THIRD_ACQUIRED.leases;
    assert !Leases.Open(leases[0], 0) && Leases.Open(leases[1], 0);
    assert Leases.ActiveLease(leases, 0) == Some(1);
  }

  lemma ThirdFinishes()
    ensures FinalCheckpoint(THIRD_ACQUIRED, THIRD_ACQUIRED.attempts[3], 0, FINAL)
         == Committed(FINISHED.(events := THIRD_ACQUIRED.events))
  {
    var db := THIRD_ACQUIRED;
    assert Charging.CommitUsage(db, 0, 0, 1, []) == db;
    assert db.versions[0 := FINISHED.versions[0]] == FINISHED.versions;
    Settles();
  }

  lemma ThirdSaves()
    ensures Next(THIRD_ACQUIRED, SaveSuccess(3, FINAL)) == FINISHED
  {
    ThirdOwns();
    ThirdFinishes();
    assert THIRD_ACQUIRED.events[1 := RESEARCHED_EVENT] == FINISHED.events;
  }

  const ENDED_LEASES: seq<Lease> := [Lease(0, 2, 1, 600, 300, Some(300)), Lease(0, 3, 1, 600, 300, Some(300))]

  lemma ThirdReleases()
    ensures Next(FINISHED, ReleaseSession(3)) == FINISHED.(leases := ENDED_LEASES)
  {
    var leases := FINISHED.leases;
    assert !Leases.Open(leases[0], 0) && Leases.Open(leases[1], 0);
    assert Leases.ActiveLease(leases, 0) == Some(1);
  }

  const REVISION_EVENT: Event := Event(0, 0, Revision, EventPending, 0, 300, None, None, None, 300)

  const OLD_VERSION: Version := Version(0, 1, AwaitingFinalReview, ResearchPhase, "outline", "outline", "", "final")

  const NEW_VERSION: Version := Version(0, 2, Queued, Revision, "outline", "outline", "", "final")

  const REVISED_ROW: Session := NEW_SESSION.(jobPhase := Some(Revision), activeVersion := Some(1))

  /** The user asks for a revision. */
  const REVISED: Db := FINISHED.(
    leases := ENDED_LEASES,
    events := [DONE_EVENT, RESEARCHED_EVENT, REVISION_EVENT],
    versions := [OLD_VERSION, NEW_VERSION],
    sessions := [REVISED_ROW])

  lemma AsksForRevision()
    ensures Next(FINISHED.(leases := ENDED_LEASES), ReviewFinal(0, 0, RequestRevision)) == REVISED
  {
    var db := FINISHED.(leases := ENDED_LEASES);
    assert ActiveVersion(db, 0) == Some(0);
    assert MaxNumber(db.versions, 0) == 1 by {
      assert db.versions[..0] == [];
    }
    assert db.versions + [NEW_VERSION] == REVISED.versions;
    assert Outbox.IndexAllows(db.events, 0);
    assert db.events + [REVISION_EVENT] == REVISED.events;
  }

  /** A fourth attempt claims the revision and acquires the session. */
  const FOURTH_CLAIMS: Db := REVISED.(
    events := [DONE_EVENT, RESEARCHED_EVENT,
               REVISION_EVENT.(status := EventProcessing, attempts := 1, lockedBy := Some(4), lockedUntil := Some(600))],
    attempts := REVISED.attempts[4 := Attempt(2, 0, 0, Revision, "", Claimed)])

  lemma FourthClaimsRevision()
    ensures Next(REVISED, ClaimDelivery(2, 4)) == FOURTH_CLAIMS
  {
    assert REVISED.events[2 := FOURTH_CLAIMS.events[2]] == FOURTH_CLAIMS.events;
  }

  const FOURTH_WORKS: Db := FOURTH_CLAIMS.(
    attempts := REVISED.attempts[4 := Attempt(2, 0, 0, Revision, "outline", Running(1))],
    leases := ENDED_LEASES + [Lease(0, 4, 1, 600, 300, None)],
    sessions := [REVISED_ROW.(status := Processing)],
    versions := [OLD_VERSION, NEW_VERSION.(status := Processing)])

  lemma FourthMarksProcessing()
    ensures ActiveVersion(FOURTH_CLAIMS, 0) == Some(1)
    ensures Leases.Insert(ENDED_LEASES, 300, 0, 4, 1) == FOURTH_WORKS.leases
    ensures MarkProcessing(FOURTH_CLAIMS.(leases := FOURTH_WORKS.leases), 0, Revision)
         == FOURTH_WORKS.(attempts := FOURTH_CLAIMS.attempts)
  {
    var leased := FOURTH_CLAIMS.(leases := FOURTH_WORKS.leases);
    assert ActiveVersion(leased, 0) == Some(1);
    assert leased.versions[1 := FOURTH_WORKS.versions[1]] == FOURTH_WORKS.versions;
  }

  lemma NothingOpen()
    ensures Leases.ActiveLease(ENDED_LEASES, 0).None?
  {
    assert !Leases.Open(ENDED_LEASES[0], 0) && !Leases.Open(ENDED_LEASES[1], 0);
  }

  lemma FourthAcquires()
    ensures Next(FOURTH_CLAIMS, AcquireSession(4)) == FOURTH_WORKS
  {
    var db := FOURTH_CLAIMS;
    NothingOpen();
    FourthMarksProcessing();
    assert AcquireLease(db, 0, Revision, 4) == Acquired(FOURTH_WORKS.(attempts := db.attempts), 1);
  }

  /** After one heartbeat it stalls for 100 seconds, and its lease expires. */
  const FOURTH_STALLS: Db := FOURTH_WORKS.(clock := 400, leases := ENDED_LEASES + [Lease(0, 4, 1, 390, 300, None)])

  lemma FourthBeats()
    ensures Next(Next(FOURTH_WORKS, BeatOnce(4)), Tick(100)) == FOURTH_STALLS
  {
    var db := FOURTH_WORKS;
    assert !Leases.Open(db.leases[0], 0) && !Leases.Open(db.leases[1], 0) && Leases.Open(db.leases[2], 0);
    assert Leases.ActiveLease(db.leases, 0) == Some(2);
    assert db.events[2 := db.events[2].(lockedUntil := Some(600))] == db.events;
    assert db.leases[2 := FOURTH_STALLS.leases[2]] == FOURTH_STALLS.leases;
    assert Next(db, BeatOnce(4)) == FOURTH_STALLS.(clock := 300);
  }

  const BOUNDARY_RUN: seq<Step> :=
    THIRD_RUN + [SaveSuccess(3, FINAL)] + [ReleaseSession(3)] + [ReviewFinal(0, 0, RequestRevision)]
    + [ClaimDelivery(2, 4)] + [AcquireSession(4)] + [BeatOnce(4)] + [Tick(100)]

  lemma ReachesRevision(run: seq<Step>)
    requires Run(EMPTY, run) == THIRD_ACQUIRED
    ensures Run(EMPTY, run + [SaveSuccess(3, FINAL)] + [ReleaseSession(3)] + [ReviewFinal(0, 0, RequestRevision)]) == REVISED
  {
    Fencing.RunThen(EMPTY, run, SaveSuccess(3, FINAL));
    ThirdSaves();
    Fencing.RunThen(EMPTY, run + [SaveSuccess(3, FINAL)], ReleaseSession(3));
    ThirdReleases();
    Fencing.RunThen(EMPTY, run + [SaveSuccess(3, FINAL)] + [ReleaseSession(3)], ReviewFinal(0, 0, RequestRevision));
    AsksForRevision();
  }

  lemma ReachesBoundary(run: seq<Step>)
    requires Run(EMPTY, run) == REVISED
    ensures Run(EMPTY, run + [ClaimDelivery(2, 4)] + [AcquireSession(4)] + [BeatOnce(4)] + [Tick(100)]) == FOURTH_STALLS
  {
    Fencing.RunThen(EMPTY, run, ClaimDelivery(2, 4));
    FourthClaimsRevision();
    Fencing.RunThen(EMPTY, run + [ClaimDelivery(2, 4)], AcquireSession(4));
    FourthAcquires();
    Fencing.RunThen(EMPTY, run + [ClaimDelivery(2, 4)] + [AcquireSession(4)], BeatOnce(4));
    Fencing.RunThen(EMPTY, run + [ClaimDelivery(2, 4)] + [AcquireSession(4)] + [BeatOnce(4)], Tick(100));
    FourthBeats();
  }

  /** The first attempt, of the first phase, can acquire the session now. */
  lemma FirstWouldCross()
    ensures Protocol.WouldAcquire(FOURTH_STALLS, 1) && !KeepsSide(FOURTH_STALLS, AcquireSession(1))
  {
    var db := FOURTH_STALLS;
    assert !Leases.Open(db.leases[0], 0) && !Leases.Open(db.leases[1], 0) && Leases.Open(db.leases[2], 0);
    assert Leases.ActiveLease(db.leases, 0) == Some(2);
  }

  lemma ExactBeforeCrossing()
    ensures ReservationsExact(FOURTH_STALLS)
  {
    assert ReservationExact(FOURTH_STALLS, 0);
  }

  lemma ReachesCrossing()
    ensures Run(EMPTY, BOUNDARY_RUN) == FOURTH_STALLS
  {
    ReachesThird();
    ReachesRevision(THIRD_RUN);
    ReachesBoundary(THIRD_RUN + [SaveSuccess(3, FINAL)] + [ReleaseSession(3)] + [ReviewFinal(0, 0, RequestRevision)]);
  }

  lemma AcquisitionBooksNothing(db: Db, owner: Token)
    requires ProtocolOk(db)
    ensures Next(db, AcquireSession(owner)).reservations == db.reservations
  {
    Accounting.AcquireMovesNoMoney(db, owner);
  }

  lemma BoundaryIsReachable()
    ensures Reachable.Inv(FOURTH_STALLS) && Phases.PhasesOk(FOURTH_STALLS)
  {
    ReachesCrossing();
    Reachable.ReachableIsOk(BOUNDARY_RUN);
    Phases.PhasesInEveryRun(BOUNDARY_RUN);
  }

  lemma CrossingStep()
    ensures !ReservationsExact(Next(FOURTH_STALLS, AcquireSession(1)))
    ensures !Budget.OpenReservation(Next(FOURTH_STALLS, AcquireSession(1)).reservations, 0)
  {
    BoundaryIsReachable();
    ExactBeforeCrossing();
    FirstWouldCross();
    StepExactly(FOURTH_STALLS, AcquireSession(1));
    AcquisitionBooksNothing(FOURTH_STALLS, 1);
  }

  /** Exactness of reservations fails in a reachable state: before the last step it holds,
      after it a session in progress in its first phase has no open reservation. */
  lemma CrossingBreaksReservations()
    ensures Run(EMPTY, BOUNDARY_RUN) == FOURTH_STALLS && ReservationsExact(FOURTH_STALLS)
    ensures !ReservationsExact(Run(EMPTY, BOUNDARY_RUN + [AcquireSession(1)]))
    ensures !Budget.OpenReservation(Run(EMPTY, BOUNDARY_RUN + [AcquireSession(1)]).reservations, 0)
  {
    ReachesCrossing();
    ExactBeforeCrossing();
    CrossingStep();
    Fencing.RunThen(EMPTY, BOUNDARY_RUN, AcquireSession(1));
  }
}
