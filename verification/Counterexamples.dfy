/** Two concrete runs from the empty database: one ends in a stranded session, the other
    loses an event for good. */
module Counterexamples {
  import opened Rows
  import opened Tables
  import opened Workflow
  import opened Invariant
  import opened Coherence
  import opened Recovery
  import Fencing
  import Losses
  import Reachable
  import W = Workflow
  import Budget
  import Charging
  import Outbox
  import Leases
  import Lifecycle
  import Quotas

  const OUTLINE: RunResult := RunResult(true, "outline", "", "", [])

  // --------------------------------------------------------- one event, one attempt

  const GRANTED: Entry := Entry(0, None, None, Grant, 0, ESTIMATED_USD)

  const FUNDED: Db := EMPTY.(accounts := map[0 := Account(ESTIMATED_USD, 0, ESTIMATED_USD, 0)], ledger := [GRANTED])

  const FRESH_EVENT: Event := Event(0, 0, FreshGeneration, EventPending, 0, 0, None, None, None, 0)

  const NEW_SESSION: Session := Session(0, Queued, Some(FreshGeneration), Some(0), ESTIMATED_TOKENS, ESTIMATED_USD, 0, 0)

  const CREATED: Db := FUNDED.(
    quotas := map[0 := Quota(1, DAILY_LIMIT, 0)],
    accounts := map[0 := Account(ESTIMATED_USD, ESTIMATED_USD, ESTIMATED_USD, 0)],
    ledger := [GRANTED, Entry(0, Some(0), None, Reserve, -ESTIMATED_TOKENS, -ESTIMATED_USD)],
    reservations := map[0 := Reservation(ESTIMATED_USD, ESTIMATED_TOKENS, None)],
    sessions := [NEW_SESSION],
    versions := [Version(0, 1, Queued, FreshGeneration, "", "", "", "")],
    events := [FRESH_EVENT])

  const SETUP: seq<Step> := [GrantBudget(0, ESTIMATED_USD, 0)] + [Create(0, true)]

  lemma SetUp()
    ensures Run(EMPTY, SETUP) == CREATED
  {
    Fencing.RunOne(EMPTY, GrantBudget(0, ESTIMATED_USD, 0));
    assert Next(EMPTY, GrantBudget(0, ESTIMATED_USD, 0)) == FUNDED;
    Fencing.RunThen(EMPTY, [GrantBudget(0, ESTIMATED_USD, 0)], Create(0, true));
    assert Next(FUNDED, Create(0, true)) == CREATED;
  }

  /** The first attempt claims the event at time 0. */
  const FIRST_CLAIMED: Db := CREATED.(
    events := [FRESH_EVENT.(status := EventProcessing, attempts := 1, lockedBy := Some(1), lockedUntil := Some(300))],
    attempts := map[1 := Attempt(0, 0, 0, FreshGeneration, "", Claimed)])

  lemma FirstClaims()
    ensures Next(CREATED, ClaimDelivery(0, 1)) == FIRST_CLAIMED
  {
  }

  /** And acquires the session. */
  const FIRST_ACQUIRED: Db := FIRST_CLAIMED.(
    attempts := map[1 := Attempt(0, 0, 0, FreshGeneration, "", Running(1))],
    leases := [Lease(0, 1, 1, 300, 0, None)],
    sessions := [NEW_SESSION.(status := Processing)],
    versions := [Version(0, 1, Processing, FreshGeneration, "", "", "", "")])

  lemma FirstAcquires()
    ensures Next(FIRST_CLAIMED, AcquireSession(1)) == FIRST_ACQUIRED
  {
    var db := FIRST_CLAIMED;
    assert Leases.ActiveLease(db.leases, 0).None?;
    assert ActiveVersion(db, 0) == Some(0);
    assert Leases.Insert(db.leases, db.clock, 0, 1, 1) == FIRST_ACQUIRED.leases;
    var leased := db.(leases := FIRST_ACQUIRED.leases);
    assert MarkProcessing(leased, 0, FreshGeneration) == FIRST_ACQUIRED.(attempts := db.attempts);
    assert AcquireLease(db, 0, FreshGeneration, 1) == Acquired(FIRST_ACQUIRED.(attempts := db.attempts), 1);
  }

  /** It stalls past its claim; its retry is refused, and its clean-up releases the lease. */
  const RELEASED: Db := FIRST_ACQUIRED.(clock := 301, leases := [Lease(0, 1, 1, 300, 0, Some(301))])

  lemma StalledReleases()
    ensures Next(Next(Next(FIRST_ACQUIRED, Tick(301)), RetryLater(1)), ReleaseSession(1)) == RELEASED
  {
    var late := FIRST_ACQUIRED.(clock := 301);
    assert Next(FIRST_ACQUIRED, Tick(301)) == late;
    assert Next(late, RetryLater(1)) == late;
    assert Leases.ActiveLease(late.leases, 0) == Some(0);
  }

  /** The redelivered event is claimed again. */
  const STRANDED: Db := RELEASED.(
    events := [FRESH_EVENT.(status := EventProcessing, attempts := 2, lockedBy := Some(2), lockedUntil := Some(601))],
    attempts := map[1 := Attempt(0, 0, 0, FreshGeneration, "", Running(1)),
                    2 := Attempt(0, 0, 0, FreshGeneration, "", Claimed)])

  lemma SecondClaims()
    ensures Next(RELEASED, ClaimDelivery(0, 2)) == STRANDED
    ensures Stranded(STRANDED, 0)
  {
    assert !Leases.Open(STRANDED.leases[0], 0);
  }

  const STALLED_RUN: seq<Step> :=
    SETUP + [ClaimDelivery(0, 1)] + [AcquireSession(1)] + [Tick(301)] + [RetryLater(1)] + [ReleaseSession(1)]
    + [ClaimDelivery(0, 2)]

  /** The run that strands a session: an attempt stalls past its claim, its retry is
      refused, it releases its lease, and the redelivery can never acquire the session:
      from here on it is stranded or failed, and no result is ever saved. */
  lemma StalledRunStrands(rest: seq<Step>)
    ensures Run(EMPTY, STALLED_RUN) == STRANDED && Stranded(STRANDED, 0)
    ensures var later := Run(EMPTY, STALLED_RUN + rest);
            0 < |later.sessions| && later.sessions[0].status in {Processing, Failed}
  {
    SetUp();
    Fencing.RunThen(EMPTY, SETUP, ClaimDelivery(0, 1));
    FirstClaims();
    var one := SETUP + [ClaimDelivery(0, 1)];
    Fencing.RunThen(EMPTY, one, AcquireSession(1));
    FirstAcquires();
    StalledTail(one + [AcquireSession(1)]);
    SecondClaims();
    Reachable.ReachableIsOk(STALLED_RUN);
    Fencing.RunAppend(EMPTY, STALLED_RUN, rest);
    StrandedNeverRecovers(STRANDED, rest, 0);
  }

  lemma StalledTail(two: seq<Step>)
    requires Run(EMPTY, two) == FIRST_ACQUIRED
    ensures Run(EMPTY, two + [Tick(301)] + [RetryLater(1)] + [ReleaseSession(1)] + [ClaimDelivery(0, 2)])
         == Next(RELEASED, ClaimDelivery(0, 2))
  {
    Fencing.RunThen(EMPTY, two, Tick(301));
    Fencing.RunThen(EMPTY, two + [Tick(301)], RetryLater(1));
    Fencing.RunThen(EMPTY, two + [Tick(301)] + [RetryLater(1)], ReleaseSession(1));
    StalledReleases();
    Fencing.RunThen(EMPTY, two + [Tick(301)] + [RetryLater(1)] + [ReleaseSession(1)], ClaimDelivery(0, 2));
  }

  // ------------------------------------------------------- two events, four attempts

  /** A first attempt claims the event and stalls; a second one takes over at time 300. */
  const SECOND_CLAIMED: Db := FIRST_CLAIMED.(
    clock := 300,
    events := [FRESH_EVENT.(status := EventProcessing, attempts := 2, lockedBy := Some(2), lockedUntil := Some(600))],
    attempts := map[1 := Attempt(0, 0, 0, FreshGeneration, "", Claimed),
                    2 := Attempt(0, 0, 0, FreshGeneration, "", Claimed)])

  lemma TakeOver()
    ensures Next(Next(FIRST_CLAIMED, Tick(300)), ClaimDelivery(0, 2)) == SECOND_CLAIMED
  {
  }

  const SECOND_ACQUIRED: Db := SECOND_CLAIMED.(
    attempts := map[1 := Attempt(0, 0, 0, FreshGeneration, "", Claimed),
                    2 := Attempt(0, 0, 0, FreshGeneration, "", Running(1))],
    leases := [Lease(0, 2, 1, 600, 300, None)],
    sessions := [NEW_SESSION.(status := Processing)],
    versions := [Version(0, 1, Processing, FreshGeneration, "", "", "", "")])

  lemma SecondAcquires()
    ensures Next(SECOND_CLAIMED, AcquireSession(2)) == SECOND_ACQUIRED
  {
    var db := SECOND_CLAIMED;
    assert Leases.ActiveLease(db.leases, 0).None?;
    assert ActiveVersion(db, 0) == Some(0);
    assert Leases.Insert(db.leases, db.clock, 0, 2, 1) == SECOND_ACQUIRED.leases;
    var leased := db.(leases := SECOND_ACQUIRED.leases);
    assert MarkProcessing(leased, 0, FreshGeneration) == SECOND_ACQUIRED.(attempts := db.attempts);
    assert AcquireLease(db, 0, FreshGeneration, 2) == Acquired(SECOND_ACQUIRED.(attempts := db.attempts), 1);
  }

  const DONE_EVENT: Event := FRESH_EVENT.(status := EventProcessed, attempts := 2)

  const OUTLINED: Db := SECOND_ACQUIRED.(
    events := [DONE_EVENT],
    sessions := [NEW_SESSION.(status := AwaitingOutlineReview)],
    versions := [Version(0, 1, AwaitingOutlineReview, ResearchPhase, "outline", "", "", "")])

  lemma SecondSaves()
    ensures Next(SECOND_ACQUIRED, SaveSuccess(2, OUTLINE)) == OUTLINED
  {
    var db := SECOND_ACQUIRED;
    var a := db.attempts[2];
    assert Leases.ActiveLease(db.leases, 0) == Some(0);
    assert OwnsAttempt(db, 2);
    assert ActiveVersion(db, 0) == Some(0);
    assert Charging.CommitUsage(db, 0, 0, 1, []) == db;
    assert OutlineCheckpoint(db, a, 0, OUTLINE) == Committed(OUTLINED.(events := db.events));
  }

  const RESEARCH_EVENT: Event := Event(0, 0, ResearchPhase, EventPending, 0, 300, None, None, None, 300)

  /** The outline is reviewed, and a third attempt claims the research event. */
  const THIRD_CLAIMED: Db := OUTLINED.(
    leases := [Lease(0, 2, 1, 600, 300, Some(300))],
    sessions := [NEW_SESSION.(jobPhase := Some(ResearchPhase))],
    versions := [Version(0, 1, Queued, ResearchPhase, "outline", "outline", "", "")],
    events := [DONE_EVENT,
               RESEARCH_EVENT.(status := EventProcessing, attempts := 1, lockedBy := Some(3), lockedUntil := Some(600))],
    attempts := OUTLINED.attempts[3 := Attempt(1, 0, 0, ResearchPhase, "", Claimed)])

  const REVIEWED: Db := THIRD_CLAIMED.(events := [DONE_EVENT, RESEARCH_EVENT], attempts := OUTLINED.attempts)

  lemma SecondReleases()
    ensures Next(OUTLINED, ReleaseSession(2)) == OUTLINED.(leases := THIRD_CLAIMED.leases)
  {
    assert Leases.ActiveLease(OUTLINED.leases, 0) == Some(0);
  }

  lemma Reviewed()
    ensures Next(OUTLINED.(leases := THIRD_CLAIMED.leases), ReviewOutline(0, 0, "outline")) == REVIEWED
  {
    var released := OUTLINED.(leases := THIRD_CLAIMED.leases);
    assert ActiveVersion(released, 0) == Some(0);
    assert Outbox.IndexAllows(released.events, 0);
    assert released.events + [RESEARCH_EVENT] == REVIEWED.events;
  }

  lemma ThirdClaims()
    ensures Next(REVIEWED, ClaimDelivery(1, 3)) == THIRD_CLAIMED
  {
    assert REVIEWED.events[1 := THIRD_CLAIMED.events[1]] == THIRD_CLAIMED.events;
  }

  const THIRD_ACQUIRED: Db := THIRD_CLAIMED.(
    attempts := OUTLINED.attempts[3 := Attempt(1, 0, 0, ResearchPhase, "outline", Running(1))],
    leases := [Lease(0, 2, 1, 600, 300, Some(300)), Lease(0, 3, 1, 600, 300, None)],
    sessions := [NEW_SESSION.(status := Processing, jobPhase := Some(ResearchPhase))],
    versions := [Version(0, 1, Processing, ResearchPhase, "outline", "outline", "", "")])

  lemma ThirdMarksProcessing()
    ensures ActiveVersion(THIRD_CLAIMED, 0) == Some(0)
    ensures Leases.Insert(THIRD_CLAIMED.leases, 300, 0, 3, 1) == THIRD_ACQUIRED.leases
    ensures MarkProcessing(THIRD_CLAIMED.(leases := THIRD_ACQUIRED.leases), 0, ResearchPhase)
         == THIRD_ACQUIRED.(attempts := THIRD_CLAIMED.attempts)
  {
    var leased := THIRD_CLAIMED.(leases := THIRD_ACQUIRED.leases);
    assert ActiveVersion(leased, 0) == Some(0);
  }

  lemma ThirdAcquires()
    ensures Next(THIRD_CLAIMED, AcquireSession(3)) == THIRD_ACQUIRED
  {
    var db := THIRD_CLAIMED;
    assert !Leases.Open(db.leases[0], 0);
    assert Leases.ActiveLease(db.leases, 0).None?;
    ThirdMarksProcessing();
    assert AcquireLease(db, 0, ResearchPhase, 3) == Acquired(THIRD_ACQUIRED.(attempts := db.attempts), 1);
  }

  /** After one heartbeat the third attempt stalls for 100 seconds: its lease expires,
      its claim does not. */
  const THIRD_STALLED: Db := THIRD_ACQUIRED.(
    clock := 400,
    leases := [Lease(0, 2, 1, 600, 300, Some(300)), Lease(0, 3, 1, 390, 300, None)])

  lemma ThirdStalls()
    ensures Next(Next(THIRD_ACQUIRED, BeatOnce(3)), Tick(100)) == THIRD_STALLED
  {
    var db := THIRD_ACQUIRED;
    assert !Leases.Open(db.leases[0], 0) && Leases.Open(db.leases[1], 0);
    assert Leases.ActiveLease(db.leases, 0) == Some(1);
    assert db.events[1 := db.events[1].(lockedUntil := Some(600))] == db.events;
    assert Next(db, BeatOnce(3)) == THIRD_STALLED.(clock := 300);
  }

  /** The first attempt wakes up and acquires the PROCESSING session for its old phase. */
  const OVERWRITTEN: Db := THIRD_STALLED.(
    attempts := THIRD_STALLED.attempts[1 := Attempt(0, 0, 0, FreshGeneration, "outline", Running(2))],
    leases := [Lease(0, 2, 1, 600, 300, Some(300)), Lease(0, 3, 1, 390, 300, Some(400)), Lease(0, 1, 2, 700, 400, None)],
    sessions := [NEW_SESSION.(status := Processing, jobPhase := Some(FreshGeneration))],
    versions := [Version(0, 1, Processing, FreshGeneration, "outline", "outline", "", "")])

  const THIRD_REPLACED: Db := THIRD_STALLED.(
    leases := [Lease(0, 2, 1, 600, 300, Some(300)), Lease(0, 3, 1, 390, 300, Some(400))],
    sessions := [NEW_SESSION.(jobPhase := Some(ResearchPhase))])

  /** The expired lease is ended and the session put back to QUEUED. */
  lemma ThirdIsReplaced()
    ensures Leases.ActiveLease(THIRD_STALLED.leases, 0) == Some(1)
    ensures Leases.End(THIRD_STALLED.leases, 400, 1) == THIRD_REPLACED.leases
    ensures THIRD_STALLED.sessions[0 := THIRD_STALLED.sessions[0].(status := Queued)] == THIRD_REPLACED.sessions
  {
  }

  lemma FirstMarksProcessing()
    ensures ActiveVersion(THIRD_REPLACED, 0) == Some(0)
    ensures Leases.Insert(THIRD_REPLACED.leases, 400, 0, 1, 2) == OVERWRITTEN.leases
    ensures MarkProcessing(THIRD_REPLACED.(leases := OVERWRITTEN.leases), 0, FreshGeneration)
         == OVERWRITTEN.(attempts := THIRD_STALLED.attempts)
  {
    var leased := THIRD_REPLACED.(leases := OVERWRITTEN.leases);
    assert ActiveVersion(leased, 0) == Some(0);
  }

  lemma FirstOverwrites()
    ensures Next(THIRD_STALLED, AcquireSession(1)) == OVERWRITTEN
  {
    var db := THIRD_STALLED;
    ThirdIsReplaced();
    FirstMarksProcessing();
    assert db.(leases := THIRD_REPLACED.leases, sessions := THIRD_REPLACED.sessions) == THIRD_REPLACED;
    assert AcquireLease(db, 0, FreshGeneration, 1) == Acquired(OVERWRITTEN.(attempts := db.attempts), 2);
  }

  /** The third attempt still owns the claim: its retry succeeds, under the wrong phase. */
  const REQUEUED: Db := OVERWRITTEN.(
    events := [DONE_EVENT, RESEARCH_EVENT.(attempts := 1, availableAt := 402)],
    sessions := [NEW_SESSION],
    versions := [Version(0, 1, Queued, ResearchPhase, "outline", "outline", "", "")])

  lemma ThirdRequeues()
    ensures Outbox.CurrentClaim(OVERWRITTEN.events, 1, 3, 400)
    ensures Outbox.Retry(OVERWRITTEN.events, 400, 1, 3) == Some(REQUEUED.events)
  {
    Outbox.RetryDelays();
    assert OVERWRITTEN.events[1 := REQUEUED.events[1]] == REQUEUED.events;
  }

  /** The lease it held has been ended, so the clean-up in the retry releases nothing. */
  lemma ThirdReleasesNothing()
    ensures Leases.ReleaseLease(OVERWRITTEN.leases, 400, 0, 3, 1) == OVERWRITTEN.leases
  {
  }

  lemma ThirdRetries()
    ensures Next(OVERWRITTEN, RetryLater(3)) == REQUEUED
  {
    var db := OVERWRITTEN;
    ThirdRequeues();
    ThirdReleasesNothing();
    var retried := db.(events := REQUEUED.events);
    var requeued := SetSession(retried, 0, NEW_SESSION);
    assert requeued == retried.(sessions := REQUEUED.sessions);
    assert SetVersionJob(requeued, 0, Queued, ResearchPhase) == REQUEUED;
    assert W.Release(REQUEUED, 3) == REQUEUED;
    assert ScheduleRetry(db, 3) == Committed(REQUEUED);
  }

  /** The fourth attempt finds a QUEUED session of another phase and completes the event. */
  const ORPHANED: Db := REQUEUED.(
    clock := 402,
    events := [DONE_EVENT, RESEARCH_EVENT.(status := EventProcessed, attempts := 2, availableAt := 402)],
    attempts := REQUEUED.attempts[4 := Attempt(1, 0, 0, ResearchPhase, "", Obsolete)])

  const FOURTH_CLAIMED: Db := REQUEUED.(
    clock := 402,
    events := [DONE_EVENT, RESEARCH_EVENT.(status := EventProcessing, attempts := 2, availableAt := 402,
                                           lockedBy := Some(4), lockedUntil := Some(702))],
    attempts := REQUEUED.attempts[4 := Attempt(1, 0, 0, ResearchPhase, "", Claimed)])

  lemma FourthClaims()
    ensures Next(Next(REQUEUED, Tick(2)), ClaimDelivery(1, 4)) == FOURTH_CLAIMED
  {
    var late := REQUEUED.(clock := 402);
    assert Next(REQUEUED, Tick(2)) == late;
    assert late.events[1 := FOURTH_CLAIMED.events[1]] == FOURTH_CLAIMED.events;
    assert 4 !in late.attempts;
  }

  lemma FourthIsObsolete()
    ensures Next(FOURTH_CLAIMED, AcquireSession(4)) == ORPHANED.(events := FOURTH_CLAIMED.events)
  {
    assert !WantsJob(FOURTH_CLAIMED, 0, ResearchPhase);
  }

  lemma FourthCompletes()
    ensures Next(Next(Next(Next(REQUEUED, Tick(2)), ClaimDelivery(1, 4)), AcquireSession(4)), CompleteStale(4)) == ORPHANED
  {
    FourthClaims();
    FourthIsObsolete();
    var obsolete := ORPHANED.(events := FOURTH_CLAIMED.events);
    assert obsolete.events[1 := ORPHANED.events[1]] == ORPHANED.events;
  }

  const OUTLINE_RUN: seq<Step> :=
    SETUP + [ClaimDelivery(0, 1)] + [Tick(300)] + [ClaimDelivery(0, 2)] + [AcquireSession(2)] + [SaveSuccess(2, OUTLINE)]

  const THIRD_RUN: seq<Step> :=
    OUTLINE_RUN + [ReleaseSession(2)] + [ReviewOutline(0, 0, "outline")] + [ClaimDelivery(1, 3)] + [AcquireSession(3)]

  const OVERWRITING_RUN: seq<Step> := THIRD_RUN + [BeatOnce(3)] + [Tick(100)]

  const ORPHANING_RUN: seq<Step> :=
    OVERWRITING_RUN + [AcquireSession(1)] + [RetryLater(3)] + [Tick(2)] + [ClaimDelivery(1, 4)]
    + [AcquireSession(4)] + [CompleteStale(4)]

  lemma ReachesOutline()
    ensures Run(EMPTY, OUTLINE_RUN) == OUTLINED
  {
    SetUp();
    Fencing.RunThen(EMPTY, SETUP, ClaimDelivery(0, 1));
    FirstClaims();
    var one := SETUP + [ClaimDelivery(0, 1)];
    Fencing.RunThen(EMPTY, one, Tick(300));
    Fencing.RunThen(EMPTY, one + [Tick(300)], ClaimDelivery(0, 2));
    TakeOver();
    Fencing.RunThen(EMPTY, one + [Tick(300)] + [ClaimDelivery(0, 2)], AcquireSession(2));
    SecondAcquires();
    Fencing.RunThen(EMPTY, one + [Tick(300)] + [ClaimDelivery(0, 2)] + [AcquireSession(2)], SaveSuccess(2, OUTLINE));
    SecondSaves();
  }

  /** The third attempt works on the research job. */
  lemma ReachesThird()
    ensures Run(EMPTY, THIRD_RUN) == THIRD_ACQUIRED
  {
    ReachesOutline();
    Fencing.RunThen(EMPTY, OUTLINE_RUN, ReleaseSession(2));
    SecondReleases();
    var released := OUTLINE_RUN + [ReleaseSession(2)];
    Fencing.RunThen(EMPTY, released, ReviewOutline(0, 0, "outline"));
    Reviewed();
    var reviewed := released + [ReviewOutline(0, 0, "outline")];
    Fencing.RunThen(EMPTY, reviewed, ClaimDelivery(1, 3));
    ThirdClaims();
    Fencing.RunThen(EMPTY, reviewed + [ClaimDelivery(1, 3)], AcquireSession(3));
    ThirdAcquires();
  }

  lemma ReachesStall()
    ensures Run(EMPTY, OVERWRITING_RUN) == THIRD_STALLED
  {
    ReachesThird();
    Fencing.RunThen(EMPTY, THIRD_RUN, BeatOnce(3));
    Fencing.RunThen(EMPTY, THIRD_RUN + [BeatOnce(3)], Tick(100));
    ThirdStalls();
  }

  lemma ReachesOrphan(run: seq<Step>)
    requires Run(EMPTY, run) == THIRD_STALLED
    ensures Run(EMPTY, run + [AcquireSession(1)]) == OVERWRITTEN
    ensures Run(EMPTY, run + [AcquireSession(1)] + [RetryLater(3)] + [Tick(2)] + [ClaimDelivery(1, 4)]
                       + [AcquireSession(4)] + [CompleteStale(4)]) == ORPHANED
  {
    Fencing.RunThen(EMPTY, run, AcquireSession(1));
    FirstOverwrites();
    var one := run + [AcquireSession(1)];
    Fencing.RunThen(EMPTY, one, RetryLater(3));
    ThirdRetries();
    var two := one + [RetryLater(3)];
    Fencing.RunThen(EMPTY, two, Tick(2));
    Fencing.RunThen(EMPTY, two + [Tick(2)], ClaimDelivery(1, 4));
    Fencing.RunThen(EMPTY, two + [Tick(2)] + [ClaimDelivery(1, 4)], AcquireSession(4));
    Fencing.RunThen(EMPTY, two + [Tick(2)] + [ClaimDelivery(1, 4)] + [AcquireSession(4)], CompleteStale(4));
    FourthCompletes();
  }

  /** Coherence fails in a reachable state: a stalled attempt of an earlier phase acquires
      the session, and the active event no longer has the session's job phase. */
  lemma PhaseCanBeOverwritten()
    ensures Run(EMPTY, OVERWRITING_RUN) == THIRD_STALLED
    ensures Run(EMPTY, OVERWRITING_RUN + [AcquireSession(1)]) == OVERWRITTEN
    ensures Outbox.Active(OVERWRITTEN.events[1]) && OVERWRITTEN.events[1].phase == ResearchPhase
    ensures OVERWRITTEN.sessions[0].jobPhase == Some(FreshGeneration)
    ensures !SamePhase(THIRD_STALLED, AcquireSession(1)) && !Coherent(OVERWRITTEN)
  {
    ReachesStall();
    ReachesOrphan(OVERWRITING_RUN);
    OverwritingIsIncoherent();
  }

  lemma OverwritingIsIncoherent()
    ensures !SamePhase(THIRD_STALLED, AcquireSession(1)) && !Coherent(OVERWRITTEN)
  {
    ThirdIsReplaced();
    FirstMarksProcessing();
    assert !HasWork(OVERWRITTEN.events, 0, Some(FreshGeneration));
    assert !SessionCoherent(OVERWRITTEN.sessions[0], 0, OVERWRITTEN.events);
  }

  /** An event can be lost for good: the run ends with a QUEUED session that has no active
      event, and whatever happens next it stays so and blocks its user. */
  lemma EventCanBeLost(rest: seq<Step>)
    ensures Run(EMPTY, ORPHANING_RUN) == ORPHANED && Orphaned(ORPHANED, 0)
    ensures Losses.LosesSomewhere(ORPHANING_RUN, 0)
    ensures Orphaned(Run(EMPTY, ORPHANING_RUN + rest), 0)
  {
    PhaseCanBeOverwritten();
    ReachesOrphan(OVERWRITING_RUN);
    EndsOrphaned();
    Losses.OrphanedExactly(ORPHANING_RUN, 0);
    Reachable.ReachableIsOk(ORPHANING_RUN);
    Fencing.RunAppend(EMPTY, ORPHANING_RUN, rest);
    OrphanedForever(ORPHANED, rest, 0, true);
  }

  lemma EndsOrphaned()
    ensures Orphaned(ORPHANED, 0)
  {
  }
}
