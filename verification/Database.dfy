/** The tables as one mutable object, and the repository and service methods that update
    them row by row.  Every method is tied to the transaction function it carries out. */
module Database {
  import opened Rows
  import opened Tables
  import Lifecycle
  import Outbox
  import Leases
  import Budget
  import Charging
  import Quotas
  import T = Transactions
  import W = Workflow

  /** What acquire_lease returned, or that it raised. */
  datatype LeaseResult = NotAcquired | Raised | Acquired(leaseVersion: nat)

  /** mark_dispatched for each of the published events, in turn. */
  function MarkAll(db: Db, published: seq<nat>): Db {
    if published == [] then db
    else
      var before := MarkAll(db, published[..|published| - 1]);
      before.(events := Outbox.MarkDispatched(before.events, before.clock, published[|published| - 1]))
  }

  class Database {
    var clock: nat
    var events: seq<Event>
    var sessions: seq<Session>
    var versions: seq<Version>
    var leases: seq<Lease>
    var accounts: map<nat, Account>
    var reservations: map<nat, Reservation>
    var ledger: seq<Entry>
    var runs: seq<AgentRun>
    var quotas: map<nat, Quota>
    var attempts: map<Token, Attempt>
    var settlements: map<nat, Settlement>

    function State(): Db
      reads this
    {
      Db(clock, events, sessions, versions, leases, accounts, reservations, ledger, runs, quotas, attempts, settlements)
    }

    constructor ()
      ensures State() == EMPTY
    {
      clock := 0;
      events, sessions, versions, leases, ledger, runs := [], [], [], [], [], [];
      accounts, reservations, quotas, attempts, settlements := map[], map[], map[], map[], map[];
    }

    /** Undoes an open transaction. */
    method Rollback(saved: Db)
      modifies this
      ensures State() == saved
    {
      clock, events, sessions, versions := saved.clock, saved.events, saved.sessions, saved.versions;
      leases, accounts, reservations := saved.leases, saved.accounts, saved.reservations;
      ledger, runs, quotas := saved.ledger, saved.runs, saved.quotas;
      attempts, settlements := saved.attempts, saved.settlements;
    }

    // ---------------------------------------------------- workflow outbox repository

    /** False when the partial unique index rejects the row. */
    method Enqueue(session: nat, user: nat, phase: Phase) returns (ok: bool)
      modifies this
      ensures ok <==> Outbox.IndexAllows(old(events), session)
      ensures ok ==> Outbox.Enqueue(old(events), old(clock), session, user, phase) == Some(events)
      ensures State() == old(State()).(events := if ok then events else old(events))
    {
      ok := Outbox.IndexAllows(events, session);
      if ok {
        events := events + [Event(session, user, phase, EventPending, 0, clock, None, None, None, clock)];
      }
    }

    method ClaimEvent(id: nat, owner: Token) returns (ok: bool)
      modifies this
      ensures ok <==> Outbox.ClaimEvent(old(events), old(clock), id, owner).Some?
      ensures State() == old(State()).(
                events := if ok then Outbox.ClaimEvent(old(events), old(clock), id, owner).value else old(events))
    {
      if id >= |events| || !Outbox.Claimable(events[id], clock) {
        return false;
      }
      var e := events[id];
      e := e.(status := EventProcessing);
      e := e.(attempts := e.attempts + 1);
      e := e.(lockedBy := Some(owner), lockedUntil := Some(clock + LEASE_SECONDS));
      events := events[id := e];
      return true;
    }

    method HeartbeatEvent(id: nat, owner: Token) returns (ok: bool)
      modifies this
      ensures ok <==> Outbox.Heartbeat(old(events), old(clock), id, owner).Some?
      ensures State() == old(State()).(
                events := if ok then Outbox.Heartbeat(old(events), old(clock), id, owner).value else old(events))
    {
      if !Outbox.Owned(events, id, owner) {
        return false;
      }
      events := events[id := events[id].(lockedUntil := Some(clock + LEASE_SECONDS))];
      return true;
    }

    /** complete and fail: the claim ends with this status. */
    method FinishEvent(id: nat, owner: Token, status: EventStatus) returns (ok: bool)
      modifies this
      ensures ok <==> Outbox.Finish(old(events), id, owner, status).Some?
      ensures State() == old(State()).(
                events := if ok then Outbox.Finish(old(events), id, owner, status).value else old(events))
    {
      if !Outbox.Owned(events, id, owner) {
        return false;
      }
      var e := events[id].(status := status);
      e := e.(lockedBy := None, lockedUntil := None);
      events := events[id := e];
      return true;
    }

    method RetryEvent(id: nat, owner: Token) returns (ok: bool)
      modifies this
      ensures ok <==> Outbox.Retry(old(events), old(clock), id, owner).Some?
      ensures State() == old(State()).(
                events := if ok then Outbox.Retry(old(events), old(clock), id, owner).value else old(events))
    {
      if !Outbox.Owned(events, id, owner) || events[id].attempts >= MAX_ATTEMPTS {
        return false;
      }
      var e := events[id];
      var delay := Outbox.RetryDelay(e.attempts);
      e := e.(status := EventPending, availableAt := clock + delay, dispatchedAt := None);
      e := e.(lockedBy := None, lockedUntil := None);
      events := events[id := e];
      return true;
    }

    method MarkDispatched(id: nat)
      modifies this
      ensures State() == old(State()).(events := Outbox.MarkDispatched(old(events), old(clock), id))
    {
      if id < |events| && Outbox.Active(events[id]) {
        events := events[id := events[id].(dispatchedAt := Some(clock))];
      }
    }

    /** The sessions whose claims are failed here. */
    method FailExhaustedExpiredClaims(skipped: set<nat>) returns (ids: set<nat>)
      modifies this
      ensures ids == Outbox.ExhaustedSessions(old(events), old(clock), skipped)
      ensures State() == old(State()).(events := Outbox.FailExhausted(old(events), old(clock), skipped))
    {
      ghost var was := events;
      var i := 0;
      ids := {};
      while i < |events|
        invariant 0 <= i <= |events| == |was|
        invariant forall k | 0 <= k < i ::
                    events[k] == if Outbox.Exhausted(was[k], clock) && k !in skipped then Outbox.FailClaim(was[k]) else was[k]
        invariant forall k | i <= k < |events| :: events[k] == was[k]
        invariant ids == set j: nat | j < i && Outbox.Exhausted(was[j], clock) && j !in skipped :: was[j].sessionId
        invariant State() == old(State()).(events := events)
      {
        if Outbox.Exhausted(events[i], clock) && i !in skipped {
          ids := ids + {events[i].sessionId};
          var e := events[i].(status := EventFailed);
          e := e.(lockedBy := None, lockedUntil := None);
          events := events[i := e];
        }
        i := i + 1;
      }
      assert events == Outbox.FailExhausted(was, clock, skipped);
    }

    // ---------------------------------------------------- blog version repository

    /** update_version_state of the active version, where there is one. */
    method SetVersionStatus(session: nat, status: Status)
      modifies this
      ensures State() == W.SetVersionStatus(old(State()), session, status)
    {
      var active := W.ActiveVersion(State(), session);
      if active.Some? {
        versions := versions[active.value := versions[active.value].(status := status)];
      }
    }

    method SetVersionJob(session: nat, status: Status, phase: Phase)
      modifies this
      ensures State() == W.SetVersionJob(old(State()), session, status, phase)
    {
      var active := W.ActiveVersion(State(), session);
      if active.Some? {
        versions := versions[active.value := versions[active.value].(status := status, jobPhase := phase)];
      }
    }

    method WriteVersion(v: nat, version: Version)
      requires v < |versions|
      modifies this
      ensures State() == W.WriteVersion(old(State()), v, version)
    {
      versions := versions[v := version];
    }

    method CreateRevisionFromActive(session: nat, active: nat)
      requires session < |sessions| && active < |versions|
      modifies this
      ensures State() == W.InsertRevision(old(State()), session, active)
    {
      var number := W.NextVersionNumber(versions, session);
      var source := versions[active];
      var revision := Version(session, number, Queued, Revision, source.outlineData, source.approvedOutline,
                              source.draft, source.finalContent);
      versions := versions + [revision];
      sessions := sessions[session := sessions[session].(activeVersion := Some(|versions| - 1))];
    }

    // ---------------------------------------------------- blog session repository

    method SetSession(session: nat, row: Session)
      requires session < |sessions|
      modifies this
      ensures State() == W.SetSession(old(State()), session, row)
    {
      sessions := sessions[session := row];
    }

    /** update_status, mark_failed and the status of mark_agent_rejected: false when the
        validator raises. */
    method UpdateStatus(session: nat, status: Status) returns (ok: bool)
      requires session < |sessions|
      modifies this
      ensures W.UpdateStatus(old(State()), session, status)
           == if ok then Committed(State()) else RolledBack(InvalidTransition)
      ensures !ok ==> State() == old(State())
    {
      ok := Lifecycle.ValidateTransition(sessions[session].status, status);
      if ok {
        sessions := sessions[session := sessions[session].(status := status)];
      }
    }

    /** create, and create_initial_version. */
    method CreateSession(user: nat) returns (session: nat)
      modifies this
      ensures session == |old(sessions)| && session < |sessions|
      ensures State() == W.InsertSession(old(State()), user)
    {
      session := |sessions|;
      var row := Session(user, Queued, None, None, 0, 0, 0, 0);
      versions := versions + [Version(session, 1, row.status, FreshGeneration, "", "", "", "")];
      row := row.(activeVersion := Some(|versions| - 1), jobPhase := Some(FreshGeneration));
      sessions := sessions + [row];
    }

    /** recover_stale_processing_session: false when it raises. */
    method RecoverStaleProcessing(session: nat) returns (ok: bool)
      requires session < |sessions|
      modifies this
      ensures var row := old(sessions)[session];
              && (ok <==> row.status in Lifecycle.TERMINAL_STATES || row.status == Processing)
              && State() == if row.status == Processing
                            then W.SetSession(old(State()), session, row.(status := Queued)) else old(State())
    {
      if sessions[session].status in Lifecycle.TERMINAL_STATES {
        return true;
      }
      if sessions[session].status != Processing {
        return false;
      }
      sessions := sessions[session := sessions[session].(status := Queued)];
      return true;
    }

    // ---------------------------------------------------- session lease repository

    method ReleaseLease(session: nat, owner: Token, version: nat)
      modifies this
      ensures State() == old(State()).(leases := Leases.ReleaseLease(old(leases), old(clock), session, owner, version))
    {
      var active := Leases.ActiveLease(leases, session);
      if active.Some? && leases[active.value].owner == owner && leases[active.value].version == version {
        leases := leases[active.value := leases[active.value].(endedAt := Some(clock))];
      }
    }

    method HeartbeatLease(session: nat, owner: Token, version: nat) returns (ok: bool)
      modifies this
      ensures ok <==> Leases.HeartbeatLease(old(leases), old(clock), session, owner, version).Some?
      ensures State() == old(State()).(
                leases := if ok then Leases.HeartbeatLease(old(leases), old(clock), session, owner, version).value
                          else old(leases))
    {
      var active := Leases.ActiveLease(leases, session);
      if active.None? || leases[active.value].owner != owner || leases[active.value].version != version {
        return false;
      }
      leases := leases[active.value := leases[active.value].(expiresAt := clock + HEARTBEAT_LEASE_SECONDS)];
      return true;
    }

    method MarkProcessing(session: nat, phase: Phase)
      requires session < |sessions|
      modifies this
      ensures State() == W.MarkProcessing(old(State()), session, phase)
    {
      SetSession(session, sessions[session].(status := Processing, jobPhase := Some(phase)));
      SetVersionJob(session, Processing, phase);
    }

    /** Ends an expired lease and puts its session back to QUEUED. */
    method EndExpired(session: nat, lease: nat)
      requires session < |sessions| && lease < |leases|
      modifies this
      ensures State() == old(State()).(
                leases := Leases.End(old(leases), old(clock), lease),
                sessions := old(sessions)[session := old(sessions)[session].(status := Queued)])
    {
      leases := leases[lease := leases[lease].(endedAt := Some(clock))];
      sessions := sessions[session := sessions[session].(status := Queued)];
    }

    /** A live lease of the same owner is extended. */
    method ExtendLease(session: nat, phase: Phase, lease: nat)
      requires session < |sessions| && lease < |leases|
      modifies this
      ensures State() == W.MarkProcessing(
                old(State()).(leases := old(leases)[lease := old(leases)[lease].(expiresAt := old(clock) + LEASE_SECONDS)]),
                session, phase)
    {
      leases := leases[lease := leases[lease].(expiresAt := clock + LEASE_SECONDS)];
      MarkProcessing(session, phase);
    }

    method StartLease(session: nat, phase: Phase, owner: Token, version: nat)
      requires session < |sessions|
      modifies this
      ensures State() == W.MarkProcessing(
                old(State()).(leases := Leases.Insert(old(leases), old(clock), session, owner, version)), session, phase)
    {
      leases := leases + [Lease(session, owner, version, clock + LEASE_SECONDS, clock, None)];
      MarkProcessing(session, phase);
    }

    method AcquireLease(session: nat, phase: Phase, owner: Token) returns (r: LeaseResult)
      modifies this
      ensures var spec := W.AcquireLease(old(State()), session, phase, owner);
              && (r.NotAcquired? <==> spec.NotAcquired?)
              && (r.Raised? <==> spec.AcquireRaised?)
              && (r.Acquired? ==> spec == W.Acquired(State(), r.leaseVersion))
    {
      if session >= |sessions| {
        return NotAcquired;
      }
      var current := Leases.ActiveLease(leases, session);
      var live := current.Some? && leases[current.value].expiresAt > clock;
      if live && leases[current.value].owner != owner {
        return NotAcquired;
      }
      var version := if current.Some? then leases[current.value].version + 1 else 1;
      if current.Some? && !live {
        EndExpired(session, current.value);
      }
      var active := W.ActiveVersion(State(), session);
      if active.None? || !W.PhaseStateOk(sessions[session].status, phase, versions[active.value]) {
        return Raised;
      }
      if live {
        version := leases[current.value].version;
        ExtendLease(session, phase, current.value);
      } else {
        StartLease(session, phase, owner, version);
      }
      return Acquired(version);
    }

    // ---------------------------------------------------- accounts and reservations

    /** get_or_create */
    method GetOrCreateAccount(user: nat) returns (a: Account)
      modifies this
      ensures a == Budget.GetAccount(old(accounts), user)
      ensures State() == old(State()).(accounts := old(accounts)[user := a])
    {
      if user !in accounts {
        accounts := accounts[user := Account(0, 0, 0, 0)];
      }
      a := accounts[user];
    }

    method ApplyGrant(user: nat, amount: int)
      modifies this
      ensures State() == old(State()).(accounts := Budget.ApplyGrant(old(accounts), user, amount))
    {
      var a := GetOrCreateAccount(user);
      a := a.(balance := a.balance + amount);
      a := a.(granted := a.granted + amount);
      accounts := accounts[user := a];
    }

    /** The grant of register, with its ledger entry. */
    method GrantInitial(user: nat, amount: nat, tokens: nat)
      modifies this
      ensures State() == Budget.GrantInitial(old(State()), user, amount, tokens)
    {
      ApplyGrant(user, amount);
      ledger := ledger + [Entry(user, None, None, Grant, tokens, amount)];
    }

    /** False when InsufficientBudgetError is raised. */
    method ApplyReserve(user: nat, amount: int) returns (ok: bool)
      modifies this
      ensures ok <==> Budget.ApplyReserve(old(accounts), user, amount).Some?
      ensures ok ==> State() == old(State()).(accounts := Budget.ApplyReserve(old(accounts), user, amount).value)
    {
      var a := GetOrCreateAccount(user);
      var available := a.balance - a.reserved;
      if available < amount {
        return false;
      }
      accounts := accounts[user := a.(reserved := a.reserved + amount)];
      return true;
    }

    method ApplyCommit(user: nat, reserved: int, actual: int)
      modifies this
      ensures State() == old(State()).(accounts := Budget.ApplyCommit(old(accounts), user, reserved, actual))
    {
      var a := GetOrCreateAccount(user);
      a := a.(reserved := Budget.Max0(a.reserved - reserved));
      a := a.(balance := a.balance - actual);
      a := a.(spent := a.spent + actual);
      accounts := accounts[user := a];
    }

    method ApplyRelease(user: nat, reserved: int)
      modifies this
      ensures State() == old(State()).(accounts := Budget.ApplyRelease(old(accounts), user, reserved))
    {
      var a := GetOrCreateAccount(user);
      a := a.(reserved := Budget.Max0(a.reserved - reserved));
      accounts := accounts[user := a];
    }

    /** mark_committed and mark_released */
    method CloseReservation(session: nat)
      requires Budget.OpenReservation(reservations, session)
      modifies this
      ensures State() == old(State()).(
                reservations := Budget.CloseReservation(old(reservations), old(clock), session))
    {
      reservations := reservations[session := reservations[session].(releasedAt := Some(clock))];
    }

    method WriteEntry(user: nat, session: nat, run: Option<nat>, kind: EntryType, tokens: int, usd: int)
      modifies this
      ensures State() == old(State()).(ledger := old(ledger) + [Entry(user, Some(session), run, kind, tokens, usd)])
    {
      ledger := ledger + [Entry(user, Some(session), run, kind, tokens, usd)];
    }

    // ---------------------------------------------------------------- budget service

    method CheckAndReserve(user: nat, session: nat) returns (ok: bool)
      requires session < |sessions|
      modifies this
      ensures ok <==> Budget.CheckAndReserve(old(State()), user, session).Some?
      ensures ok ==> Budget.CheckAndReserve(old(State()), user, session) == Some(State())
    {
      ok := ApplyReserve(user, ESTIMATED_USD);
      if !ok {
        return;
      }
      WriteEntry(user, session, None, Reserve, -ESTIMATED_TOKENS, -ESTIMATED_USD);
      reservations := reservations[session := Reservation(ESTIMATED_USD, ESTIMATED_TOKENS, None)];
      var row := sessions[session];
      SetSession(session, row.(reservedTokens := ESTIMATED_TOKENS, reservedUsd := ESTIMATED_USD));
    }

    /** The loop of commit_stage over the ledger of the session. */
    method CommitRecorded(session: nat, run: nat) returns (found: bool)
      ensures found <==> Budget.CommitRecorded(ledger, session, run)
    {
      var i := 0;
      while i < |ledger|
        invariant 0 <= i <= |ledger|
        invariant forall k | 0 <= k < i :: !(Budget.IsCommitOf(ledger[k], session) && ledger[k].runId == Some(run))
      {
        if Budget.IsCommitOf(ledger[i], session) && ledger[i].runId == Some(run) {
          return true;
        }
        i := i + 1;
      }
      return false;
    }

    method CommitStage(user: nat, session: nat, run: nat, tokens: nat, usd: nat)
      requires session < |sessions|
      modifies this
      ensures State() == Budget.CommitStage(old(State()), user, session, run, tokens, usd)
    {
      var recorded := CommitRecorded(session, run);
      if recorded {
        return;
      }
      WriteEntry(user, session, Some(run), Commit, -(tokens as int), -(usd as int));
      var row := sessions[session];
      row := row.(spentTokens := row.spentTokens + tokens);
      row := row.(spentUsd := row.spentUsd + usd);
      SetSession(session, row);
    }

    method ReleaseExcess(user: nat, session: nat)
      modifies this
      ensures State() == Budget.ReleaseExcess(old(State()), user, session)
    {
      if !Budget.OpenReservation(reservations, session) {
        return;
      }
      var r := reservations[session];
      var actualUsd := Budget.Abs(Budget.CommittedUsd(ledger, session));
      var actualTokens := Budget.Abs(Budget.CommittedTokens(ledger, session));
      ApplyCommit(user, r.usd, actualUsd);
      CloseReservation(session);
      settlements := settlements[session := Settlement(actualUsd, |ledger|)];
      WriteEntry(user, session, None, Release, Budget.Max0(r.tokens - actualTokens), Budget.Max0(r.usd - actualUsd));
    }

    method ReleaseAll(user: nat, session: nat)
      modifies this
      ensures State() == Budget.ReleaseAll(old(State()), user, session)
    {
      if !Budget.OpenReservation(reservations, session) || reservations[session].usd == 0 {
        return;
      }
      var r := reservations[session];
      ApplyRelease(user, r.usd);
      CloseReservation(session);
      WriteEntry(user, session, None, Release, r.tokens, r.usd);
    }

    // -------------------------------------------------------------- agent runs, usage

    /** create or update: the run of this stage, completed. */
    method CompleteRun(session: nat, stage: StageName, usage: StageUsage) returns (id: nat)
      modifies this
      ensures id == Charging.CompleteRun(old(runs), session, stage, usage).1
      ensures State() == old(State()).(runs := Charging.CompleteRun(old(runs), session, stage, usage).0)
    {
      var existing := Charging.FindRun(runs, session, stage);
      if existing.Some? {
        id := existing.value;
        runs := runs[id := runs[id].(tokens := usage.tokens, usd := usage.usd, status := RunCompleted)];
      } else {
        id := |runs|;
        runs := runs + [AgentRun(session, stage, RunCompleted, usage.tokens, usage.usd)];
      }
    }

    /** _commit_usage */
    method CommitUsage(user: nat, session: nat, version: nat, usage: seq<StageUsage>)
      requires session < |sessions|
      modifies this
      ensures State() == Charging.CommitUsage(old(State()), user, session, version, usage)
    {
      var i := 0;
      while i < |usage|
        invariant 0 <= i <= |usage| && session < |sessions|
        invariant State() == Charging.CommitUsage(old(State()), user, session, version, usage[..i])
      {
        assert usage[..i + 1][..i] == usage[..i];
        CommitItem(user, session, version, usage[i]);
        i := i + 1;
      }
      assert usage[..i] == usage;
    }

    method CommitItem(user: nat, session: nat, version: nat, item: StageUsage)
      requires session < |sessions|
      modifies this
      ensures State() == Charging.CommitItem(old(State()), user, session, version, item)
    {
      var stage := StageName(version, item.stage);
      if Charging.Ignored(item) || Charging.AlreadyCompleted(runs, session, stage) {
        return;
      }
      var run := CompleteRun(session, stage, item);
      if item.tokens > 0 {
        CommitStage(user, session, run, item.tokens, item.usd);
      }
    }

    // ------------------------------------------------------------------- blog service

    /** consume_daily_slot */
    method ConsumeDailySlot(user: nat, limit: nat, date: nat) returns (ok: bool)
      modifies this
      ensures ok <==> Quotas.ConsumeDailySlot(old(quotas), user, limit, date).Some?
      ensures State() == old(State()).(
                quotas := if ok then Quotas.ConsumeDailySlot(old(quotas), user, limit, date).value else old(quotas))
    {
      if user !in quotas {
        quotas := quotas[user := Quota(1, limit, date)];
        return true;
      }
      if quotas[user].date == date && quotas[user].used >= limit {
        return false;
      }
      var used := if quotas[user].date == date then quotas[user].used + 1 else 1;
      quotas := quotas[user := Quota(used, limit, date)];
      return true;
    }

    /** create_generation, up to what it raises. */
    method CreateGeneration(user: nat, lockFree: bool) returns (raised: Option<Refusal>)
      modifies this
      ensures W.CreateGeneration(old(State()), user, lockFree)
           == if raised.None? then Committed(State()) else RolledBack(raised.value)
    {
      if W.HasActiveSession(sessions, user) {
        return Some(ActiveGenerationExists);
      }
      var slot := ConsumeDailySlot(user, DAILY_LIMIT, clock / SECONDS_PER_DAY);
      if !slot {
        return Some(DailyLimitReached);
      }
      var session := CreateSession(user);
      if !lockFree {
        return Some(BudgetLocked);
      }
      var reserved := CheckAndReserve(user, session);
      if !reserved {
        return Some(InsufficientBudget);
      }
      var enqueued := Enqueue(session, user, FreshGeneration);
      return if enqueued then None else Some(DuplicateActiveEvent);
    }

    /** The route commits what create_generation did, or rolls it back. */
    method Create(user: nat, lockFree: bool) returns (raised: Option<Refusal>)
      modifies this
      ensures State() == W.CreateGeneration(old(State()), user, lockFree).After(old(State()))
    {
      var saved := State();
      raised := CreateGeneration(user, lockFree);
      if raised.Some? {
        Rollback(saved);
      }
    }

    method SubmitOutlineReview(user: nat, session: nat, outline: string) returns (raised: Option<Refusal>)
      modifies this
      ensures W.SubmitOutlineReview(old(State()), user, session, outline)
           == if raised.None? then Committed(State()) else RolledBack(raised.value)
    {
      if session >= |sessions| {
        return Some(SessionNotFound);
      }
      if sessions[session].userId != user {
        return Some(AccessDenied);
      }
      if sessions[session].status != AwaitingOutlineReview {
        return Some(WrongStatus);
      }
      if outline == "" {
        return Some(InvalidOutline);
      }
      var active := W.ActiveVersion(State(), session);
      if active.None? {
        return Some(NoActiveVersion);
      }
      var version := versions[active.value];
      version := version.(status := Queued, jobPhase := ResearchPhase);
      version := version.(outlineData := outline, approvedOutline := outline);
      WriteVersion(active.value, version);
      SetSession(session, sessions[session].(status := Queued, jobPhase := Some(ResearchPhase)));
      var enqueued := Enqueue(session, user, ResearchPhase);
      return if enqueued then None else Some(DuplicateActiveEvent);
    }

    method ReviewOutline(user: nat, session: nat, outline: string) returns (raised: Option<Refusal>)
      modifies this
      ensures State() == W.SubmitOutlineReview(old(State()), user, session, outline).After(old(State()))
    {
      var saved := State();
      raised := SubmitOutlineReview(user, session, outline);
      if raised.Some? {
        Rollback(saved);
      }
    }

    method SubmitFinalReview(user: nat, session: nat, action: ReviewAction) returns (raised: Option<Refusal>)
      modifies this
      ensures W.SubmitFinalReview(old(State()), user, session, action)
           == if raised.None? then Committed(State()) else RolledBack(raised.value)
    {
      if session >= |sessions| {
        return Some(SessionNotFound);
      }
      var row := sessions[session];
      if row.userId != user {
        return Some(AccessDenied);
      }
      if row.status != AwaitingFinalReview {
        return Some(WrongStatus);
      }
      match action {
        case Approve =>
          SetSession(session, row.(status := Completed));
          SetVersionStatus(session, Completed);
          return None;
        case RequestRevision =>
          raised := RequestRevision(user, session);
        case Reject =>
          SetSession(session, row.(status := Rejected, jobPhase := None));
          SetVersionStatus(session, Rejected);
          return None;
      }
    }

    /** The revision branch of submit_final_review. */
    method RequestRevision(user: nat, session: nat) returns (raised: Option<Refusal>)
      requires session < |sessions| && sessions[session].userId == user
      requires sessions[session].status == AwaitingFinalReview
      modifies this
      ensures W.SubmitFinalReview(old(State()), user, session, ReviewAction.RequestRevision)
           == if raised.None? then Committed(State()) else RolledBack(raised.value)
    {
      var active := W.ActiveVersion(State(), session);
      if active.None? {
        return Some(NoActiveVersion);
      }
      SetSession(session, sessions[session].(status := Queued, jobPhase := Some(Revision)));
      CreateRevisionFromActive(session, active.value);
      var enqueued := Enqueue(session, user, Revision);
      return if enqueued then None else Some(DuplicateActiveEvent);
    }

    method ReviewFinal(user: nat, session: nat, action: ReviewAction) returns (raised: Option<Refusal>)
      modifies this
      ensures State() == W.SubmitFinalReview(old(State()), user, session, action).After(old(State()))
    {
      var saved := State();
      raised := SubmitFinalReview(user, session, action);
      if raised.Some? {
        Rollback(saved);
      }
    }

    // -------------------------------------------------------- workflow result persister

    /** _lock_attempt returns. */
    method LockAttempt(owner: Token) returns (owned: bool)
      requires W.IsRunning(State(), owner)
      ensures owned <==> W.OwnsAttempt(State(), owner)
    {
      var job := attempts[owner];
      if !Outbox.CurrentClaim(events, job.eventId, owner, clock) {
        return false;
      }
      if job.sessionId >= |sessions| || sessions[job.sessionId].status != Processing {
        return false;
      }
      return Leases.CurrentLease(leases, job.sessionId, owner, job.stage.leaseVersion, clock);
    }

    method PersistOutlineCheckpoint(job: Attempt, v: nat, result: RunResult) returns (raised: Option<Refusal>)
      requires job.sessionId < |sessions| && v < |versions|
      modifies this
      ensures W.OutlineCheckpoint(old(State()), job, v, result)
           == if raised.None? then Committed(State()) else RolledBack(raised.value)
    {
      var row := versions[v];
      CommitUsage(job.userId, job.sessionId, row.number, result.usage);
      Charging.UsageOnlyCharges(old(State()), job.userId, job.sessionId, row.number, result.usage);
      row := row.(status := AwaitingOutlineReview, jobPhase := ResearchPhase);
      row := row.(outlineData := result.outline, draft := result.draft, finalContent := result.finalContent);
      WriteVersion(v, row);
      var ok := UpdateStatus(job.sessionId, AwaitingOutlineReview);
      return if ok then None else Some(InvalidTransition);
    }

    method PersistAgentRejection(job: Attempt, v: nat, result: RunResult) returns (raised: Option<Refusal>)
      requires job.sessionId < |sessions| && v < |versions|
      modifies this
      ensures W.AgentRejection(old(State()), job, v, result)
           == if raised.None? then Committed(State()) else RolledBack(raised.value)
    {
      var row := versions[v];
      CommitUsage(job.userId, job.sessionId, row.number, result.usage);
      Charging.UsageOnlyCharges(old(State()), job.userId, job.sessionId, row.number, result.usage);
      WriteVersion(v, row.(status := AgentRejected, jobPhase := job.phase));
      var ok := UpdateStatus(job.sessionId, AgentRejected);
      if !ok {
        return Some(InvalidTransition);
      }
      SetSession(job.sessionId, sessions[job.sessionId].(jobPhase := None));
      ReleaseExcess(job.userId, job.sessionId);
      return None;
    }

    method PersistFinalReviewCheckpoint(job: Attempt, v: nat, result: RunResult) returns (raised: Option<Refusal>)
      requires job.sessionId < |sessions| && v < |versions|
      modifies this
      ensures W.FinalCheckpoint(old(State()), job, v, result)
           == if raised.None? then Committed(State()) else RolledBack(raised.value)
    {
      var row := versions[v];
      CommitUsage(job.userId, job.sessionId, row.number, result.usage);
      Charging.UsageOnlyCharges(old(State()), job.userId, job.sessionId, row.number, result.usage);
      var snapshot := W.Or(result.outline, job.approvedOutline);
      row := row.(status := AwaitingFinalReview, jobPhase := job.phase);
      row := row.(outlineData := W.Or(result.outline, row.outlineData),
                  approvedOutline := W.Or(snapshot, row.approvedOutline));
      row := row.(draft := result.draft, finalContent := result.finalContent);
      WriteVersion(v, row);
      ReleaseExcess(job.userId, job.sessionId);
      var ok := UpdateStatus(job.sessionId, AwaitingFinalReview);
      return if ok then None else Some(InvalidTransition);
    }

    /** The branches of persist_success between the ownership checks and the end of the claim. */
    method PersistCheckpoint(job: Attempt, v: nat, result: RunResult) returns (raised: Option<Refusal>)
      requires job.sessionId < |sessions| && v < |versions|
      modifies this
      ensures Missing(job, result).Some? ==> raised == Missing(job, result)
      ensures Missing(job, result).None? ==>
                T.Checkpoint(old(State()), job, v, result)
                == if raised.None? then Committed(State()) else RolledBack(raised.value)
    {
      if job.phase == FreshGeneration {
        if !result.intentClear {
          raised := PersistAgentRejection(job, v, result);
          return;
        }
        if result.outline == "" {
          return Some(MissingOutline);
        }
        raised := PersistOutlineCheckpoint(job, v, result);
      } else {
        if result.finalContent == "" {
          return Some(MissingFinalContent);
        }
        raised := PersistFinalReviewCheckpoint(job, v, result);
      }
    }

    method PersistSuccess(owner: Token, result: RunResult) returns (raised: Option<Refusal>)
      requires W.IsRunning(State(), owner)
      modifies this
      ensures W.PersistSuccess(old(State()), owner, result)
           == if raised.None? then Committed(State()) else RolledBack(raised.value)
    {
      var owned := LockAttempt(owner);
      if !owned {
        return Some(OwnershipLost);
      }
      var job := attempts[owner];
      var active := W.ActiveVersion(State(), job.sessionId);
      if active.None? {
        return Some(NoActiveVersion);
      }
      raised := PersistCheckpoint(job, active.value, result);
      ThroughCheckpoint(old(State()), owner, result);
      if raised.Some? {
        return;
      }
      var completed := FinishEvent(job.eventId, owner, EventProcessed);
      return if completed then None else Some(ClaimDisappeared);
    }

    /** The success transaction: commit, or roll back what raised. */
    method SaveSuccess(owner: Token, result: RunResult) returns (raised: Option<Refusal>)
      requires W.IsRunning(State(), owner)
      modifies this
      ensures State() == W.PersistSuccess(old(State()), owner, result).After(old(State()))
    {
      var saved := State();
      raised := PersistSuccess(owner, result);
      if raised.Some? {
        Rollback(saved);
      }
    }

    method PersistFailure(owner: Token) returns (raised: Option<Refusal>)
      requires W.IsRunning(State(), owner)
      modifies this
      ensures W.PersistFailure(old(State()), owner)
           == if raised.None? then Committed(State()) else RolledBack(raised.value)
    {
      var owned := LockAttempt(owner);
      if !owned {
        return Some(OwnershipLost);
      }
      var job := attempts[owner];
      SetVersionJob(job.sessionId, Failed, job.phase);
      var ok := UpdateStatus(job.sessionId, Failed);
      if !ok {
        return Some(InvalidTransition);
      }
      ReleaseAll(job.userId, job.sessionId);
      var failed := FinishEvent(job.eventId, owner, EventFailed);
      return if failed then None else Some(ClaimDisappeared);
    }

    method SaveFailure(owner: Token) returns (raised: Option<Refusal>)
      requires W.IsRunning(State(), owner)
      modifies this
      ensures State() == W.PersistFailure(old(State()), owner).After(old(State()))
    {
      var saved := State();
      raised := PersistFailure(owner);
      if raised.Some? {
        Rollback(saved);
      }
    }

    // ---------------------------------------------------------- job attempt processor

    /** _claim_event, and the attempt it starts. */
    method Claim(event: nat, owner: Token)
      modifies this
      ensures State() == W.Claim(old(State()), event, owner)
    {
      if owner in attempts {
        return;
      }
      var claimed := ClaimEvent(event, owner);
      if claimed {
        var e := events[event];
        attempts := attempts[owner := Attempt(event, e.sessionId, e.userId, e.phase, "", Claimed)];
      }
    }

    method SetStage(owner: Token, stage: Stage)
      requires owner in attempts
      modifies this
      ensures State() == W.SetStage(old(State()), owner, stage)
    {
      attempts := attempts[owner := attempts[owner].(stage := stage)];
    }

    /** _acquire_lease: the acquisition transaction of a claimed attempt. */
    method Acquire(owner: Token)
      requires owner in attempts && attempts[owner].stage == Claimed
      modifies this
      ensures State() == W.Acquire(old(State()), owner)
    {
      var saved := State();
      var job := attempts[owner];
      if !W.WantsJob(saved, job.sessionId, job.phase) {
        SetStage(owner, Obsolete);
        return;
      }
      var row := sessions[job.sessionId];
      var outline := if row.activeVersion.Some? && row.activeVersion.value < |versions|
                     then W.Or(versions[row.activeVersion.value].approvedOutline,
                               versions[row.activeVersion.value].outlineData)
                     else "";
      var acquired := AcquireLease(job.sessionId, job.phase, owner);
      match acquired {
        case NotAcquired =>
          Rollback(saved);
          SetStage(owner, Blocked);
        case Raised =>
          Rollback(saved);
          SetStage(owner, Abandoned);
        case Acquired(version) =>
          attempts := saved.attempts[owner := job.(stage := Running(version), approvedOutline := outline,
                                                   userId := row.userId)];
      }
    }

    /** The acknowledged end of an attempt that found nothing to do. */
    method CompleteStale(owner: Token)
      requires owner in attempts && attempts[owner].stage == Obsolete
      modifies this
      ensures State() == W.CompleteObsolete(old(State()), owner)
    {
      var completed := FinishEvent(attempts[owner].eventId, owner, EventProcessed);
    }

    method RetryLocked(owner: Token)
      requires owner in attempts && attempts[owner].stage == Blocked
      modifies this
      ensures State() == W.RetryBlocked(old(State()), owner)
    {
      var retried := RetryEvent(attempts[owner].eventId, owner);
    }

    /** One turn of _job_heartbeat: both leases or neither. */
    method Beat(owner: Token)
      requires W.IsRunning(State(), owner)
      modifies this
      ensures State() == W.Beat(old(State()), owner)
    {
      var saved := State();
      var job := attempts[owner];
      var leaseOk := HeartbeatLease(job.sessionId, owner, job.stage.leaseVersion);
      var outboxOk := false;
      if leaseOk {
        outboxOk := HeartbeatEvent(job.eventId, owner);
      }
      if !leaseOk || !outboxOk {
        Rollback(saved);
      }
    }

    /** _release_lease, the clean-up of every attempt. */
    method ReleaseSession(owner: Token)
      requires W.IsRunning(State(), owner)
      modifies this
      ensures State() == W.Release(old(State()), owner)
    {
      var job := attempts[owner];
      ReleaseLease(job.sessionId, owner, job.stage.leaseVersion);
    }

    /** _schedule_retry, up to what it raises. */
    method ScheduleRetry(owner: Token) returns (raised: Option<Refusal>)
      requires W.IsRunning(State(), owner)
      modifies this
      ensures W.ScheduleRetry(old(State()), owner)
           == if raised.None? then Committed(State()) else RolledBack(raised.value)
    {
      var job := attempts[owner];
      if !Outbox.CurrentClaim(events, job.eventId, owner, clock) {
        return Some(OwnershipLost);
      }
      var retried := RetryEvent(job.eventId, owner);
      if !retried {
        return None;
      }
      if job.sessionId >= |sessions| {
        return Some(SessionNotFound);
      }
      var recovered := RecoverStaleProcessing(job.sessionId);
      if !recovered {
        return Some(InvalidTransition);
      }
      SetVersionJob(job.sessionId, Queued, job.phase);
      ReleaseSession(owner);
      return None;
    }

    method RetryLater(owner: Token) returns (raised: Option<Refusal>)
      requires W.IsRunning(State(), owner)
      modifies this
      ensures State() == W.ScheduleRetry(old(State()), owner).After(old(State()))
    {
      var saved := State();
      raised := ScheduleRetry(owner);
      if raised.Some? {
        Rollback(saved);
      }
    }

    /** _handle_unclaimed_delivery: what it does to the queue, in order. */
    method HandleUnclaimedDelivery(id: nat) returns (ops: seq<Outbox.QueueOp>)
      ensures ops == Outbox.UnclaimedDelivery(events, clock, id)
    {
      if id >= |events| {
        return [Outbox.Acknowledge(id)];
      }
      var e := events[id];
      if e.status == EventProcessed || e.status == EventFailed {
        return [Outbox.Acknowledge(id)];
      }
      if e.status == EventProcessing && e.lockedUntil.Some? && e.lockedUntil.value > clock {
        return [Outbox.Acknowledge(id)];
      }
      if e.availableAt > clock {
        return [Outbox.Acknowledge(id)];
      }
      ops := [Outbox.Push(id)];
      ops := ops + [Outbox.Acknowledge(id)];
    }

    // -------------------------------------------------------------------------- reaper

    /** The database half of one relay turn. */
    method FailExhaustedClaims(skipped: set<nat>)
      modifies this
      ensures State() == W.FailExhaustedClaims(old(State()), skipped)
    {
      ghost var was := sessions;
      var exhausted := FailExhaustedExpiredClaims(skipped);
      var rest := exhausted;
      while rest != {}
        invariant rest <= exhausted && |sessions| == |was|
        invariant forall s | 0 <= s < |was| ::
                    sessions[s] == if s in exhausted - rest && was[s].status !in Lifecycle.TERMINAL_STATES
                                   then was[s].(status := Failed) else was[s]
        invariant State() == old(State()).(events := Outbox.FailExhausted(old(events), old(clock), skipped),
                                           sessions := sessions)
        decreases rest
      {
        var s :| s in rest;
        rest := rest - {s};
        if s < |sessions| && sessions[s].status !in Lifecycle.TERMINAL_STATES {
          Lifecycle.TerminalMeansNoWayOut(sessions[s].status);
          var failed := UpdateStatus(s, Failed);
        }
      }
      assert exhausted - rest == exhausted;
      assert sessions == W.FailExhaustedClaims(old(State()), skipped).sessions;
    }

    /** _dispatch_outbox_events, with room for this many more jobs in the queue: the ids
        published, oldest event first. */
    method DispatchOutboxEvents(skipped: set<nat>, room: nat) returns (published: seq<nat>)
      modifies this
      ensures var failed := W.FailExhaustedClaims(old(State()), skipped);
              var batch := Outbox.Dispatchable(failed.events, failed.clock, DISPATCH_LIMIT, 0);
              && published == batch[..Outbox.Min(room, |batch|)]
              && State() == MarkAll(failed, published)
    {
      FailExhaustedClaims(skipped);
      ghost var failed := State();
      var pending := Outbox.Dispatchable(events, clock, DISPATCH_LIMIT, 0);
      published := [];
      var left := room;
      var i := 0;
      while i < |pending| && left > 0
        invariant 0 <= i <= |pending| && left == room - i
        invariant published == pending[..i]
        invariant State() == MarkAll(failed, published)
      {
        published := published + [pending[i]];
        assert published[..i] == pending[..i];
        left := left - 1;
        MarkDispatched(pending[i]);
        i := i + 1;
      }
    }
  }

  /** What a finished workflow run lacks. */
  function Missing(job: Attempt, result: RunResult): Option<Refusal> {
    if job.phase == FreshGeneration then
      if result.intentClear && result.outline == "" then Some(MissingOutline) else None
    else if result.finalContent == "" then Some(MissingFinalContent)
    else None
  }

  /** persist_success in one piece. */
  lemma ThroughCheckpoint(db: Db, owner: Token, result: RunResult)
    requires W.IsRunning(db, owner) && W.OwnsAttempt(db, owner)
    requires W.ActiveVersion(db, db.attempts[owner].sessionId).Some?
    ensures var job := db.attempts[owner];
            var v := W.ActiveVersion(db, job.sessionId).value;
            W.PersistSuccess(db, owner, result)
            == if Missing(job, result).Some? then RolledBack(Missing(job, result).value)
               else W.FinishClaim(T.Checkpoint(db, job, v, result), job.eventId, owner, EventProcessed)
  {
  }

  /** With one clock reading and no row skipped, nothing published has used up its attempts. */
  lemma PublishedIsRetryable(db: Db, room: nat, id: nat)
    requires Outbox.EventsOk(db.events, db.attempts)
    requires var failed := W.FailExhaustedClaims(db, {});
             var batch := Outbox.Dispatchable(failed.events, failed.clock, DISPATCH_LIMIT, 0);
             id in batch[..Outbox.Min(room, |batch|)]
    ensures id < |db.events| && db.events[id].attempts < MAX_ATTEMPTS
  {
    Outbox.RelayPublishesOnlyRetryable(db.events, db.attempts, db.clock, id);
  }
}
