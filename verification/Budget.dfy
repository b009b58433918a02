/** Accounts, reservations and the append-only ledger. */
module Budget {
  import opened Rows
  import opened Tables
  import opened Sums

  // ---------------------------------------------------- budget account repository

  /** get_or_create: an absent account is a zero one. */
  function GetAccount(accounts: map<nat, Account>, user: nat): Account {
    if user in accounts then accounts[user] else Account(0, 0, 0, 0)
  }

  function ApplyGrant(accounts: map<nat, Account>, user: nat, amount: int): map<nat, Account> {
    var a := GetAccount(accounts, user);
    accounts[user := a.(balance := a.balance + amount, granted := a.granted + amount)]
  }

  /** None when the available balance is short. */
  function ApplyReserve(accounts: map<nat, Account>, user: nat, amount: int): Option<map<nat, Account>> {
    var a := GetAccount(accounts, user);
    if a.balance - a.reserved < amount then None
    else Some(accounts[user := a.(reserved := a.reserved + amount)])
  }

  function Max0(x: int): int { if x < 0 then 0 else x }

  function ApplyCommit(accounts: map<nat, Account>, user: nat, reserved: int, actual: int): map<nat, Account> {
    var a := GetAccount(accounts, user);
    accounts[user := a.(reserved := Max0(a.reserved - reserved),
                        balance := a.balance - actual,
                        spent := a.spent + actual)]
  }

  function ApplyRelease(accounts: map<nat, Account>, user: nat, reserved: int): map<nat, Account> {
    var a := GetAccount(accounts, user);
    accounts[user := a.(reserved := Max0(a.reserved - reserved))]
  }

  // --------------------------------------------------- ledger and its SUM queries

  predicate IsCommitOf(e: Entry, session: nat) {
    e.kind == Commit && e.sessionId == Some(session)
  }

  function CommitUsdOf(ledger: seq<Entry>, session: nat): nat -> int {
    (i: nat) => if i < |ledger| && IsCommitOf(ledger[i], session) then ledger[i].usd else 0
  }

  function CommitTokensOf(ledger: seq<Entry>, session: nat): nat -> int {
    (i: nat) => if i < |ledger| && IsCommitOf(ledger[i], session) then ledger[i].tokens else 0
  }

  function CommittedUsd(ledger: seq<Entry>, session: nat): int {
    Sum(CommitUsdOf(ledger, session), |ledger|)
  }

  function CommittedTokens(ledger: seq<Entry>, session: nat): int {
    Sum(CommitTokensOf(ledger, session), |ledger|)
  }

  function Abs(x: int): int { if x < 0 then -x else x }

  predicate OpenReservation(reservations: map<nat, Reservation>, session: nat) {
    session in reservations && reservations[session].releasedAt.None?
  }

  function CloseReservation(reservations: map<nat, Reservation>, now: nat, session: nat): map<nat, Reservation>
    requires session in reservations
  {
    reservations[session := reservations[session].(releasedAt := Some(now))]
  }

  // ---------------------------------------------------------------- budget service

  /** The grant made at registration, and its ledger entry. */
  function GrantInitial(db: Db, user: nat, amount: nat, tokens: nat): Db {
    db.(accounts := ApplyGrant(db.accounts, user, amount),
        ledger := db.ledger + [Entry(user, None, None, Grant, tokens, amount)])
  }

  function CheckAndReserve(db: Db, user: nat, session: nat): Option<Db>
    requires session < |db.sessions|
  {
    var accounts := ApplyReserve(db.accounts, user, ESTIMATED_USD);
    if accounts.None? then None
    else
      Some(db.(accounts := accounts.value,
               ledger := db.ledger + [Entry(user, Some(session), None, Reserve, -ESTIMATED_TOKENS, -ESTIMATED_USD)],
               reservations := db.reservations[session := Reservation(ESTIMATED_USD, ESTIMATED_TOKENS, None)],
               sessions := db.sessions[session :=
                 db.sessions[session].(reservedTokens := ESTIMATED_TOKENS, reservedUsd := ESTIMATED_USD)]))
  }

  /** The ledger already holds the COMMIT of this run. */
  predicate CommitRecorded(ledger: seq<Entry>, session: nat, run: nat) {
    exists i | 0 <= i < |ledger| :: IsCommitOf(ledger[i], session) && ledger[i].runId == Some(run)
  }

  function CommitStage(db: Db, user: nat, session: nat, run: nat, tokens: nat, usd: nat): Db
    requires session < |db.sessions|
  {
    if CommitRecorded(db.ledger, session, run) then db
    else
      var s := db.sessions[session];
      db.(ledger := db.ledger + [Entry(user, Some(session), Some(run), Commit, -(tokens as int), -(usd as int))],
          sessions := db.sessions[session := s.(spentTokens := s.spentTokens + tokens,
                                                spentUsd := s.spentUsd + usd)])
  }

  /** Settles an open reservation: charges what the ledger records, frees the rest. */
  function ReleaseExcess(db: Db, user: nat, session: nat): Db {
    if !OpenReservation(db.reservations, session) then db
    else
      var r := db.reservations[session];
      var actualUsd := Abs(CommittedUsd(db.ledger, session));
      var actualTokens := Abs(CommittedTokens(db.ledger, session));
      db.(accounts := ApplyCommit(db.accounts, user, r.usd, actualUsd),
          reservations := CloseReservation(db.reservations, db.clock, session),
          settlements := db.settlements[session := Settlement(actualUsd, |db.ledger|)],
          ledger := db.ledger + [Entry(user, Some(session), None, Release,
                                       Max0(r.tokens - actualTokens), Max0(r.usd - actualUsd))])
  }

  /** Frees a whole open reservation. */
  function ReleaseAll(db: Db, user: nat, session: nat): Db {
    if !OpenReservation(db.reservations, session) || db.reservations[session].usd == 0 then db
    else
      var r := db.reservations[session];
      db.(accounts := ApplyRelease(db.accounts, user, r.usd),
          reservations := CloseReservation(db.reservations, db.clock, session),
          ledger := db.ledger + [Entry(user, Some(session), None, Release, r.tokens, r.usd)])
  }

  // ------------------------------------------------------------- what accounts mean

  /** The amount a session still holds reserved, if it is this user's. */
  function OpenUsdOf(db: Db, user: nat): nat -> int {
    (s: nat) => if s < |db.sessions| && db.sessions[s].userId == user && OpenReservation(db.reservations, s)
         then db.reservations[s].usd else 0
  }

  function SettledUsdOf(db: Db, user: nat): nat -> int {
    (s: nat) => if s < |db.sessions| && db.sessions[s].userId == user && s in db.settlements
         then db.settlements[s].usd else 0
  }

  /** How far a session closed by release_excess went over its reservation. */
  function OverrunOf(db: Db, user: nat): nat -> int {
    (s: nat) => if s < |db.sessions| && db.sessions[s].userId == user && s in db.settlements
         then Max0(db.settlements[s].usd - ESTIMATED_USD) else 0
  }

  function OpenTotal(db: Db, user: nat): int { Sum(OpenUsdOf(db, user), |db.sessions|) }

  function SettledTotal(db: Db, user: nat): int { Sum(SettledUsdOf(db, user), |db.sessions|) }

  function OverrunTotal(db: Db, user: nat): int { Sum(OverrunOf(db, user), |db.sessions|) }

  /** The account of a user against its reservations and settlements. */
  ghost predicate AccountOk(db: Db, user: nat) {
    var a := GetAccount(db.accounts, user);
    && a.reserved == OpenTotal(db, user)
    && a.balance + a.spent == a.granted
    && a.spent == SettledTotal(db, user)
    && a.balance - a.reserved + OverrunTotal(db, user) >= 0
  }

  predicate ReservationOk(db: Db, s: nat)
    requires s in db.reservations
  {
    && s < |db.sessions|
    && db.reservations[s].usd == ESTIMATED_USD
    && db.reservations[s].tokens == ESTIMATED_TOKENS
  }

  /** A closing froze what the ledger had recorded for the session by then. */
  ghost predicate SettlementOk(db: Db, s: nat)
    requires s in db.settlements
  {
    && s in db.reservations && db.reservations[s].releasedAt.Some?
    && db.settlements[s].at <= |db.ledger|
    && db.settlements[s].usd == -Sum(CommitUsdOf(db.ledger, s), db.settlements[s].at)
  }

  predicate ChargeEntry(e: Entry) {
    e.kind == Commit ==> e.usd <= 0 && e.tokens <= 0
  }

  ghost predicate BooksOk(db: Db) {
    && (forall s | s in db.reservations :: ReservationOk(db, s))
    && (forall s | s in db.settlements :: SettlementOk(db, s))
    && (forall i | 0 <= i < |db.ledger| :: ChargeEntry(db.ledger[i]))
  }

  ghost predicate MoneyOk(db: Db) {
    BooksOk(db) && forall user :: AccountOk(db, user)
  }

  /** The parts of the state the accounts are about are the same, up to new ledger
      entries, new unreserved sessions and changed session columns. */
  ghost predicate SameBooks(db: Db, after: Db) {
    && after.accounts == db.accounts
    && after.reservations == db.reservations
    && after.settlements == db.settlements
    && SameRows(db, after)
    && (forall i | |db.ledger| <= i < |after.ledger| :: ChargeEntry(after.ledger[i]))
  }

  /** Sessions and ledger entries are only added, and a session never changes hands. */
  ghost predicate SameRows(db: Db, after: Db) {
    && db.ledger <= after.ledger
    && |db.sessions| <= |after.sessions|
    && (forall s | 0 <= s < |db.sessions| :: after.sessions[s].userId == db.sessions[s].userId)
  }

  // ----------------------------------------------------------------------- proofs

  /** New entries do not change what the ledger recorded at an earlier closing. */
  lemma SettlementKept(db: Db, after: Db, s: nat)
    requires s in db.settlements && SettlementOk(db, s)
    requires s in after.settlements && after.settlements[s] == db.settlements[s]
    requires s in after.reservations && after.reservations[s].releasedAt.Some?
    requires db.ledger <= after.ledger
    ensures SettlementOk(after, s)
  {
    SumAgree(CommitUsdOf(db.ledger, s), CommitUsdOf(after.ledger, s), db.settlements[s].at);
  }

  lemma {:induction false} ZeroTail(f: nat -> int, m: nat, n: nat)
    requires m <= n && forall i | m <= i < n :: f(i) == 0
    ensures Sum(f, n) == Sum(f, m)
  {
    if m < n {
      ZeroTail(f, m, n - 1);
    }
  }

  lemma OpenTotalKept(db: Db, after: Db, user: nat)
    requires forall s | s in db.reservations :: ReservationOk(db, s)
    requires SameRows(db, after) && after.reservations == db.reservations
    ensures OpenTotal(after, user) == OpenTotal(db, user)
  {
    SumAgree(OpenUsdOf(db, user), OpenUsdOf(after, user), |db.sessions|);
    ZeroTail(OpenUsdOf(after, user), |db.sessions|, |after.sessions|);
  }

  lemma SettledTotalKept(db: Db, after: Db, user: nat)
    requires forall s | s in db.settlements :: s < |db.sessions|
    requires SameRows(db, after) && after.settlements == db.settlements
    ensures SettledTotal(after, user) == SettledTotal(db, user)
  {
    SumAgree(SettledUsdOf(db, user), SettledUsdOf(after, user), |db.sessions|);
    ZeroTail(SettledUsdOf(after, user), |db.sessions|, |after.sessions|);
  }

  lemma OverrunTotalKept(db: Db, after: Db, user: nat)
    requires forall s | s in db.settlements :: s < |db.sessions|
    requires SameRows(db, after) && after.settlements == db.settlements
    ensures OverrunTotal(after, user) == OverrunTotal(db, user)
  {
    SumAgree(OverrunOf(db, user), OverrunOf(after, user), |db.sessions|);
    ZeroTail(OverrunOf(after, user), |db.sessions|, |after.sessions|);
  }

  lemma SettlementsInRange(db: Db)
    requires BooksOk(db)
    ensures forall s | s in db.settlements :: s in db.reservations && s < |db.sessions|
  {
  }

  lemma SameBooksKeepBooks(db: Db, after: Db)
    requires BooksOk(db) && SameBooks(db, after)
    ensures BooksOk(after)
  {
    forall s | s in after.reservations ensures ReservationOk(after, s) {
      assert ReservationOk(db, s);
    }
    forall s | s in after.settlements ensures SettlementOk(after, s) {
      SettlementKept(db, after, s);
    }
    forall i | 0 <= i < |after.ledger| ensures ChargeEntry(after.ledger[i]) {
      assert i < |db.ledger| ==> ChargeEntry(db.ledger[i]);
    }
  }

  lemma SameBooksKeepMoney(db: Db, after: Db)
    requires MoneyOk(db) && SameBooks(db, after)
    ensures MoneyOk(after)
  {
    SameBooksKeepBooks(db, after);
    SettlementsInRange(db);
    forall user ensures AccountOk(after, user) {
      assert AccountOk(db, user);
      OpenTotalKept(db, after, user);
      SettledTotalKept(db, after, user);
      OverrunTotalKept(db, after, user);
    }
  }

  lemma GrantKeepsMoney(db: Db, user: nat, amount: nat, tokens: nat)
    requires MoneyOk(db)
    ensures MoneyOk(GrantInitial(db, user, amount, tokens))
  {
    var granted := db.(accounts := ApplyGrant(db.accounts, user, amount));
    BooksIgnoreAccounts(db, granted);
    SettlementsInRange(db);
    forall u ensures AccountOk(granted, u) {
      GrantKeepsAccount(db, user, amount, u);
    }
    SameBooksKeepMoney(granted, GrantInitial(db, user, amount, tokens));
  }

  lemma GrantKeepsAccount(db: Db, user: nat, amount: nat, u: nat)
    requires AccountOk(db, u)
    requires forall s | s in db.reservations :: ReservationOk(db, s)
    requires forall s | s in db.settlements :: s < |db.sessions|
    ensures AccountOk(db.(accounts := ApplyGrant(db.accounts, user, amount)), u)
  {
  }

  lemma BooksIgnoreAccounts(db: Db, after: Db)
    requires BooksOk(db) && after == db.(accounts := after.accounts)
    ensures BooksOk(after)
  {
  }

  lemma ReserveKeepsBooks(db: Db, after: Db, session: nat)
    requires BooksOk(db) && session < |db.sessions| && session !in db.reservations
    requires CheckAndReserve(db, db.sessions[session].userId, session) == Some(after)
    ensures BooksOk(after)
  {
    forall s | s in after.reservations ensures ReservationOk(after, s) {
      assert s != session ==> ReservationOk(db, s);
    }
    forall s | s in after.settlements ensures SettlementOk(after, s) {
      assert SettlementOk(db, s);
      SettlementKept(db, after, s);
    }
    forall i | 0 <= i < |after.ledger| ensures ChargeEntry(after.ledger[i]) {
      assert i < |db.ledger| ==> ChargeEntry(db.ledger[i]);
    }
  }

  lemma ReserveChangesOpen(db: Db, after: Db, session: nat, u: nat)
    requires session < |db.sessions| && session !in db.reservations
    requires CheckAndReserve(db, db.sessions[session].userId, session) == Some(after)
    ensures OpenTotal(after, u)
         == OpenTotal(db, u) + if u == db.sessions[session].userId then ESTIMATED_USD else 0
  {
    SumChange(OpenUsdOf(db, u), OpenUsdOf(after, u), |db.sessions|, session);
  }

  lemma ReserveKeepsAccount(db: Db, after: Db, session: nat, u: nat)
    requires AccountOk(db, u) && session < |db.sessions| && session !in db.reservations
    requires forall s | s in db.settlements :: s < |db.sessions|
    requires CheckAndReserve(db, db.sessions[session].userId, session) == Some(after)
    ensures AccountOk(after, u)
  {
    assert OpenTotal(after, u) == OpenTotal(db, u) + if u == db.sessions[session].userId then ESTIMATED_USD else 0 by {
      ReserveChangesOpen(db, after, session, u);
    }
    assert SettledTotal(after, u) == SettledTotal(db, u) by {
      SettledTotalKept(db, after, u);
    }
    assert OverrunTotal(after, u) == OverrunTotal(db, u) by {
      OverrunTotalKept(db, after, u);
    }
    OverrunNotNegative(db, u);
  }

  lemma OverrunNotNegative(db: Db, user: nat)
    ensures OverrunTotal(db, user) >= 0
  {
    SumNonNegative(OverrunOf(db, user), |db.sessions|);
  }

  lemma ReserveKeepsMoney(db: Db, session: nat)
    requires MoneyOk(db) && session < |db.sessions| && session !in db.reservations
    ensures var r := CheckAndReserve(db, db.sessions[session].userId, session);
            r.Some? ==> MoneyOk(r.value)
  {
    var r := CheckAndReserve(db, db.sessions[session].userId, session);
    if r.Some? {
      var after := r.value;
      ReserveKeepsBooks(db, after, session);
      SettlementsInRange(db);
      forall u ensures AccountOk(after, u) {
        ReserveKeepsAccount(db, after, session, u);
      }
    }
  }

  /** Closing a reservation takes exactly its amount out of its user's open total. */
  lemma ClosingChangesOpen(db: Db, after: Db, session: nat, u: nat)
    requires session < |db.sessions| && OpenReservation(db.reservations, session)
    requires after.sessions == db.sessions
    requires after.reservations == CloseReservation(db.reservations, db.clock, session)
    ensures OpenTotal(after, u)
         == OpenTotal(db, u) - if u == db.sessions[session].userId then db.reservations[session].usd else 0
  {
    SumChange(OpenUsdOf(db, u), OpenUsdOf(after, u), |db.sessions|, session);
  }

  ghost predicate Settles(db: Db, after: Db, session: nat) {
    && session < |db.sessions| && session !in db.settlements && session in after.settlements
    && after.sessions == db.sessions
    && after.settlements == db.settlements[session := after.settlements[session]]
  }

  lemma SettlingChangesSettled(db: Db, after: Db, session: nat, u: nat)
    requires Settles(db, after, session)
    ensures SettledTotal(after, u)
         == SettledTotal(db, u) + if u == db.sessions[session].userId then after.settlements[session].usd else 0
  {
    SumChange(SettledUsdOf(db, u), SettledUsdOf(after, u), |db.sessions|, session);
  }

  lemma SettlingChangesOverrun(db: Db, after: Db, session: nat, u: nat)
    requires Settles(db, after, session)
    ensures OverrunTotal(after, u)
         == OverrunTotal(db, u)
            + if u == db.sessions[session].userId
              then Max0(after.settlements[session].usd - ESTIMATED_USD) else 0
  {
    SumChange(OverrunOf(db, u), OverrunOf(after, u), |db.sessions|, session);
  }

  /** COMMIT amounts are negative, so the recorded total is what was spent. */
  lemma CommitsAreNegative(db: Db, session: nat)
    requires forall i | 0 <= i < |db.ledger| :: ChargeEntry(db.ledger[i])
    ensures CommittedUsd(db.ledger, session) <= 0 && CommittedTokens(db.ledger, session) <= 0
  {
    SumFalls(CommitUsdOf(db.ledger, session), 0, |db.ledger|);
    SumFalls(CommitTokensOf(db.ledger, session), 0, |db.ledger|);
  }

  /** What is left after one term is taken out is not negative. */
  lemma OpenTotalCovers(db: Db, user: nat, session: nat)
    requires forall s | s in db.reservations :: ReservationOk(db, s)
    requires session < |db.sessions| && db.sessions[session].userId == user
    requires OpenReservation(db.reservations, session)
    ensures OpenTotal(db, user) >= db.reservations[session].usd
  {
    var others: nat -> int := (i: nat) => if i == session then 0 else OpenUsdOf(db, user)(i);
    SumChange(OpenUsdOf(db, user), others, |db.sessions|, session);
    SumNonNegative(others, |db.sessions|);
  }

  lemma SettlingKeepsAccount(db: Db, after: Db, session: nat, u: nat)
    requires AccountOk(db, u)
    requires session < |db.sessions| && OpenReservation(db.reservations, session)
    requires db.reservations[session].usd == ESTIMATED_USD && session !in db.settlements
    requires CommittedUsd(db.ledger, session) <= 0
    requires OpenTotal(db, db.sessions[session].userId) >= ESTIMATED_USD
    requires after == ReleaseExcess(db, db.sessions[session].userId, session)
    ensures AccountOk(after, u)
  {
    ClosingChangesOpen(db, after, session, u);
    SettlingChangesSettled(db, after, session, u);
    SettlingChangesOverrun(db, after, session, u);
  }

  lemma ReleasingKeepsAccount(db: Db, after: Db, session: nat, u: nat)
    requires AccountOk(db, u)
    requires session < |db.sessions| && OpenReservation(db.reservations, session)
    requires db.reservations[session].usd == ESTIMATED_USD
    requires OpenTotal(db, db.sessions[session].userId) >= ESTIMATED_USD
    requires forall s | s in db.settlements :: s < |db.sessions|
    requires after == ReleaseAll(db, db.sessions[session].userId, session)
    ensures AccountOk(after, u)
  {
    ClosingChangesOpen(db, after, session, u);
    SettledTotalKept(db, after, u);
    OverrunTotalKept(db, after, u);
  }

  /** Settling an open reservation keeps the books, frees exactly the reservation and
      charges exactly what the ledger records; freed plus spent-within-reservation is
      the reservation, and the clamp of the account is never active. */
  lemma ReleaseExcessSettles(db: Db, session: nat)
    requires MoneyOk(db) && session < |db.sessions| && OpenReservation(db.reservations, session)
    ensures var user := db.sessions[session].userId;
            var after := ReleaseExcess(db, user, session);
            var before := GetAccount(db.accounts, user);
            var cost := -CommittedUsd(db.ledger, session);
            && MoneyOk(after)
            && !OpenReservation(after.reservations, session)
            && GetAccount(after.accounts, user)
               == before.(reserved := before.reserved - db.reservations[session].usd,
                          balance := before.balance - cost,
                          spent := before.spent + cost)
            && after.ledger[|db.ledger|].usd + (if cost < ESTIMATED_USD then cost else ESTIMATED_USD)
               == db.reservations[session].usd
  {
    var user := db.sessions[session].userId;
    var after := ReleaseExcess(db, user, session);
    CommitsAreNegative(db, session);
    assert AccountOk(db, user);
    OpenTotalCovers(db, user, session);
    ReleaseExcessKeepsBooks(db, session);
    assert session !in db.settlements by {
      assert session in db.settlements ==> SettlementOk(db, session);
    }
    forall u ensures AccountOk(after, u) {
      SettlingKeepsAccount(db, after, session, u);
    }
  }

  lemma ReleaseExcessKeepsBooks(db: Db, session: nat)
    requires BooksOk(db) && session < |db.sessions| && OpenReservation(db.reservations, session)
    ensures BooksOk(ReleaseExcess(db, db.sessions[session].userId, session))
  {
    var after := ReleaseExcess(db, db.sessions[session].userId, session);
    CommitsAreNegative(db, session);
    forall s | s in after.reservations ensures ReservationOk(after, s) {
      assert ReservationOk(db, s);
    }
    forall s | s in after.settlements ensures SettlementOk(after, s) {
      if s == session {
        SumAgree(CommitUsdOf(db.ledger, s), CommitUsdOf(after.ledger, s), |db.ledger|);
      } else {
        SettlementKept(db, after, s);
      }
    }
    forall i | 0 <= i < |after.ledger| ensures ChargeEntry(after.ledger[i]) {
      assert i < |db.ledger| ==> ChargeEntry(db.ledger[i]);
    }
  }

  lemma ReleaseAllKeepsBooks(db: Db, session: nat)
    requires BooksOk(db) && session < |db.sessions| && OpenReservation(db.reservations, session)
    ensures BooksOk(ReleaseAll(db, db.sessions[session].userId, session))
  {
    var after := ReleaseAll(db, db.sessions[session].userId, session);
    forall s | s in after.reservations ensures ReservationOk(after, s) {
      assert ReservationOk(db, s);
    }
    forall s | s in after.settlements ensures SettlementOk(after, s) {
      SettlementKept(db, after, s);
    }
    forall i | 0 <= i < |after.ledger| ensures ChargeEntry(after.ledger[i]) {
      assert i < |db.ledger| ==> ChargeEntry(db.ledger[i]);
    }
  }

  /** A full release gives back exactly the reservation and charges nothing. */
  lemma ReleaseAllFrees(db: Db, session: nat)
    requires MoneyOk(db) && session < |db.sessions| && OpenReservation(db.reservations, session)
    ensures var user := db.sessions[session].userId;
            var after := ReleaseAll(db, user, session);
            var before := GetAccount(db.accounts, user);
            && MoneyOk(after)
            && !OpenReservation(after.reservations, session)
            && GetAccount(after.accounts, user)
               == before.(reserved := before.reserved - db.reservations[session].usd)
            && after.ledger[|db.ledger|].usd == db.reservations[session].usd
  {
    var user := db.sessions[session].userId;
    var after := ReleaseAll(db, user, session);
    assert ReservationOk(db, session);
    assert AccountOk(db, user);
    OpenTotalCovers(db, user, session);
    ReleaseAllKeepsBooks(db, session);
    SettlementsInRange(db);
    forall u ensures AccountOk(after, u) {
      ReleasingKeepsAccount(db, after, session, u);
    }
  }

  /** A settled session stays settled: both ways of closing it again change nothing. */
  lemma SettlesOnce(db: Db, user: nat, session: nat)
    requires !OpenReservation(db.reservations, session)
    ensures ReleaseExcess(db, user, session) == db && ReleaseAll(db, user, session) == db
  {
  }

  // -------------------------------------------------------------- what they promise

  /** When no session went over its reservation, what is reserved is covered. */
  lemma ReservedWithinBalance(db: Db, user: nat)
    requires MoneyOk(db)
    requires forall s | s in db.settlements :: db.settlements[s].usd <= ESTIMATED_USD
    ensures var a := GetAccount(db.accounts, user); 0 <= a.reserved <= a.balance
  {
    assert AccountOk(db, user);
    NoOverrun(db, user);
    OpenTotalNotNegative(db, user);
  }

  lemma NoOverrun(db: Db, user: nat)
    requires forall s | s in db.settlements :: db.settlements[s].usd <= ESTIMATED_USD
    ensures OverrunTotal(db, user) == 0
  {
    SumZero(OverrunOf(db, user), |db.sessions|);
  }

  lemma OpenTotalNotNegative(db: Db, user: nat)
    requires forall s | s in db.reservations :: ReservationOk(db, s)
    ensures OpenTotal(db, user) >= 0
  {
    SumNonNegative(OpenUsdOf(db, user), |db.sessions|);
  }

  /** Everything the ledger records as committed for a user's sessions. */
  function LedgerUsdOf(db: Db, user: nat): nat -> int {
    (s: nat) => if s < |db.sessions| && db.sessions[s].userId == user then -CommittedUsd(db.ledger, s) else 0
  }

  /** The account is never charged more than the ledger records. */
  lemma ChargedWithinLedger(db: Db, user: nat)
    requires MoneyOk(db)
    ensures GetAccount(db.accounts, user).spent <= Sum(LedgerUsdOf(db, user), |db.sessions|)
  {
    assert AccountOk(db, user);
    SettledWithinLedger(db, user);
  }

  lemma SettledWithinLedger(db: Db, user: nat)
    requires BooksOk(db)
    ensures SettledTotal(db, user) <= Sum(LedgerUsdOf(db, user), |db.sessions|)
  {
    forall s: nat | s < |db.sessions| ensures SettledUsdOf(db, user)(s) <= LedgerUsdOf(db, user)(s) {
      ClosingWithinLedger(db, s);
    }
    SumAtMost(SettledUsdOf(db, user), LedgerUsdOf(db, user), |db.sessions|);
  }

  lemma ClosingWithinLedger(db: Db, s: nat)
    requires BooksOk(db)
    ensures 0 <= -CommittedUsd(db.ledger, s)
    ensures s in db.settlements ==> db.settlements[s].usd <= -CommittedUsd(db.ledger, s)
  {
    CommitsAreNegative(db, s);
    if s in db.settlements {
      assert SettlementOk(db, s);
      SumFalls(CommitUsdOf(db.ledger, s), db.settlements[s].at, |db.ledger|);
    }
  }
}
