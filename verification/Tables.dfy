/** The whole state: every database table, the clock, and the workers' attempts. */
module Tables {
  import opened Rows
  import Outbox
  import Leases

  /** `attempts` is worker memory.  `settlements` is a history variable: the
      closing of every session that release_excess has closed. */
  datatype Db = Db(
    clock: nat,
    events: seq<Event>,
    sessions: seq<Session>,
    versions: seq<Version>,
    leases: seq<Lease>,
    accounts: map<nat, Account>,
    reservations: map<nat, Reservation>,
    ledger: seq<Entry>,
    runs: seq<AgentRun>,
    quotas: map<nat, Quota>,
    attempts: map<Token, Attempt>,
    settlements: map<nat, Settlement>)

  const EMPTY: Db := Db(0, [], [], [], [], map[], map[], [], [], map[], map[], map[])

  /** Why a transaction rolled back. */
  datatype Refusal =
    | ActiveGenerationExists
    | DailyLimitReached
    | BudgetLocked
    | InsufficientBudget
    | SessionNotFound
    | AccessDenied
    | WrongStatus
    | NoActiveVersion
    | InvalidOutline
    | DuplicateActiveEvent
    | OwnershipLost
    | MissingOutline
    | MissingFinalContent
    | InvalidTransition
    | ClaimDisappeared
    | InvalidPhaseState

  datatype Outcome = Committed(db: Db) | RolledBack(why: Refusal) {
    /** The state after the transaction: a refused one leaves nothing behind. */
    function After(before: Db): Db {
      match this
      case Committed(db) => db
      case RolledBack(_) => before
    }
  }
}
