/** The database rows of the blog workflow, and the worker-side record of one attempt.

    A table whose primary key is an autoincrement column is a sequence: the id of a
    row is its index, and inserting appends.  A table with one row per foreign key
    (account per user, reservation per session, quota per user) is a map.  Time is
    an integer number of seconds, money an integer number of 1e-8 USD. */
module Rows {

  datatype Option<+T> = None | Some(value: T)

  /** An owner string `worker:uuid4`, unique to one attempt. */
  type Token = nat

  datatype Status =
    | Queued
    | Processing
    | AwaitingOutlineReview
    | AwaitingFinalReview
    | Completed
    | Failed
    | Rejected
    | AgentRejected
    | Cancelled

  datatype Phase = FreshGeneration | ResearchPhase | Revision

  datatype EventStatus = EventPending | EventProcessing | EventProcessed | EventFailed

  /** workflow_outbox_events; sessionId, userId and phase are the job in its payload. */
  datatype Event = Event(
    sessionId: nat,
    userId: nat,
    phase: Phase,
    status: EventStatus,
    attempts: nat,
    availableAt: nat,
    lockedBy: Option<Token>,
    lockedUntil: Option<nat>,
    dispatchedAt: Option<nat>,
    createdAt: nat)

  /** blog_sessions */
  datatype Session = Session(
    userId: nat,
    status: Status,
    jobPhase: Option<Phase>,
    activeVersion: Option<nat>,
    reservedTokens: int,
    reservedUsd: int,
    spentTokens: int,
    spentUsd: int)

  /** blog_versions; a NULL or empty document is the empty string. */
  datatype Version = Version(
    sessionId: nat,
    number: nat,
    status: Status,
    jobPhase: Phase,
    outlineData: string,
    approvedOutline: string,
    draft: string,
    finalContent: string)

  /** session_leases, an append-only audit trail. */
  datatype Lease = Lease(
    sessionId: nat,
    owner: Token,
    version: nat,
    expiresAt: nat,
    startedAt: nat,
    endedAt: Option<nat>)

  /** budget_accounts */
  datatype Account = Account(balance: int, reserved: int, granted: int, spent: int)

  /** session_reservations */
  datatype Reservation = Reservation(usd: int, tokens: int, releasedAt: Option<nat>)

  /** The closing of a session by release_excess: what its ledger entries came to, and
      how long the ledger was. */
  datatype Settlement = Settlement(usd: int, at: nat)

  datatype EntryType = Grant | Reserve | Commit | Release

  /** budget_ledger, append-only. */
  datatype Entry = Entry(
    userId: nat,
    sessionId: Option<nat>,
    runId: Option<nat>,
    kind: EntryType,
    tokens: int,
    usd: int)

  datatype RunStatus = RunStarted | RunCompleted | RunFailed

  /** The stage name `v<version>:<stage>` of an agent run. */
  datatype StageName = StageName(version: nat, stage: string)

  /** agent_runs */
  datatype AgentRun = AgentRun(
    sessionId: nat,
    stage: StageName,
    status: RunStatus,
    tokens: nat,
    usd: nat)

  /** user_blog_quotas */
  datatype Quota = Quota(used: nat, limit: nat, date: nat)

  /** Where one worker attempt stands: what it does next, or why it stopped. */
  datatype Stage =
    | Claimed                        // owns the claim, has not asked for the session lease
    | Running(leaseVersion: nat)     // acquired the session lease
    | Obsolete                       // read a session that no longer wants this job
    | Blocked                        // found the session lease held by another owner
    | Abandoned                      // acquisition raised; the claim is left to expire

  /** One attempt: the job a worker hydrated from a claimed event. */
  datatype Attempt = Attempt(
    eventId: nat,
    sessionId: nat,
    userId: nat,
    phase: Phase,
    approvedOutline: string,
    stage: Stage)

  /** Provider usage of one stage; usd is the price of the tokens. */
  datatype StageUsage = StageUsage(stage: string, tokens: nat, usd: nat, hasLatency: bool)

  /** What a workflow run handed back. */
  datatype RunResult = RunResult(
    intentClear: bool,
    outline: string,
    draft: string,
    finalContent: string,
    usage: seq<StageUsage>)

  datatype ReviewAction = Approve | RequestRevision | Reject

  const LEASE_SECONDS: nat := 300
  const HEARTBEAT_LEASE_SECONDS: nat := 90
  const MAX_ATTEMPTS: nat := 4
  const REPUBLISH_SECONDS: nat := 300
  const UNDISPATCHED_SECONDS: nat := 30
  const DISPATCH_LIMIT: nat := 100
  const ESTIMATED_TOKENS: int := 50_000
  const ESTIMATED_USD: int := 1_0000_0000
  const DAILY_LIMIT: nat := 5
  const SECONDS_PER_DAY: nat := 86_400
}
