/** What holds of the tables in every reachable state. */
module Invariant {
  import opened Rows
  import opened Tables
  import opened Workflow
  import Lifecycle
  import Outbox
  import Leases

  /** An event's session exists, is its user's, and is in progress while the event is active. */
  predicate LinkOk(e: Event, sessions: seq<Session>) {
    && e.sessionId < |sessions|
    && e.userId == sessions[e.sessionId].userId
    && (Outbox.Active(e) ==> sessions[e.sessionId].status in {Queued, Processing})
  }

  predicate LinksOk(events: seq<Event>, sessions: seq<Session>) {
    forall i | 0 <= i < |events| :: LinkOk(events[i], sessions)
  }

  /** While an attempt that acquired its session still owns the claim, the session is PROCESSING. */
  predicate RunningOk(e: Event, attempts: map<Token, Attempt>, sessions: seq<Session>) {
    && e.lockedBy.Some? && e.lockedBy.value in attempts && attempts[e.lockedBy.value].stage.Running?
    && e.sessionId < |sessions|
    ==> sessions[e.sessionId].status == Processing
  }

  predicate RunsOk(events: seq<Event>, attempts: map<Token, Attempt>, sessions: seq<Session>) {
    forall i | 0 <= i < |events| :: RunningOk(events[i], attempts, sessions)
  }

  /** The active version belongs to the session and carries its highest number. */
  predicate ActiveVersionOk(sessions: seq<Session>, s: nat, versions: seq<Version>)
    requires s < |sessions|
  {
    && sessions[s].activeVersion.Some?
    && sessions[s].activeVersion.value < |versions|
    && versions[sessions[s].activeVersion.value].sessionId == s
    && versions[sessions[s].activeVersion.value].number == MaxNumber(versions, s)
  }

  predicate VersionsOk(sessions: seq<Session>, versions: seq<Version>) {
    && (forall s | 0 <= s < |sessions| :: ActiveVersionOk(sessions, s, versions))
    && (forall v | 0 <= v < |versions| :: versions[v].sessionId < |sessions| && versions[v].number >= 1)
    && (forall u, v | 0 <= u < v < |versions| ::
          versions[u].sessionId == versions[v].sessionId ==> versions[u].number < versions[v].number)
  }

  /** Version numbers are 1..n: below every version lies its predecessor. */
  predicate NumbersDense(versions: seq<Version>) {
    forall v | 0 <= v < |versions| :: versions[v].number > 1 ==> HasNumber(versions, versions[v].sessionId, versions[v].number - 1)
  }

  predicate HasNumber(versions: seq<Version>, session: nat, number: nat) {
    exists u | 0 <= u < |versions| :: versions[u].sessionId == session && versions[u].number == number
  }

  /** Failed by the reaper: the version keeps the status it had while in progress. */
  predicate Exhausted(session: Status, version: Status) {
    session == Failed && version in {Queued, Processing}
  }

  predicate StatusOk(sessions: seq<Session>, s: nat, versions: seq<Version>)
    requires s < |sessions|
  {
    var active := sessions[s].activeVersion;
    active.Some? && active.value < |versions| ==>
      var version := versions[active.value];
      && (version.status == sessions[s].status || Exhausted(sessions[s].status, version.status))
      && (sessions[s].status == AwaitingFinalReview ==> version.finalContent != "")
  }

  predicate StatusesOk(sessions: seq<Session>, versions: seq<Version>) {
    forall s | 0 <= s < |sessions| :: StatusOk(sessions, s, versions)
  }

  /** What an active event asks for can be done: the validator's content checks pass. */
  predicate ContentOk(e: Event, sessions: seq<Session>, versions: seq<Version>) {
    Outbox.Active(e) && e.sessionId < |sessions|
    && sessions[e.sessionId].activeVersion.Some? && sessions[e.sessionId].activeVersion.value < |versions| ==>
      var version := versions[sessions[e.sessionId].activeVersion.value];
      && (e.phase == ResearchPhase ==> version.approvedOutline != "" || version.outlineData != "")
      && (e.phase == Revision ==> version.finalContent != "")
  }

  predicate ContentsOk(events: seq<Event>, sessions: seq<Session>, versions: seq<Version>) {
    forall i | 0 <= i < |events| :: ContentOk(events[i], sessions, versions)
  }

  predicate ProtocolOk(db: Db) {
    && Outbox.EventsOk(db.events, db.attempts)
    && Outbox.AttemptsOk(db.attempts, db.events)
    && Outbox.OneActivePerSession(db.events)
    && Outbox.TimesOk(db.events, db.clock)
    && Leases.LeasesOk(db.leases, db.attempts)
    && LinksOk(db.events, db.sessions)
    && RunsOk(db.events, db.attempts, db.sessions)
    && VersionsOk(db.sessions, db.versions)
    && NumbersDense(db.versions)
    && StatusesOk(db.sessions, db.versions)
    && ContentsOk(db.events, db.sessions, db.versions)
  }
}
