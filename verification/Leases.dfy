/** The session lease table: an audit trail with at most one open row per session. */
module Leases {
  import opened Rows

  predicate Open(l: Lease, sessionId: nat) {
    l.sessionId == sessionId && l.endedAt.None?
  }

  /** The row `_get_active_lease` returns: the open one that started last. */
  function ActiveLease(leases: seq<Lease>, sessionId: nat): (r: Option<nat>)
    ensures r.None? ==> forall i | 0 <= i < |leases| :: !Open(leases[i], sessionId)
    ensures r.Some? ==> r.value < |leases| && Open(leases[r.value], sessionId)
    ensures r.Some? ==> forall i | 0 <= i < |leases| ::
                Open(leases[i], sessionId) ==> leases[i].startedAt <= leases[r.value].startedAt
  {
    if leases == [] then None
    else
      var last := |leases| - 1;
      var earlier := ActiveLease(leases[..last], sessionId);
      if Open(leases[last], sessionId)
         && (earlier.None? || leases[earlier.value].startedAt <= leases[last].startedAt)
      then Some(last)
      else earlier
  }

  function Insert(leases: seq<Lease>, now: nat, sessionId: nat, owner: Token, version: nat): seq<Lease> {
    leases + [Lease(sessionId, owner, version, now + LEASE_SECONDS, now, None)]
  }

  function End(leases: seq<Lease>, now: nat, i: nat): seq<Lease>
    requires i < |leases|
  {
    leases[i := leases[i].(endedAt := Some(now))]
  }

  /** The open lease is the exact one this owner acquired. */
  predicate Holds(leases: seq<Lease>, sessionId: nat, owner: Token, version: nat) {
    var active := ActiveLease(leases, sessionId);
    active.Some? && leases[active.value].owner == owner && leases[active.value].version == version
  }

  /** assert_current_lease returns: held and not expired. */
  predicate CurrentLease(leases: seq<Lease>, sessionId: nat, owner: Token, version: nat, now: nat) {
    && Holds(leases, sessionId, owner, version)
    && leases[ActiveLease(leases, sessionId).value].expiresAt > now
  }

  function ReleaseLease(leases: seq<Lease>, now: nat, sessionId: nat, owner: Token, version: nat): seq<Lease> {
    if Holds(leases, sessionId, owner, version) then
      End(leases, now, ActiveLease(leases, sessionId).value)
    else
      leases
  }

  function HeartbeatLease(leases: seq<Lease>, now: nat, sessionId: nat, owner: Token, version: nat)
    : Option<seq<Lease>>
  {
    if Holds(leases, sessionId, owner, version) then
      var i := ActiveLease(leases, sessionId).value;
      Some(leases[i := leases[i].(expiresAt := now + HEARTBEAT_LEASE_SECONDS)])
    else
      None
  }

  // ------------------------------------------------------------ table invariants

  predicate OneOpenPerSession(leases: seq<Lease>) {
    forall i, j | 0 <= i < j < |leases| ::
      leases[i].endedAt.None? && leases[j].endedAt.None? ==> leases[i].sessionId != leases[j].sessionId
  }

  /** A lease row belongs to the one attempt that acquired it, under the version it got. */
  predicate LeaseOk(l: Lease, attempts: map<Token, Attempt>) {
    && l.owner in attempts
    && attempts[l.owner].sessionId == l.sessionId
    && attempts[l.owner].stage == Running(l.version)
  }

  predicate LeasesOk(leases: seq<Lease>, attempts: map<Token, Attempt>) {
    && (forall i | 0 <= i < |leases| :: LeaseOk(leases[i], attempts))
    && (forall i, j | 0 <= i < j < |leases| :: leases[i].owner != leases[j].owner)
    && OneOpenPerSession(leases)
  }

  /** With one open row per session the lookup does not depend on the order of rows. */
  lemma ActiveLeaseIs(leases: seq<Lease>, sessionId: nat, i: nat)
    requires OneOpenPerSession(leases)
    requires i < |leases| && Open(leases[i], sessionId)
    ensures ActiveLease(leases, sessionId) == Some(i)
  {
  }

  /** Whether some row of this owner has ended; that never becomes false again. */
  predicate LeaseEnded(leases: seq<Lease>, owner: Token) {
    exists i | 0 <= i < |leases| :: leases[i].owner == owner && leases[i].endedAt.Some?
  }

  /** An owner whose row has ended holds nothing. */
  lemma EndedHoldsNothing(leases: seq<Lease>, attempts: map<Token, Attempt>, sessionId: nat, owner: Token, version: nat)
    requires LeasesOk(leases, attempts) && LeaseEnded(leases, owner)
    ensures !Holds(leases, sessionId, owner, version)
  {
  }
}
