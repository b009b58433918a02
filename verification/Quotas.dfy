/** The daily generation quota: one counter row per user, against a counter per user and day. */
module Quotas {
  import opened Rows

  /** The conditional upsert of consume_daily_slot; None when its WHERE clause fails. */
  function ConsumeDailySlot(quotas: map<nat, Quota>, user: nat, limit: nat, date: nat): Option<map<nat, Quota>> {
    if user !in quotas then Some(quotas[user := Quota(1, limit, date)])
    else
      var row := quotas[user];
      if row.date != date then Some(quotas[user := Quota(1, limit, date)])
      else if row.used < limit then Some(quotas[user := Quota(row.used + 1, limit, date)])
      else None
  }

  function GetRemaining(quotas: map<nat, Quota>, user: nat, limit: nat, date: nat): int {
    if user !in quotas || quotas[user].date != date then limit
    else if limit < quotas[user].used then 0
    else limit - quotas[user].used
  }

  // ------------------------------------------------------------ sequences of requests

  datatype Request = Request(user: nat, date: nat)

  predicate DatesNeverGoBack(requests: seq<Request>) {
    forall i, j | 0 <= i < j < |requests| :: requests[i].date <= requests[j].date
  }

  /** The counter rows after the requests. */
  function Counters(requests: seq<Request>, limit: nat): map<nat, Quota> {
    if requests == [] then map[]
    else
      var before := Counters(requests[..|requests| - 1], limit);
      var r := requests[|requests| - 1];
      var consumed := ConsumeDailySlot(before, r.user, limit, r.date);
      if consumed.Some? then consumed.value else before
  }

  /** Whether the counter row accepts request number i. */
  predicate RowAccepts(requests: seq<Request>, limit: nat, i: nat)
    requires i < |requests|
  {
    ConsumeDailySlot(Counters(requests[..i], limit), requests[i].user, limit, requests[i].date).Some?
  }

  /** How many requests a counter for every user and day has accepted for this one. */
  function DayCount(requests: seq<Request>, limit: nat, user: nat, date: nat): nat {
    if requests == [] then 0
    else
      var before := DayCount(requests[..|requests| - 1], limit, user, date);
      if requests[|requests| - 1] == Request(user, date) && before < limit then before + 1 else before
  }

  predicate DayAccepts(requests: seq<Request>, limit: nat, i: nat)
    requires i < |requests|
  {
    DayCount(requests[..i], limit, requests[i].user, requests[i].date) < limit
  }

  // --------------------------------------------------------------------- refinement

  /** A row counts the last day its user was served; later days are untouched. */
  ghost predicate RowOk(requests: seq<Request>, limit: nat, user: nat) {
    var rows := Counters(requests, limit);
    if user in rows then
      && 1 <= rows[user].used <= limit
      && rows[user].used == DayCount(requests, limit, user, rows[user].date)
      && (exists i | 0 <= i < |requests| :: requests[i].date == rows[user].date)
      && (forall date | date > rows[user].date :: DayCount(requests, limit, user, date) == 0)
    else
      forall date :: DayCount(requests, limit, user, date) == 0
  }

  lemma {:induction false} RowsCountDays(requests: seq<Request>, limit: nat, user: nat)
    requires DatesNeverGoBack(requests) && limit >= 1
    ensures RowOk(requests, limit, user)
  {
    if requests != [] {
      var n := |requests| - 1;
      var r := requests[n];
      RowsCountDays(requests[..n], limit, user);
      var before := Counters(requests[..n], limit);
      var rows := Counters(requests, limit);
      if user in before {
        var i :| 0 <= i < n && requests[i].date == before[user].date;
        assert before[user].date <= r.date;
      }
      if r.user != user {
        assert user in rows <==> user in before;
      }
    }
  }

  /** The single counter row accepts exactly the requests a counter per day would. */
  lemma RowAcceptsAsDayDoes(requests: seq<Request>, limit: nat, i: nat)
    requires DatesNeverGoBack(requests) && limit >= 1 && i < |requests|
    ensures RowAccepts(requests, limit, i) <==> DayAccepts(requests, limit, i)
  {
    var before := requests[..i];
    RowsCountDays(before, limit, requests[i].user);
    var rows := Counters(before, limit);
    if requests[i].user in rows {
      var k :| 0 <= k < |before| && before[k].date == rows[requests[i].user].date;
      assert requests[k].date <= requests[i].date;
    }
  }

  /** How many of the requests the counter row accepts for this user and day. */
  function Accepted(requests: seq<Request>, limit: nat, user: nat, date: nat): nat {
    if requests == [] then 0
    else
      var n := |requests| - 1;
      Accepted(requests[..n], limit, user, date)
      + if requests[n] == Request(user, date) && RowAccepts(requests, limit, n) then 1 else 0
  }

  lemma {:induction false} AcceptedIsDayCount(requests: seq<Request>, limit: nat, user: nat, date: nat)
    requires DatesNeverGoBack(requests) && limit >= 1
    ensures Accepted(requests, limit, user, date) == DayCount(requests, limit, user, date) <= limit
  {
    if requests != [] {
      var n := |requests| - 1;
      AcceptedIsDayCount(requests[..n], limit, user, date);
      RowAcceptsAsDayDoes(requests, limit, n);
    }
  }

  /** At most the limit on any day, and today's remaining slots are exactly the rest. */
  lemma RemainingIsExact(requests: seq<Request>, limit: nat, user: nat, today: nat)
    requires DatesNeverGoBack(requests + [Request(user, today)]) && limit >= 1
    ensures forall date :: Accepted(requests, limit, user, date) <= limit
    ensures GetRemaining(Counters(requests, limit), user, limit, today) + Accepted(requests, limit, user, today) == limit
  {
    var next := requests + [Request(user, today)];
    assert forall i | 0 <= i < |requests| :: next[i] == requests[i];
    assert forall i | 0 <= i < |requests| :: next[i].date <= next[|requests|].date;
    forall date ensures Accepted(requests, limit, user, date) <= limit {
      AcceptedIsDayCount(requests, limit, user, date);
    }
    AcceptedIsDayCount(requests, limit, user, today);
    RowsCountDays(requests, limit, user);
    var rows := Counters(requests, limit);
    if user in rows {
      var k :| 0 <= k < |requests| && requests[k].date == rows[user].date;
      assert next[k].date <= today;
    }
  }

  /** Both conditions are needed: a limit of 0 lets the first request of a day through,
      and a date that goes back is counted from zero again. */
  lemma RefinementNeedsBoth(user: nat, date: nat)
    ensures var once := [Request(user, date)];
            RowAccepts(once, 0, 0) && !DayAccepts(once, 0, 0)
    ensures var back := [Request(user, date), Request(user, date + 1), Request(user, date)];
            RowAccepts(back, 1, 2) && !DayAccepts(back, 1, 2)
  {
    var first := Request(user, date);
    var second := Request(user, date + 1);
    var back := [first, second, first];
    assert back[..2] == [first, second];
    assert [first, second][..1] == [first];
    assert [first][..0] == [];
    assert Counters([first], 1) == map[user := Quota(1, 1, date)];
    assert Counters([first, second], 1)[user] == Quota(1, 1, date + 1);
    assert DayCount([first], 1, user, date) == 1;
  }
}
