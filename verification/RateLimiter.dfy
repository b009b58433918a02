/** The sliding-window rate limiter: a pruned sorted set with key expiry, against a
    checker that keeps the whole history. */
module RateLimiter {
  import opened Rows

  /** An element of a Redis sorted set; the score is a time in seconds. */
  datatype Element = Element(score: nat, member: nat)

  /** A time to the millisecond; the script is given the seconds only. */
  datatype Instant = Instant(second: nat, milli: nat)

  predicate Later(a: Instant, b: Instant) {
    a.second > b.second || (a.second == b.second && a.milli > b.milli)
  }

  function Plus(at: Instant, seconds: nat): Instant {
    at.(second := at.second + seconds)
  }

  /** What Redis keeps under one key: the sorted set and the expiry. */
  datatype Window = Window(elements: seq<Element>, expiresAt: Option<Instant>)

  const ABSENT: Window := Window([], None)

  datatype Decision =
    | ScriptError                                                    // nothing to index: the limit is below 1
    | Decision(allowed: bool, remaining: int, resetAt: nat)

  // ------------------------------------------------------------------ Redis commands

  /** Without the elements ZREMRANGEBYSCORE key -inf cutoff removes. */
  function Above(elements: seq<Element>, cutoff: int): (kept: seq<Element>)
    ensures |kept| <= |elements|
  {
    if |elements| == 0 then []
    else
      var last := |elements| - 1;
      Above(elements[..last], cutoff) + if elements[last].score > cutoff then [elements[last]] else []
  }

  function Without(elements: seq<Element>, member: nat): (kept: seq<Element>)
    ensures |kept| <= |elements|
  {
    if |elements| == 0 then []
    else
      var last := |elements| - 1;
      Without(elements[..last], member) + if elements[last].member != member then [elements[last]] else []
  }

  function Insert(elements: seq<Element>, e: Element): seq<Element> {
    if |elements| == 0 || elements[|elements| - 1].score <= e.score then elements + [e]
    else Insert(elements[..|elements| - 1], e) + [elements[|elements| - 1]]
  }

  /** ZADD: an existing member is moved to its new score. */
  function Add(elements: seq<Element>, e: Element): seq<Element> {
    Insert(Without(elements, e.member), e)
  }

  predicate Expired(w: Window, at: Instant) {
    w.expiresAt.Some? && Later(at, w.expiresAt.value)
  }

  function Pruned(w: Window, cutoff: int): Window {
    var kept := Above(w.elements, cutoff);
    if |kept| == 0 then ABSENT else w.(elements := kept)
  }

  /** ZADD followed by EXPIRE; an expiry of zero seconds deletes the key. */
  function Admitted(w: Window, at: Instant, member: nat, window: nat): Window {
    if window == 0 then ABSENT
    else Window(Add(w.elements, Element(at.second, member)), Some(Plus(at, window)))
  }

  /** What the script counts: the key's elements inside the window. */
  function Counted(w: Window, at: Instant, window: nat): Window {
    if Expired(w, at) then ABSENT else Pruned(w, at.second - window)
  }

  /** The Lua script, on the key's content. */
  function SlidingWindow(w: Window, at: Instant, member: nat, limit: int, window: nat): (Window, Decision) {
    var now := at.second;
    var pruned := Counted(w, at, window);
    var count := |pruned.elements|;
    if count < limit then (Admitted(pruned, at, member, window), Decision(true, limit - count - 1, now + window))
    else if count == 0 then (pruned, ScriptError)
    else (pruned, Decision(false, 0, pruned.elements[0].score + window))
  }

  // ----------------------------------------------------------------- the mutable store

  /** The part of a Redis server the limiter uses. */
  class Redis {
    var sets: map<string, seq<Element>>
    var expiry: map<string, Instant>

    /** A key holds a non-empty set, and only a key can have an expiry. */
    ghost predicate Valid()
      reads this
    {
      && (forall key | key in sets :: sets[key] != [])
      && (forall key | key in expiry :: key in sets)
    }

    ghost function At(key: string): Window
      reads this
    {
      Window(if key in sets then sets[key] else [], if key in expiry then Some(expiry[key]) else None)
    }

    constructor ()
      ensures Valid() && forall key :: At(key) == ABSENT
    {
      sets, expiry := map[], map[];
    }

    method Delete(key: string)
      requires Valid()
      modifies this
      ensures Valid() && At(key) == ABSENT
      ensures forall other | other != key :: At(other) == old(At(other))
    {
      sets := sets - {key};
      expiry := expiry - {key};
    }

    /** Redis drops an expired key when it is next touched. */
    method Touch(key: string, at: Instant)
      requires Valid()
      modifies this
      ensures Valid() && At(key) == if Expired(old(At(key)), at) then ABSENT else old(At(key))
      ensures forall other | other != key :: At(other) == old(At(other))
    {
      if key in expiry && Later(at, expiry[key]) {
        Delete(key);
      }
    }

    method ZRemRangeByScore(key: string, cutoff: int)
      requires Valid()
      modifies this
      ensures Valid()
      ensures At(key) == Pruned(old(At(key)), cutoff)
      ensures forall other | other != key :: At(other) == old(At(other))
    {
      if key in sets {
        var kept := Above(sets[key], cutoff);
        if kept == [] {
          Delete(key);
        } else {
          sets := sets[key := kept];
        }
      }
    }

    method ZAdd(key: string, score: nat, member: nat)
      requires Valid()
      modifies this
      ensures Valid()
      ensures At(key) == old(At(key)).(elements := Add(old(At(key)).elements, Element(score, member)))
      ensures forall other | other != key :: At(other) == old(At(other))
    {
      var elements := if key in sets then sets[key] else [];
      InsertNotEmpty(Without(elements, member), Element(score, member));
      sets := sets[key := Add(elements, Element(score, member))];
    }

    method Expire(key: string, at: Instant, window: nat)
      requires Valid() && key in sets
      modifies this
      ensures Valid()
      ensures At(key) == if window == 0 then ABSENT else old(At(key)).(expiresAt := Some(Plus(at, window)))
      ensures forall other | other != key :: At(other) == old(At(other))
    {
      if window == 0 {
        Delete(key);
      } else {
        expiry := expiry[key := Plus(at, window)];
      }
    }

    /** The first two commands of the script, and Redis dropping an expired key. */
    method Prune(key: string, at: Instant, window: nat) returns (count: nat)
      requires Valid()
      modifies this
      ensures Valid() && At(key) == Counted(old(At(key)), at, window) && count == |At(key).elements|
      ensures forall other | other != key :: At(other) == old(At(other))
    {
      Touch(key, at);
      ZRemRangeByScore(key, at.second - window);
      count := if key in sets then |sets[key]| else 0;
    }

    /** RedisRateLimiter.check: one atomic run of the script. */
    method Check(key: string, at: Instant, member: nat, limit: int, window: nat) returns (d: Decision)
      requires Valid()
      modifies this
      ensures Valid()
      ensures At(key) == SlidingWindow(old(At(key)), at, member, limit, window).0
      ensures d == SlidingWindow(old(At(key)), at, member, limit, window).1
      ensures forall other | other != key :: At(other) == old(At(other))
    {
      var now := at.second;
      var count := Prune(key, at, window);
      if count >= limit {
        if key !in sets {
          return ScriptError;
        }
        return Decision(false, 0, sets[key][0].score + window);
      }
      ZAdd(key, now, member);
      Expire(key, at, window);
      return Decision(true, limit - count - 1, now + window);
    }
  }

  lemma InsertNotEmpty(elements: seq<Element>, e: Element)
    ensures Insert(elements, e) != []
  {
  }

  // ------------------------------------------------------------- sequences of requests

  /** One call of check on the key. */
  datatype Request = Request(at: Instant, member: nat)

  function Now(r: Request): nat { r.at.second }

  /** The clock never goes back, and no two requests share a member. */
  predicate Orderly(requests: seq<Request>) {
    forall i, j | 0 <= i < j < |requests| ::
      !Later(requests[i].at, requests[j].at) && requests[i].member != requests[j].member
  }

  /** What the key holds after the requests. */
  function After(requests: seq<Request>, limit: int, window: nat): Window {
    if requests == [] then ABSENT
    else
      var n := |requests| - 1;
      SlidingWindow(After(requests[..n], limit, window), requests[n].at, requests[n].member, limit, window).0
  }

  /** The decision on request number i. */
  function Decided(requests: seq<Request>, limit: int, window: nat, i: nat): Decision
    requires i < |requests|
  {
    SlidingWindow(After(requests[..i], limit, window), requests[i].at, requests[i].member, limit, window).1
  }

  /** The checker that forgets nothing: admitted while fewer than `limit` of the earlier
      admitted requests lie inside the window. */
  predicate HistoryAdmits(requests: seq<Request>, limit: int, window: nat, i: nat)
    requires i < |requests|
    decreases i, 1
  {
    AdmittedAfter(requests, limit, window, i, Now(requests[i]) - window) < limit
  }

  /** How many of the first n requests the history checker admits later than the cutoff. */
  function AdmittedAfter(requests: seq<Request>, limit: int, window: nat, n: nat, cutoff: int): nat
    requires n <= |requests|
    decreases n, 0
  {
    if n == 0 then 0
    else
      AdmittedAfter(requests, limit, window, n - 1, cutoff)
      + if Now(requests[n - 1]) > cutoff && HistoryAdmits(requests, limit, window, n - 1) then 1 else 0
  }

  // ------------------------------------------------------------------ the pruned set

  lemma {:induction false} AboveSplit(a: seq<Element>, b: seq<Element>, cutoff: int)
    ensures Above(a + b, cutoff) == Above(a, cutoff) + Above(b, cutoff)
  {
    if b == [] {
      assert a + b == a;
    } else {
      var last := |b| - 1;
      assert (a + b)[..|a + b| - 1] == a + b[..last];
      AboveSplit(a, b[..last], cutoff);
    }
  }

  /** Pruning twice is pruning once with the later cutoff. */
  lemma {:induction false} AboveTwice(a: seq<Element>, c: int, d: int)
    requires c <= d
    ensures Above(Above(a, c), d) == Above(a, d)
  {
    if a != [] {
      var last := |a| - 1;
      AboveTwice(a[..last], c, d);
      if a[last].score > c {
        AboveSplit(Above(a[..last], c), [a[last]], d);
        assert Above([a[last]], d) == if a[last].score > d then [a[last]] else [];
      } else {
        assert Above(a, c) == Above(a[..last], c);
      }
    }
  }

  /** The filter keeps elements of the set, all of them later than the cutoff. */
  lemma {:induction false} AboveKeeps(a: seq<Element>, c: int)
    ensures forall k | 0 <= k < |Above(a, c)| :: Above(a, c)[k].score > c && Above(a, c)[k] in a
  {
    if a != [] {
      AboveKeeps(a[..|a| - 1], c);
    }
  }

  predicate Sorted(a: seq<Element>) {
    forall i, j | 0 <= i < j < |a| :: a[i].score <= a[j].score
  }

  lemma {:induction false} AboveSorted(a: seq<Element>, c: int)
    requires Sorted(a)
    ensures Sorted(Above(a, c))
  {
    if a != [] {
      AboveSorted(a[..|a| - 1], c);
      AboveKeeps(a[..|a| - 1], c);
    }
  }

  /** A cutoff below every score removes nothing. */
  lemma {:induction false} AboveAll(a: seq<Element>, c: int)
    requires forall k | 0 <= k < |a| :: a[k].score > c
    ensures Above(a, c) == a
  {
    if a != [] {
      var last := |a| - 1;
      AboveAll(a[..last], c);
      assert a[..last] + [a[last]] == a;
    }
  }

  lemma {:induction false} AboveNone(a: seq<Element>, c: int)
    requires forall k | 0 <= k < |a| :: a[k].score <= c
    ensures Above(a, c) == []
  {
    if a != [] {
      AboveNone(a[..|a| - 1], c);
    }
  }

  /** A cutoff at or above the first score removes something. */
  lemma AboveFewer(a: seq<Element>, c: int)
    requires a != [] && a[0].score <= c
    ensures |Above(a, c)| < |a|
  {
  }

  lemma {:induction false} WithoutAbsent(a: seq<Element>, member: nat)
    requires forall k | 0 <= k < |a| :: a[k].member != member
    ensures Without(a, member) == a
  {
    if a != [] {
      var last := |a| - 1;
      WithoutAbsent(a[..last], member);
      assert a[..last] + [a[last]] == a;
    }
  }

  // -------------------------------------------------------------------- the invariant

  predicate IsRequest(e: Element, requests: seq<Request>) {
    exists i | 0 <= i < |requests| :: e == Element(Now(requests[i]), requests[i].member)
  }

  predicate AreRequests(elements: seq<Element>, requests: seq<Request>) {
    forall k | 0 <= k < |elements| :: IsRequest(elements[k], requests)
  }

  /** The expiry lies beyond the window of every element. */
  predicate ExpiryOk(w: Window, window: nat) {
    && (w.elements != [] ==> w.expiresAt.Some?)
    && (w.expiresAt.Some? ==>
          forall k | 0 <= k < |w.elements| :: w.elements[k].score + window <= w.expiresAt.value.second)
  }

  /** For every cutoff still to come, the set counts what the history counts. */
  ghost predicate CountsOk(elements: seq<Element>, requests: seq<Request>, limit: int, window: nat) {
    forall cutoff: int | requests != [] ==> cutoff >= Now(requests[|requests| - 1]) - window ::
      |Above(elements, cutoff)| == AdmittedAfter(requests, limit, window, |requests|, cutoff)
  }

  /** What the key holds after orderly requests: the admitted ones of the last window. */
  ghost predicate WindowOk(w: Window, requests: seq<Request>, limit: int, window: nat) {
    && Sorted(w.elements)
    && |w.elements| <= limit
    && AreRequests(w.elements, requests)
    && ExpiryOk(w, window)
    && CountsOk(w.elements, requests, limit, window)
  }

  /** The clock has not gone back, and the member is new. */
  predicate Follows(r: Request, requests: seq<Request>) {
    forall i | 0 <= i < |requests| :: !Later(requests[i].at, r.at) && requests[i].member != r.member
  }

  /** Expiry removes nothing that pruning would keep. */
  lemma ExpiryIsInvisible(w: Window, window: nat, at: Instant)
    requires ExpiryOk(w, window)
    ensures Counted(w, at, window).elements == Above(w.elements, at.second - window)
    ensures Counted(w, at, window) == Pruned(w, at.second - window)
  {
    if Expired(w, at) {
      AboveNone(w.elements, at.second - window);
    }
  }

  /** What the script counts: the admitted requests of the window, in order, all older
      than the new one. */
  ghost predicate PrunedOk(p: Window, requests: seq<Request>, limit: int, window: nat, r: Request) {
    var cutoff := Now(r) - window;
    && Sorted(p.elements) && ExpiryOk(p, window) && AreRequests(p.elements, requests)
    && |p.elements| <= limit
    && |p.elements| == AdmittedAfter(requests, limit, window, |requests|, cutoff)
    && (forall k | 0 <= k < |p.elements| :: cutoff < p.elements[k].score <= Now(r) && p.elements[k].member != r.member)
  }

  lemma PrunedIsOk(w: Window, requests: seq<Request>, limit: int, window: nat, r: Request)
    requires WindowOk(w, requests, limit, window) && Follows(r, requests)
    ensures PrunedOk(Counted(w, r.at, window), requests, limit, window, r)
  {
    var cutoff := Now(r) - window;
    ExpiryIsInvisible(w, window, r.at);
    AboveSorted(w.elements, cutoff);
    AboveKeeps(w.elements, cutoff);
    KeptAreRequests(w.elements, requests, cutoff);
    var kept := Above(w.elements, cutoff);
    forall k | 0 <= k < |kept| ensures cutoff < kept[k].score <= Now(r) && kept[k].member != r.member {
      assert IsRequest(kept[k], requests);
    }
  }

  lemma KeptAreRequests(elements: seq<Element>, requests: seq<Request>, cutoff: int)
    requires AreRequests(elements, requests)
    ensures AreRequests(Above(elements, cutoff), requests)
  {
  }

  lemma {:induction false} PrefixHistory(requests: seq<Request>, limit: int, window: nat, m: nat, n: nat, cutoff: int)
    requires n <= m <= |requests|
    ensures AdmittedAfter(requests[..m], limit, window, n, cutoff) == AdmittedAfter(requests, limit, window, n, cutoff)
    decreases n
  {
    if n > 0 {
      PrefixHistory(requests, limit, window, m, n - 1, cutoff);
      PrefixHistory(requests, limit, window, m, n - 1, Now(requests[n - 1]) - window);
    }
  }

  lemma {:induction false} AfterIsOk(requests: seq<Request>, limit: int, window: nat)
    requires Orderly(requests) && limit >= 1
    ensures WindowOk(After(requests, limit, window), requests, limit, window)
  {
    if requests != [] {
      var n := |requests| - 1;
      AfterIsOk(requests[..n], limit, window);
      assert requests[..n] + [requests[n]] == requests;
      StepIsOk(After(requests[..n], limit, window), requests[..n], limit, window, requests[n]);
    }
  }

  lemma StepIsOk(w: Window, requests: seq<Request>, limit: int, window: nat, r: Request)
    requires WindowOk(w, requests, limit, window) && Follows(r, requests) && limit >= 1
    ensures WindowOk(SlidingWindow(w, r.at, r.member, limit, window).0, requests + [r], limit, window)
  {
    PrunedIsOk(w, requests, limit, window, r);
    PrunedCounts(w, requests, limit, window, r);
    PrunedStepIsOk(Counted(w, r.at, window), requests, limit, window, r);
  }

  /** Pruning does not change any count still to come. */
  lemma PrunedCounts(w: Window, requests: seq<Request>, limit: int, window: nat, r: Request)
    requires ExpiryOk(w, window) && CountsOk(w.elements, requests, limit, window) && Follows(r, requests)
    ensures CountsFrom(Counted(w, r.at, window).elements, requests, limit, window, Now(r) - window)
  {
    ExpiryIsInvisible(w, window, r.at);
    forall cutoff | cutoff >= Now(r) - window
      ensures |Above(Above(w.elements, Now(r) - window), cutoff)|
           == AdmittedAfter(requests, limit, window, |requests|, cutoff)
    {
      AboveTwice(w.elements, Now(r) - window, cutoff);
    }
  }

  ghost predicate CountsFrom(elements: seq<Element>, requests: seq<Request>, limit: int, window: nat, from: int) {
    forall cutoff | cutoff >= from ::
      |Above(elements, cutoff)| == AdmittedAfter(requests, limit, window, |requests|, cutoff)
  }

  lemma PrunedStepIsOk(p: Window, requests: seq<Request>, limit: int, window: nat, r: Request)
    requires PrunedOk(p, requests, limit, window, r)
    requires CountsFrom(p.elements, requests, limit, window, Now(r) - window)
    ensures WindowOk(if |p.elements| < limit then Admitted(p, r.at, r.member, window) else p,
                     requests + [r], limit, window)
  {
    AddedIsRequest(p.elements, requests, r);
    if |p.elements| < limit {
      AdmittedWindow(p, requests, limit, window, r);
      AdmissionCounts(p, requests, limit, window, r);
      AdmissionIsOk(p, Admitted(p, r.at, r.member, window), requests, limit, window, r);
    } else {
      RejectionCounts(p, requests, limit, window, r);
    }
  }

  /** The history after one more request. */
  lemma HistoryGrows(requests: seq<Request>, limit: int, window: nat, r: Request, cutoff: int)
    ensures HistoryAdmits(requests + [r], limit, window, |requests|)
       <==> AdmittedAfter(requests, limit, window, |requests|, Now(r) - window) < limit
    ensures AdmittedAfter(requests + [r], limit, window, |requests| + 1, cutoff)
         == AdmittedAfter(requests, limit, window, |requests|, cutoff)
            + if Now(r) > cutoff && HistoryAdmits(requests + [r], limit, window, |requests|) then 1 else 0
  {
    var n := |requests|;
    assert (requests + [r])[..n] == requests;
    PrefixHistory(requests + [r], limit, window, n, n, cutoff);
    PrefixHistory(requests + [r], limit, window, n, n, Now(r) - window);
  }

  /** The new element goes to the end of the set. */
  lemma AdmittedWindow(p: Window, requests: seq<Request>, limit: int, window: nat, r: Request)
    requires PrunedOk(p, requests, limit, window, r)
    ensures Admitted(p, r.at, r.member, window)
         == if window == 0 then ABSENT
            else Window(p.elements + [Element(Now(r), r.member)], Some(Plus(r.at, window)))
    ensures window == 0 ==> p.elements == []
  {
    WithoutAbsent(p.elements, r.member);
  }

  lemma AdmissionCounts(p: Window, requests: seq<Request>, limit: int, window: nat, r: Request)
    requires PrunedOk(p, requests, limit, window, r) && |p.elements| < limit
    requires CountsFrom(p.elements, requests, limit, window, Now(r) - window)
    ensures var e := Element(Now(r), r.member);
            var added := if window == 0 then [] else p.elements + [e];
            CountsFrom(added, requests + [r], limit, window, Now(r) - window)
  {
    var e := Element(Now(r), r.member);
    var added := if window == 0 then [] else p.elements + [e];
    forall cutoff | cutoff >= Now(r) - window
      ensures |Above(added, cutoff)|
           == AdmittedAfter(requests + [r], limit, window, |requests| + 1, cutoff)
    {
      HistoryGrows(requests, limit, window, r, cutoff);
      AboveSplit(p.elements, [e], cutoff);
      assert Above([e], cutoff) == if e.score > cutoff then [e] else [];
    }
  }

  lemma AdmissionIsOk(p: Window, after: Window, requests: seq<Request>, limit: int, window: nat, r: Request)
    requires PrunedOk(p, requests, limit, window, r) && |p.elements| < limit
    requires after == if window == 0 then ABSENT
                      else Window(p.elements + [Element(Now(r), r.member)], Some(Plus(r.at, window)))
    requires CountsFrom(after.elements, requests + [r], limit, window, Now(r) - window)
    requires AreRequests(p.elements + [Element(Now(r), r.member)], requests + [r])
    ensures WindowOk(after, requests + [r], limit, window)
  {
  }

  lemma AddedIsRequest(elements: seq<Element>, requests: seq<Request>, r: Request)
    requires AreRequests(elements, requests)
    ensures AreRequests(elements, requests + [r])
    ensures AreRequests(elements + [Element(Now(r), r.member)], requests + [r])
  {
    var next := requests + [r];
    assert next[|requests|] == r;
    forall k | 0 <= k < |elements| ensures IsRequest(elements[k], next) {
      assert IsRequest(elements[k], requests);
      var i :| 0 <= i < |requests| && elements[k] == Element(Now(requests[i]), requests[i].member);
      assert next[i] == requests[i];
    }
    assert IsRequest(Element(Now(r), r.member), next);
  }

  lemma RejectionCounts(p: Window, requests: seq<Request>, limit: int, window: nat, r: Request)
    requires PrunedOk(p, requests, limit, window, r) && |p.elements| == limit
    requires CountsFrom(p.elements, requests, limit, window, Now(r) - window)
    ensures CountsOk(p.elements, requests + [r], limit, window)
  {
    forall cutoff | cutoff >= Now(r) - window
      ensures |Above(p.elements, cutoff)| == AdmittedAfter(requests + [r], limit, window, |requests| + 1, cutoff)
    {
      HistoryGrows(requests, limit, window, r, cutoff);
    }
  }

  // --------------------------------------------------------------------- main results

  /** Every decision of the pruned, expiring set is that of the full history. */
  lemma DecidesAsHistory(requests: seq<Request>, limit: int, window: nat, i: nat)
    requires Orderly(requests) && limit >= 1 && i < |requests|
    ensures Decided(requests, limit, window, i).Decision?
    ensures Decided(requests, limit, window, i).allowed <==> HistoryAdmits(requests, limit, window, i)
  {
    AfterIsOk(requests[..i], limit, window);
    DecidesFrom(After(requests[..i], limit, window), requests, limit, window, i);
  }

  lemma DecidesFrom(w: Window, requests: seq<Request>, limit: int, window: nat, i: nat)
    requires Orderly(requests) && limit >= 1 && i < |requests|
    requires WindowOk(w, requests[..i], limit, window)
    ensures var (after, d) := SlidingWindow(w, requests[i].at, requests[i].member, limit, window);
            && d.Decision?
            && (d.allowed <==> HistoryAdmits(requests, limit, window, i))
            && (d.allowed ==>
                  d.remaining == limit - AdmittedAfter(requests, limit, window, i, Now(requests[i]) - window) - 1)
            && (!d.allowed ==> FullUntil(after, limit, window, d.resetAt))
  {
    PrunedIsOk(w, requests[..i], limit, window, requests[i]);
    PrefixHistory(requests, limit, window, i, i, Now(requests[i]) - window);
  }

  /** A limit of at least 1 is needed for all of this: otherwise every call raises. */
  lemma {:induction false} LimitBelowOneRaises(requests: seq<Request>, limit: int, window: nat, i: nat)
    requires limit < 1 && i < |requests|
    ensures After(requests[..i], limit, window) == ABSENT
    ensures Decided(requests, limit, window, i) == ScriptError
  {
    if i > 0 {
      LimitBelowOneRaises(requests, limit, window, i - 1);
      AfterNext(requests, limit, window, i - 1);
    }
  }

  /** The decisions on all requests, in order. */
  function Decisions(requests: seq<Request>, limit: int, window: nat): (ds: seq<Decision>)
    ensures |ds| == |requests|
    ensures forall i | 0 <= i < |ds| :: ds[i] == Decided(requests, limit, window, i)
  {
    seq(|requests|, i requires 0 <= i < |requests| => Decided(requests, limit, window, i))
  }

  predicate Allows(d: Decision) {
    d.Decision? && d.allowed
  }

  /** How many of the first n requests were admitted with a time in (t - window, t]. */
  function AdmittedIn(requests: seq<Request>, ds: seq<Decision>, window: nat, n: nat, t: int): nat
    requires n <= |requests| == |ds|
  {
    if n == 0 then 0
    else
      AdmittedIn(requests, ds, window, n - 1, t)
      + if t - window < Now(requests[n - 1]) <= t && Allows(ds[n - 1]) then 1 else 0
  }

  /** No window of time ever admits more than the limit. */
  lemma WindowBound(requests: seq<Request>, limit: int, window: nat, t: int)
    requires Orderly(requests) && limit >= 1
    ensures AdmittedIn(requests, Decisions(requests, limit, window), window, |requests|, t) <= limit
  {
    forall i | 0 <= i < |requests|
      ensures Allows(Decisions(requests, limit, window)[i]) <==> HistoryAdmits(requests, limit, window, i)
    {
      DecidesAsHistory(requests, limit, window, i);
    }
    HistoryBound(requests, Decisions(requests, limit, window), limit, window, |requests|, t);
  }

  lemma {:induction false} HistoryBound(requests: seq<Request>, ds: seq<Decision>, limit: int, window: nat, n: nat, t: int)
    requires Orderly(requests) && limit >= 1 && n <= |requests| == |ds|
    requires forall i | 0 <= i < |ds| :: Allows(ds[i]) <==> HistoryAdmits(requests, limit, window, i)
    ensures AdmittedIn(requests, ds, window, n, t) <= limit
    ensures AdmittedIn(requests, ds, window, n, t) <= AdmittedAfter(requests, limit, window, n, t - window)
  {
    if n > 0 {
      HistoryBound(requests, ds, limit, window, n - 1, t);
      var now := Now(requests[n - 1]);
      if now <= t {
        LaterCutoff(requests, limit, window, n - 1, now - window, t - window);
      }
    }
  }

  lemma {:induction false} LaterCutoff(requests: seq<Request>, limit: int, window: nat, n: nat, c: int, d: int)
    requires n <= |requests| && c <= d
    ensures AdmittedAfter(requests, limit, window, n, d) <= AdmittedAfter(requests, limit, window, n, c)
  {
    if n > 0 {
      LaterCutoff(requests, limit, window, n - 1, c, d);
    }
  }

  // ------------------------------------------------------------------------ reset time

  /** Full until the reset time: the limit is reached and the oldest element leaves then. */
  predicate FullUntil(w: Window, limit: int, window: nat, reset: nat) {
    && Sorted(w.elements) && |w.elements| == limit && limit >= 1
    && w.elements[0].score + window == reset
    && ExpiryOk(w, window)
  }

  lemma PrunedFull(w: Window, limit: int, window: nat, reset: nat, r: Request)
    requires FullUntil(w, limit, window, reset)
    ensures Now(r) < reset ==> Counted(w, r.at, window) == w
    ensures Now(r) >= reset ==> |Counted(w, r.at, window).elements| < limit
  {
    ExpiryIsInvisible(w, window, r.at);
    FullAbove(w.elements, limit, window, reset, Now(r));
  }

  /** Before the reset nothing changes; at or after it the request is admitted. */
  lemma FullStep(w: Window, limit: int, window: nat, reset: nat, r: Request)
    requires FullUntil(w, limit, window, reset)
    ensures Now(r) < reset ==>
              SlidingWindow(w, r.at, r.member, limit, window) == (w, Decision(false, 0, reset))
    ensures Now(r) >= reset ==> Allows(SlidingWindow(w, r.at, r.member, limit, window).1)
  {
    PrunedFull(w, limit, window, reset, r);
  }

  lemma FullAbove(elements: seq<Element>, limit: int, window: nat, reset: nat, now: nat)
    requires Sorted(elements) && |elements| == limit && limit >= 1 && elements[0].score + window == reset
    ensures now < reset ==> Above(elements, now - window) == elements
    ensures now >= reset ==> |Above(elements, now - window)| < limit
  {
    if now < reset {
      AboveAll(elements, now - window);
    } else {
      AboveFewer(elements, now - window);
    }
  }

  lemma AfterNext(requests: seq<Request>, limit: int, window: nat, n: nat)
    requires n < |requests|
    ensures After(requests[..n + 1], limit, window)
         == SlidingWindow(After(requests[..n], limit, window), requests[n].at, requests[n].member, limit, window).0
  {
    assert requests[..n + 1][..n] == requests[..n];
  }

  lemma {:induction false} StaysFull(requests: seq<Request>, limit: int, window: nat, n: nat, i: nat, reset: nat)
    requires n <= i <= |requests|
    requires FullUntil(After(requests[..n], limit, window), limit, window, reset)
    requires forall j | n <= j < i :: Now(requests[j]) < reset
    ensures After(requests[..i], limit, window) == After(requests[..n], limit, window)
    decreases i
  {
    if n < i {
      StaysFull(requests, limit, window, n, i - 1, reset);
      AfterNext(requests, limit, window, i - 1);
      FullStep(After(requests[..i - 1], limit, window), limit, window, reset, requests[i - 1]);
    }
  }

  /** A rejection's reset time is exact: every request before it is rejected too, and the
      first one at or after it is admitted. */
  lemma ResetIsExact(requests: seq<Request>, limit: int, window: nat, n: nat, i: nat)
    requires Orderly(requests) && limit >= 1 && n < i < |requests|
    requires Decided(requests, limit, window, n).Decision? && !Decided(requests, limit, window, n).allowed
    requires forall j | n < j < i :: Now(requests[j]) < Decided(requests, limit, window, n).resetAt
    ensures Decided(requests, limit, window, i).Decision?
    ensures Decided(requests, limit, window, i).allowed
       <==> Now(requests[i]) >= Decided(requests, limit, window, n).resetAt
  {
    var reset := Decided(requests, limit, window, n).resetAt;
    RejectionIsFull(requests, limit, window, n);
    StaysFull(requests, limit, window, n + 1, i, reset);
    FullStep(After(requests[..i], limit, window), limit, window, reset, requests[i]);
  }

  lemma RejectionIsFull(requests: seq<Request>, limit: int, window: nat, n: nat)
    requires Orderly(requests) && limit >= 1 && n < |requests|
    requires Decided(requests, limit, window, n).Decision? && !Decided(requests, limit, window, n).allowed
    ensures FullUntil(After(requests[..n + 1], limit, window), limit, window, Decided(requests, limit, window, n).resetAt)
  {
    AfterNext(requests, limit, window, n);
    AfterIsOk(requests[..n], limit, window);
    DecidesFrom(After(requests[..n], limit, window), requests, limit, window, n);
  }

  // ------------------------------------------------------------- reset of an admission

  /** How many of the first n requests were admitted with a reset time later than t. */
  function Held(requests: seq<Request>, limit: int, window: nat, n: nat, t: int): nat
    requires n <= |requests|
  {
    if n == 0 then 0
    else
      var d := Decided(requests, limit, window, n - 1);
      Held(requests, limit, window, n - 1, t) + if Allows(d) && t < d.resetAt then 1 else 0
  }

  lemma {:induction false} HeldInHistory(requests: seq<Request>, limit: int, window: nat, n: nat, t: int)
    requires Orderly(requests) && limit >= 1 && n <= |requests|
    ensures Held(requests, limit, window, n, t) == AdmittedAfter(requests, limit, window, n, t - window)
  {
    if n > 0 {
      HeldInHistory(requests, limit, window, n - 1, t);
      DecidesAsHistory(requests, limit, window, n - 1);
    }
  }

  /** The decision when so many slots are taken: what is left after it, and nothing left
      after a rejection. */
  predicate DecidesBy(d: Decision, taken: nat, limit: int) {
    d.Decision? && (d.allowed <==> taken < limit) && d.remaining == if taken < limit then limit - taken - 1 else 0
  }

  lemma DecidesByHistory(requests: seq<Request>, limit: int, window: nat, i: nat)
    requires Orderly(requests) && limit >= 1 && i < |requests|
    ensures DecidesBy(Decided(requests, limit, window, i),
                      AdmittedAfter(requests, limit, window, i, Now(requests[i]) - window), limit)
  {
    DecidesAsHistory(requests, limit, window, i);
    if Decided(requests, limit, window, i).allowed {
      AdmissionCount(requests, limit, window, i);
    }
  }

  lemma TakenIs(requests: seq<Request>, limit: int, window: nat, i: nat, taken: nat)
    requires Orderly(requests) && limit >= 1 && i < |requests|
    requires taken == AdmittedAfter(requests, limit, window, i, Now(requests[i]) - window)
    ensures DecidesBy(Decided(requests, limit, window, i), taken, limit)
  {
    DecidesByHistory(requests, limit, window, i);
  }

  lemma HeldIs(requests: seq<Request>, limit: int, window: nat, i: nat, held: nat)
    requires Orderly(requests) && limit >= 1 && i < |requests|
    requires held == Held(requests, limit, window, i, Now(requests[i]))
    ensures held == AdmittedAfter(requests, limit, window, i, Now(requests[i]) - window)
  {
    HeldInHistory(requests, limit, window, i, Now(requests[i]));
  }

  /** An admission takes a slot exactly until its own reset time: a request is admitted iff
      fewer than `limit` of the earlier admissions have a reset time still to come. */
  lemma SlotsUntilReset(requests: seq<Request>, limit: int, window: nat, i: nat, held: nat)
    requires Orderly(requests) && limit >= 1 && i < |requests|
    requires held == Held(requests, limit, window, i, Now(requests[i]))
    ensures DecidesBy(Decided(requests, limit, window, i), held, limit)
  {
    HeldIs(requests, limit, window, i, held);
    TakenIs(requests, limit, window, i, held);
  }

  // ------------------------------------------------------------------- remaining slots

  /** After an admission, of the requests that follow in the same second exactly the first
      `remaining` are admitted. */
  lemma RemainingIsExact(requests: seq<Request>, limit: int, window: nat, n: nat, i: nat)
    requires Orderly(requests) && limit >= 1 && n < i < |requests| && window >= 1
    requires Decided(requests, limit, window, n).Decision? && Decided(requests, limit, window, n).allowed
    requires forall j | n < j <= i :: Now(requests[j]) == Now(requests[n])
    ensures Decided(requests, limit, window, i).Decision?
    ensures Decided(requests, limit, window, i).allowed
       <==> i - n <= Decided(requests, limit, window, n).remaining
  {
    DecidesAsHistory(requests, limit, window, i);
    AdmissionCount(requests, limit, window, n);
    SameSecond(requests, limit, window, n, i);
  }

  /** What `remaining` says, in terms of the history. */
  lemma AdmissionCount(requests: seq<Request>, limit: int, window: nat, n: nat)
    requires Orderly(requests) && limit >= 1 && n < |requests|
    requires Decided(requests, limit, window, n).Decision? && Decided(requests, limit, window, n).allowed
    ensures Decided(requests, limit, window, n).remaining
         == limit - AdmittedAfter(requests, limit, window, n, Now(requests[n]) - window) - 1
    ensures HistoryAdmits(requests, limit, window, n)
  {
    AfterIsOk(requests[..n], limit, window);
    DecidesFrom(After(requests[..n], limit, window), requests, limit, window, n);
  }

  lemma {:induction false} SameSecond(requests: seq<Request>, limit: int, window: nat, n: nat, i: nat)
    requires n < i < |requests| && limit >= 1 && window >= 1
    requires HistoryAdmits(requests, limit, window, n)
    requires forall j | n < j <= i :: Now(requests[j]) == Now(requests[n])
    ensures var cutoff := Now(requests[n]) - window;
            var before := AdmittedAfter(requests, limit, window, n, cutoff);
            AdmittedAfter(requests, limit, window, i, cutoff) == if before + (i - n) < limit then before + (i - n) else limit
    decreases i
  {
    if n + 1 < i {
      SameSecond(requests, limit, window, n, i - 1);
    }
  }
}
