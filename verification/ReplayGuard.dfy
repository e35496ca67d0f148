/** The front of `_dispatch` in clink/clink_plugin.py: the freshness window and the bounded
    cache of answered request ids, which together stop a request from being answered twice. */
module ReplayGuard {
  import opened Wrappers

  type Id = nat

  const CLINK_EVENT_KIND := 21001
  const MAX_REQUEST_AGE_SEC := 60
  const MAX_CLOCK_SKEW_SEC := 60
  const SEEN_EVENTS_MAX := 4096

  /** A delivered event: `expired` is None when its expiration tag does not parse, and
      `readable` tells whether it decrypts to a JSON object. */
  datatype Request = Request(id: Id, kind: int, pubkey: Id, createdAt: int, expired: Option<bool>, readable: bool)

  /** A delivery at integer time `now`; a ping is an event id the watchdog waits for. */
  datatype Arrival = Arrival(event: Request, now: int, isPing: bool)

  datatype Pass = Pass(id: Id, now: int)

  predicate Fresh(createdAt: int, now: int) {
    now - MAX_REQUEST_AGE_SEC <= createdAt <= now + MAX_CLOCK_SKEW_SEC
  }

  /** Whether the event gets as far as the replay guard. */
  predicate Admitted(a: Arrival, own: Id) {
    !a.isPing && a.event.kind == CLINK_EVENT_KIND && a.event.pubkey != own &&
    a.event.expired == Some(false) && Fresh(a.event.createdAt, a.now) && a.event.readable
  }

  /** Who gets to the guard: a readable request of another key, not expired, dated within a minute of
      now either way, and no ping the watchdog waits for. */
  lemma AdmittedExactly(a: Arrival, own: Id)
    ensures Admitted(a, own) <==>
      !a.isPing && a.event.kind == 21001 && a.event.pubkey != own && a.event.expired.Some? && !a.event.expired.value &&
      a.event.readable && -60 <= a.event.createdAt - a.now <= 60
  {
  }

  /** The last `n` elements of `s`. */
  function LastN<T>(s: seq<T>, n: nat): (r: seq<T>)
    ensures |r| == if |s| <= n then |s| else n
  {
    if s == [] || n == 0 then [] else LastN(s[..|s| - 1], n - 1) + [s[|s| - 1]]
  }

  /** `s` without its first element. */
  function PopFirst<T>(s: seq<T>): (r: seq<T>)
    requires s != []
    ensures |r| == |s| - 1
  {
    if |s| == 1 then [] else PopFirst(s[..|s| - 1]) + [s[|s| - 1]]
  }

  function Remembered(seen: seq<Id>, id: Id): seq<Id> {
    if id in seen then seen else LastN(seen + [id], SEEN_EVENTS_MAX)
  }

  lemma {:induction false} LastNPops<T>(s: seq<T>, n: nat)
    requires |s| > n
    ensures LastN(PopFirst(s), n) == LastN(s, n)
  {
    if n > 0 {
      var init := s[..|s| - 1];
      LastNPops(init, n - 1);
      assert (PopFirst(init) + [s[|s| - 1]])[..|s| - 2] == PopFirst(init);
    }
  }

  lemma {:induction false} LastNAll<T>(s: seq<T>, n: nat)
    requires |s| <= n
    ensures LastN(s, n) == s
  {
    if s != [] { LastNAll(s[..|s| - 1], n - 1); }
  }

  class SeenCache {
    /** `_seen_events`: the keys of an OrderedDict, oldest first. */
    var seen: seq<Id>

    constructor ()
      ensures seen == []
    {
      seen := [];
    }

    method AlreadySeen(id: Id) returns (yes: bool)
      modifies this
      ensures yes == (id in old(seen))
      ensures seen == Remembered(old(seen), id)
    {
      if id in seen {
        return true;
      }
      seen := seen + [id];
      ghost var full := seen;
      while |seen| > SEEN_EVENTS_MAX
        invariant LastN(seen, SEEN_EVENTS_MAX) == LastN(full, SEEN_EVENTS_MAX)
      {
        LastNPops(seen, SEEN_EVENTS_MAX);
        seen := PopFirst(seen);
      }
      LastNAll(seen, SEEN_EVENTS_MAX);
      return false;
    }

    /** The part of `_dispatch` that decides whether a request is answered. */
    method Accept(a: Arrival, own: Id) returns (answer: bool)
      modifies this
      ensures answer == (Admitted(a, own) && a.event.id !in old(seen))
      ensures seen == if Admitted(a, own) then Remembered(old(seen), a.event.id) else old(seen)
    {
      if a.isPing || a.event.kind != CLINK_EVENT_KIND || a.event.pubkey == own {
        return false;
      }
      if a.event.expired != Some(false) {
        return false;
      }
      if !Fresh(a.event.createdAt, a.now) || !a.event.readable {
        return false;
      }
      var dup := AlreadySeen(a.event.id);
      return !dup;
    }
  }

  // ---- sessions ---------------------------------------------------------------------

  /** The cache after a session's arrivals. */
  function SeenAfter(arrivals: seq<Arrival>, own: Id): seq<Id> {
    if arrivals == [] then []
    else
      var seen, a := SeenAfter(arrivals[..|arrivals| - 1], own), arrivals[|arrivals| - 1];
      if Admitted(a, own) then Remembered(seen, a.event.id) else seen
  }

  /** The requests that passed the guard, in order. */
  function Passes(arrivals: seq<Arrival>, own: Id): seq<Pass> {
    if arrivals == [] then []
    else
      var init, a := arrivals[..|arrivals| - 1], arrivals[|arrivals| - 1];
      if Admitted(a, own) && a.event.id !in SeenAfter(init, own)
      then Passes(init, own) + [Pass(a.event.id, a.now)]
      else Passes(init, own)
  }

  function Ids(ps: seq<Pass>): (r: seq<Id>)
    ensures |r| == |ps| && forall i :: 0 <= i < |ps| ==> r[i] == ps[i].id
  {
    if ps == [] then [] else Ids(ps[..|ps| - 1]) + [ps[|ps| - 1].id]
  }

  lemma IdsSnoc(ps: seq<Pass>, p: Pass)
    ensures Ids(ps + [p]) == Ids(ps) + [p.id]
  {
    assert (ps + [p])[..|ps|] == ps;
  }

  lemma {:induction false} LastNTwice<T>(s: seq<T>, x: T, n: nat)
    ensures LastN(LastN(s, n) + [x], n) == LastN(s + [x], n)
  {
    assert (LastN(s, n) + [x])[..|LastN(s, n)|] == LastN(s, n);
    assert (s + [x])[..|s|] == s;
    if n > 0 { LastNShorter(s, n); }
  }

  lemma {:induction false} LastNShorter<T>(s: seq<T>, n: nat)
    requires n > 0
    ensures LastN(LastN(s, n), n - 1) == LastN(s, n - 1)
  {
    if s != [] && n > 1 {
      var init := s[..|s| - 1];
      LastNShorter(init, n - 1);
      assert (LastN(init, n - 1) + [s[|s| - 1]])[..|LastN(init, n - 1)|] == LastN(init, n - 1);
    }
  }

  /** The cache is always the ids of the last `SEEN_EVENTS_MAX` requests that passed. */
  lemma {:induction false} CacheIsRecentPasses(arrivals: seq<Arrival>, own: Id)
    ensures SeenAfter(arrivals, own) == LastN(Ids(Passes(arrivals, own)), SEEN_EVENTS_MAX)
  {
    if arrivals != [] {
      var init, a := arrivals[..|arrivals| - 1], arrivals[|arrivals| - 1];
      CacheIsRecentPasses(init, own);
      IdsSnoc(Passes(init, own), Pass(a.event.id, a.now));
      LastNTwice(Ids(Passes(init, own)), a.event.id, SEEN_EVENTS_MAX);
    }
  }

  lemma {:induction false} LastNIndex<T>(s: seq<T>, n: nat)
    ensures forall i :: 0 <= i < |LastN(s, n)| ==> LastN(s, n)[i] == s[|s| - |LastN(s, n)| + i]
  {
    if s != [] && n > 0 { LastNIndex(s[..|s| - 1], n - 1); }
  }

  lemma {:induction false} InLastN<T>(s: seq<T>, n: nat, i: nat)
    requires i < |s| <= i + n
    ensures s[i] in LastN(s, n)
  {
    if i < |s| - 1 {
      InLastN(s[..|s| - 1], n - 1, i);
    }
  }

  /** Exactly when a request that has passed before gets past the guard again: it is
      admitted, and `SEEN_EVENTS_MAX` others have passed since each time it did. */
  lemma PassesAgainIffFlooded(arrivals: seq<Arrival>, a: Arrival, own: Id)
    requires Admitted(a, own)
    ensures a.event.id !in SeenAfter(arrivals, own) <==>
      forall i :: 0 <= i < |Passes(arrivals, own)| && Passes(arrivals, own)[i].id == a.event.id ==>
        |Passes(arrivals, own)| - 1 - i >= SEEN_EVENTS_MAX
  {
    hide Passes, SeenAfter, Ids, LastN, Admitted;
    var ps, seen := Passes(arrivals, own), SeenAfter(arrivals, own);
    var ids := Ids(ps);
    CacheIsRecentPasses(arrivals, own);
    LastNIndex(ids, SEEN_EVENTS_MAX);
    if a.event.id in seen {
      var j :| 0 <= j < |seen| && seen[j] == a.event.id;
      assert ps[|ps| - |seen| + j].id == a.event.id;
    } else {
      forall i | 0 <= i < |ps| && ps[i].id == a.event.id ensures |ps| - 1 - i >= SEEN_EVENTS_MAX {
        if |ps| - 1 - i < SEEN_EVENTS_MAX {
          InLastN(ids, SEEN_EVENTS_MAX, i);
        }
      }
    }
  }

  /** Deliveries in time order, an event's content being fixed by its id. */
  ghost predicate Session(arrivals: seq<Arrival>) {
    forall i, j :: 0 <= i < j < |arrivals| ==>
      arrivals[i].now <= arrivals[j].now &&
      (arrivals[i].event.id == arrivals[j].event.id ==> arrivals[i].event.createdAt == arrivals[j].event.createdAt)
  }

  /** No span of 120 seconds holds more than `SEEN_EVENTS_MAX` requests that pass. */
  ghost predicate NotFlooded(ps: seq<Pass>) {
    forall i, j :: 0 <= i <= j < |ps| && ps[j].now - ps[i].now <= MAX_REQUEST_AGE_SEC + MAX_CLOCK_SKEW_SEC ==>
      j - i + 1 <= SEEN_EVENTS_MAX
  }

  predicate PassedAs(a: Arrival, p: Pass, own: Id) {
    Admitted(a, own) && a.event.id == p.id && a.now == p.now
  }

  /** Every pass stems from an admitted arrival. */
  lemma {:induction false} PassesAreArrivals(arrivals: seq<Arrival>, own: Id, i: nat)
    requires i < |Passes(arrivals, own)|
    ensures exists k :: 0 <= k < |arrivals| && PassedAs(arrivals[k], Passes(arrivals, own)[i], own)
  {
    var init := arrivals[..|arrivals| - 1];
    if i < |Passes(init, own)| {
      PassesAreArrivals(init, own, i);
      var k :| 0 <= k < |init| && PassedAs(init[k], Passes(init, own)[i], own);
      assert arrivals[k] == init[k];
    } else {
      assert PassedAs(arrivals[|arrivals| - 1], Passes(arrivals, own)[i], own);
    }
  }

  ghost predicate AnsweredOnce(ps: seq<Pass>) {
    forall i, j :: 0 <= i < j < |ps| ==> ps[i].id != ps[j].id
  }

  /** In a session in which no 120-second span holds more than `SEEN_EVENTS_MAX` passes,
      no event id passes the guard twice. */
  lemma {:induction false} NoRequestAnsweredTwice(arrivals: seq<Arrival>, own: Id)
    requires Session(arrivals) && NotFlooded(Passes(arrivals, own))
    ensures AnsweredOnce(Passes(arrivals, own))
  {
    if arrivals != [] {
      var init, a := arrivals[..|arrivals| - 1], arrivals[|arrivals| - 1];
      var before, ps := Passes(init, own), Passes(arrivals, own);
      assert NotFlooded(before) by {
        forall i, j | 0 <= i <= j < |before| ensures ps[i] == before[i] && ps[j] == before[j] { }
      }
      NoRequestAnsweredTwice(init, own);
      if ps != before {
        forall i | 0 <= i < |before| ensures before[i].id != a.event.id {
          if before[i].id == a.event.id { SecondPassNeedsFlood(init, a, own, i); }
        }
      }
    }
  }

  /** Two passes of one id lie within the freshness window, so the flood between them does. */
  lemma SecondPassNeedsFlood(init: seq<Arrival>, a: Arrival, own: Id, i: nat)
    requires Session(init + [a]) && Admitted(a, own) && a.event.id !in SeenAfter(init, own)
    requires i < |Passes(init, own)| && Passes(init, own)[i].id == a.event.id
    ensures !NotFlooded(Passes(init, own))
  {
    var ps := Passes(init, own);
    PassesAgainIffFlooded(init, a, own);
    PassesAreArrivals(init, own, i);
    var last := |ps| - 1;
    PassesAreArrivals(init, own, last);
    var k :| 0 <= k < |init| && PassedAs(init[k], ps[i], own);
    var m :| 0 <= m < |init| && PassedAs(init[m], ps[last], own);
    assert (init + [a])[k] == init[k] && (init + [a])[m] == init[m] && (init + [a])[|init|] == a;
    assert ps[last].now - ps[i].now <= MAX_REQUEST_AGE_SEC + MAX_CLOCK_SKEW_SEC;
  }

  // ---- the bound is needed ---------------------------------------------------------------

  function Honest(id: Id, own: Id): Arrival {
    Arrival(Request(id, CLINK_EVENT_KIND, own + 1, 0, Some(false), true), 0, false)
  }

  /** Requests with ids 0 to n-1, all delivered in the same second. */
  function Flood(n: nat, own: Id): seq<Arrival> {
    if n == 0 then [] else Flood(n - 1, own) + [Honest(n - 1, own)]
  }

  lemma PassSnoc(init: seq<Arrival>, a: Arrival, own: Id)
    requires Admitted(a, own) && a.event.id !in SeenAfter(init, own)
    ensures Passes(init + [a], own) == Passes(init, own) + [Pass(a.event.id, a.now)]
  {
    hide Remembered, SeenAfter;
    assert (init + [a])[..|init|] == init;
  }

  lemma {:induction false} FloodPasses(n: nat, own: Id)
    ensures |Passes(Flood(n, own), own)| == n
    ensures forall i :: 0 <= i < n ==> Passes(Flood(n, own), own)[i] == Pass(i, 0)
  {
    hide Remembered, SeenAfter;
    if n > 0 {
      var init, a := Flood(n - 1, own), Honest(n - 1, own);
      FloodPasses(n - 1, own);
      assert Flood(n, own) == init + [a];
      hide Flood, Passes;
      PassesAgainIffFlooded(init, a, own);
      PassSnoc(init, a, own);
    }
  }

  /** With more distinct requests in one second than the cache holds, the first of them
      is answered a second time: the bound of the theorem cannot be raised. */
  lemma FloodReopensReplay(n: nat, own: Id)
    requires n > SEEN_EVENTS_MAX
    ensures Admitted(Honest(0, own), own)
    ensures |Passes(Flood(n, own), own)| == n && Passes(Flood(n, own), own)[0].id == Honest(0, own).event.id
    ensures Honest(0, own).event.id !in SeenAfter(Flood(n, own), own)
  {
    FloodPasses(n, own);
    PassesAgainIffFlooded(Flood(n, own), Honest(0, own), own);
  }
}
