/** What the reservations add up to: availability is the capacity less the amount of every live
    reservation, one for one, and the live reservations of a history never exceed the capacity that
    the last success read. */
module Capacity {
  import opened Wrappers
  import opened PyDict
  import opened Liquidity

  ghost predicate Live(d: Reservations, k: Id, t: real) {
    k in d.vals && d.vals[k].expiresAt > t
  }

  // ---- totals, one reservation at a time ----------------------------------------------------

  lemma {:induction false} SumWithout(ks: seq<Id>, S: set<Id>, k: Id, vals: map<Id, Reservation>)
    requires NoDup(ks) && k in vals
    ensures SumOf(Filter(ks, S), vals) ==
      SumOf(Filter(ks, S - {k}), vals) + if k in ks && k in S then vals[k].amountSat else 0
  {
    hide Filter, SumOf;
    if ks == [] {
      NothingFiltered(S, vals);
      NothingFiltered(S - {k}, vals);
      return;
    }
    var init, last := ks[..|ks| - 1], ks[|ks| - 1];
    SumWithout(init, S, k, vals);
    assert ks == init + [last];
    MemberSnoc(init, last, k);
    assert last !in init;
    FilterSnoc(init, last, S);
    FilterSnoc(init, last, S - {k});
    SumSnoc(Filter(init, S), last, vals);
    SumSnoc(Filter(init, S - {k}), last, vals);
  }

  lemma NothingFiltered(S: set<Id>, vals: map<Id, Reservation>)
    ensures SumOf(Filter([], S), vals) == 0
  {
  }

  lemma SumSnoc(ks: seq<Id>, k: Id, vals: map<Id, Reservation>)
    ensures SumOf(ks + [k], vals) == SumOf(ks, vals) + if k in vals then vals[k].amountSat else 0
  {
    assert (ks + [k])[..|ks|] == ks;
  }

  lemma SweptTotal(d: Reservations, t: real)
    requires Valid(d)
    ensures Total(Swept(d, t)) == SumOf(Filter(d.keys, LiveSet(d, t)), d.vals)
  {
    var ks := Filter(d.keys, LiveSet(d, t));
    forall i | 0 <= i < |ks| ensures ks[i] in LiveSet(d, t) { assert ks[i] in ks; }
    SumCong(ks, d.vals, Swept(d, t).vals);
  }

  /** With nothing live, all of the capacity is available. */
  lemma NothingLive(d: Reservations, t: real, capacity: nat)
    requires Valid(d) && forall k :: k in d.vals ==> !Live(d, k, t)
    ensures Available(d, t, capacity) == capacity
  {
    SweptTotal(d, t);
    assert LiveSet(d, t) == {};
    NothingKept(d.keys);
  }

  lemma {:induction false} NothingKept(ks: seq<Id>)
    ensures Filter(ks, {}) == []
  {
    if ks != [] { NothingKept(ks[..|ks| - 1]); }
  }

  lemma DropTotal(d: Reservations, k: Id, t: real)
    requires Valid(d) && k in d.vals
    ensures Total(Swept(d, t)) == Total(Swept(Drop(d, k), t)) + if Live(d, k, t) then d.vals[k].amountSat else 0
  {
    hide Filter, SumOf, Total, Swept, Restrict;
    SweptTotal(d, t);
    SumWithout(d.keys, LiveSet(d, t), k, d.vals);
    IsKey(d, k);
    RestTotal(d, k, t);
  }

  lemma IsKey(d: Reservations, k: Id)
    requires Valid(d) && k in d.vals
    ensures k in d.keys && NoDup(d.keys)
  {
    assert k in Elems(d.keys);
  }

  lemma RestTotal(d: Reservations, k: Id, t: real)
    requires Valid(d) && k in d.vals
    ensures Total(Swept(Drop(d, k), t)) == SumOf(Filter(d.keys, LiveSet(d, t) - {k}), d.vals)
  {
    var S, rest := LiveSet(d, t), Drop(d, k);
    RestrictValid(d, d.vals.Keys - {k});
    SweptTotal(rest, t);
    FilterTwice(d.keys, d.vals.Keys - {k}, LiveSet(rest, t));
    assert (d.vals.Keys - {k}) * LiveSet(rest, t) == S - {k};
    var ks := Filter(d.keys, S - {k});
    forall i | 0 <= i < |ks| ensures ks[i] in S - {k} { assert ks[i] in ks; }
    hide Swept, Total, Filter;
    SumCong(ks, d.vals, rest.vals);
  }

  /** Releasing a live key frees exactly its amount: what was available with so much more capacity.
      Releasing any other key frees nothing. */
  lemma ReleaseFreesAmount(d: Reservations, k: Id, t: real, capacity: int)
    requires Valid(d)
    ensures Live(d, k, t) ==> Available(Drop(d, k), t, capacity) == Available(d, t, capacity + d.vals[k].amountSat)
    ensures !Live(d, k, t) ==> Available(Drop(d, k), t, capacity) == Available(d, t, capacity)
  {
    if k in d.vals {
      DropTotal(d, k, t);
    } else {
      assert d.vals.Keys - {k} == d.vals.Keys;
      RestrictAll(d);
    }
    hide Drop, Swept, Total;
  }

  /** Letting a key expire, and no other, frees exactly its amount. */
  lemma ExpiryFreesAmount(d: Reservations, k: Id, t: real, later: real, capacity: int)
    requires Valid(d) && Live(d, k, t) && !Live(d, k, later)
    requires forall x :: x in d.vals && x != k ==> (Live(d, x, t) <==> Live(d, x, later))
    ensures Available(d, later, capacity) == Available(d, t, capacity + d.vals[k].amountSat)
  {
    hide Swept, Total, Filter, SumOf;
    IsKey(d, k);
    SweptTotal(d, t);
    SweptTotal(d, later);
    assert LiveSet(d, later) == LiveSet(d, t) - {k};
    hide Valid, Live, LiveSet;
    SumWithout(d.keys, LiveSet(d, t), k, d.vals);
  }

  /** A successful reservation of a key that is not live takes exactly its amount. */
  lemma ReserveTakesAmount(d: Reservations, c: Call, t: real)
    requires Valid(d) && Positive(d) && Succeeded(d, c) && !Live(d, c.key, c.again)
    requires c.now <= c.again <= t < c.expiresAt
    ensures Available(Step(d, c), t, c.capacity) == Available(d, t, c.capacity) - c.amountSat
    ensures Available(d, t, c.capacity) >= c.amountSat
  {
    hide Swept, Total, Drop, Put, SumOf, Valid, Positive;
    var d1 := Swept(Swept(d, c.now), c.again);
    var r := Reservation(c.key, c.amountSat, c.expiresAt);
    SweptTwiceValid(d, c.now, c.again);
    SweptAgain(d, c.now, c.again);
    SweptAgain(d, c.again, t);
    SweepLowersTotal(d1, t);
    NotSweptIn(d, c.key, c.again);
    StepReserves(d, c);
    PutLive(d1, c.key, r, t);
  }

  lemma NotSweptIn(d: Reservations, k: Id, t: real)
    requires !Live(d, k, t)
    ensures k !in Swept(d, t).vals
  {
  }

  lemma StepReserves(d: Reservations, c: Call)
    requires Succeeded(d, c)
    ensures Step(d, c) == Put(Swept(Swept(d, c.now), c.again), c.key, Reservation(c.key, c.amountSat, c.expiresAt))
    ensures c.amountSat <= c.capacity - Total(Swept(Swept(d, c.now), c.again))
  {
  }

  lemma PutLive(d: Reservations, k: Id, r: Reservation, t: real)
    requires Valid(d) && k !in d.vals && r.expiresAt > t
    ensures Total(Swept(Put(d, k, r), t)) == Total(Swept(d, t)) + r.amountSat
  {
    PutValid(d, k, r);
    PutThenDrop(d, k, r);
    DropTotal(Put(d, k, r), k, t);
    hide Swept, Total, Drop;
  }

  lemma PutThenDrop(d: Reservations, k: Id, r: Reservation)
    requires Valid(d) && k !in d.vals
    ensures Drop(Put(d, k, r), k) == d
  {
    SameKeys(d, k);
    hide Filter, Valid, NoDup, Elems;
    var d' := Put(d, k, r);
    assert d'.vals.Keys - {k} == d.vals.Keys;
    assert Drop(d', k).keys == d.keys;
    assert Drop(d', k).vals == d.vals;
  }

  lemma SameKeys(d: Reservations, k: Id)
    requires Valid(d) && k !in d.vals
    ensures Filter(d.keys + [k], d.vals.Keys) == d.keys
  {
    FilterSnoc(d.keys, k, d.vals.Keys);
    FilterAll(d.keys, d.vals.Keys);
  }

  lemma SweptAgain(d: Reservations, t: real, later: real)
    requires t <= later
    ensures Swept(Swept(d, t), later) == Swept(d, later)
  {
    hide Filter, NoDup, Elems;
    var S, T := LiveSet(d, t), LiveSet(Swept(d, t), later);
    FilterTwice(d.keys, S, T);
    assert S * T == LiveSet(d, later);
    assert Swept(Swept(d, t), later).vals == Swept(d, later).vals;
  }

  // ---- over a history -------------------------------------------------------------------------

  /** The sum of `f` over a set. */
  ghost function SumOver(S: set<Id>, f: map<Id, int>): int
    requires S <= f.Keys
  {
    if S == {} then 0
    else
      var k :| k in S;
      f[k] + SumOver(S - {k}, f)
  }

  lemma {:induction false} SumOverRemove(S: set<Id>, f: map<Id, int>, k: Id)
    requires S <= f.Keys && k in S
    ensures SumOver(S, f) == f[k] + SumOver(S - {k}, f)
    decreases |S|
  {
    var x :| x in S && SumOver(S, f) == f[x] + SumOver(S - {x}, f);
    if x != k {
      SumOverRemove(S - {x}, f, k);
      SumOverRemove(S - {k}, f, x);
      assert S - {x} - {k} == S - {k} - {x};
    }
  }

  /** The amounts that are live at `t` by the history alone: for each key the last successful
      reservation that was not released and has not expired. */
  ghost function LiveAmounts(calls: seq<Call>, t: real): map<Id, int> {
    map k | k in Keys(calls) && Latest(calls, k).Some? && Latest(calls, k).value.expiresAt > t ::
      Latest(calls, k).value.amountSat
  }

  /** The keys that a history speaks of. */
  function Keys(calls: seq<Call>): set<Id> {
    set i | 0 <= i < |calls| && calls[i].Reserve? :: calls[i].key
  }

  lemma {:induction false} LatestIsKey(calls: seq<Call>, k: Id)
    ensures Latest(calls, k).Some? ==> k in Keys(calls)
  {
    if calls != [] {
      var init, c := calls[..|calls| - 1], calls[|calls| - 1];
      LatestIsKey(init, k);
      assert forall i :: 0 <= i < |init| ==> calls[i] == init[i];
      assert c.Reserve? ==> calls[|calls| - 1].key in Keys(calls);
      assert Keys(init) <= Keys(calls);
    }
  }

  /** The total of a dict is the sum of its amounts. */
  lemma {:induction false} TotalIsSum(ks: seq<Id>, vals: map<Id, Reservation>, f: map<Id, int>)
    requires NoDup(ks) && Elems(ks) <= vals.Keys && Elems(ks) <= f.Keys
    requires forall k :: k in ks ==> f[k] == vals[k].amountSat
    ensures SumOf(ks, vals) == SumOver(Elems(ks), f)
  {
    if ks == [] { return; }
    var init, last := ks[..|ks| - 1], ks[|ks| - 1];
    assert ks == init + [last];
    ElemsSnoc(init, last);
    assert last in Elems(ks) && last !in Elems(init);
    TotalIsSum(init, vals, f);
    SumOverRemove(Elems(ks), f, last);
    assert Elems(ks) - {last} == Elems(init);
  }

  /** The live reservations are the live amounts of the history. */
  lemma LiveIsHistory(calls: seq<Call>, t: real)
    requires AllReadBy(calls, t)
    ensures Valid(Swept(Run(calls), t))
    ensures Swept(Run(calls), t).vals.Keys == LiveAmounts(calls, t).Keys
    ensures forall k :: k in LiveAmounts(calls, t) ==>
      k in Swept(Run(calls), t).vals && Swept(Run(calls), t).vals[k].amountSat == LiveAmounts(calls, t)[k]
  {
    RunValid(calls);
    RestrictValid(Run(calls), LiveSet(Run(calls), t));
    hide Swept, Run, Valid;
    forall k ensures k in Swept(Run(calls), t).vals <==> k in LiveAmounts(calls, t)
      ensures k in LiveAmounts(calls, t) ==>
        k in Swept(Run(calls), t).vals && Swept(Run(calls), t).vals[k].amountSat == LiveAmounts(calls, t)[k]
    {
      LiveContentIsHistory(calls, t, k);
      LatestIsKey(calls, k);
    }
  }

  /** After every success, the live amounts of the history sum to at most the capacity that the call
      read: at the second reading, and at any later time. */
  lemma HistoryNeverOvercommitted(calls: seq<Call>, c: Call, t: real)
    requires Succeeded(Run(calls), c) && AllReadBy(calls + [c], t)
    ensures var live := LiveAmounts(calls + [c], t);
      SumOver(live.Keys, live) <= c.capacity
  {
    var all := calls + [c];
    NeverOvercommitted(calls, c, t);
    LiveIsHistory(all, t);
    var d, live := Swept(Run(all), t), LiveAmounts(all, t);
    hide Run, Swept, LiveAmounts;
    assert Elems(d.keys) == live.Keys;
    forall k | k in d.keys ensures live[k] == d.vals[k].amountSat { assert k in Elems(d.keys); }
    TotalIsSum(d.keys, d.vals, live);
  }
}
