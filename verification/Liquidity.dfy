/** clink/liquidity.py: soft reservations against the live receivable capacity, swept
    lazily, and what they mean as a history of reservations and releases. */
module Liquidity {
  import opened Wrappers
  import opened PyDict

  type Id = nat

  datatype Reservation = Reservation(key: Id, amountSat: int, expiresAt: real)

  type Reservations = Dict<Id, Reservation>

  function LiveSet(d: Reservations, now: real): set<Id> {
    set k | k in d.vals && d.vals[k].expiresAt > now
  }

  /** What `_sweep` leaves. */
  function Swept(d: Reservations, now: real): Reservations {
    Restrict(d, LiveSet(d, now))
  }

  /** The sum of the amounts of the keys in `ks`. */
  function SumOf(ks: seq<Id>, vals: map<Id, Reservation>): int {
    if ks == [] then 0
    else
      var last := ks[|ks| - 1];
      SumOf(ks[..|ks| - 1], vals) + if last in vals then vals[last].amountSat else 0
  }

  function Total(d: Reservations): int {
    SumOf(d.keys, d.vals)
  }

  function Available(d: Reservations, now: real, capacity: int): int {
    var free := capacity - Total(Swept(d, now));
    if free < 0 then 0 else free
  }

  /** Whether `try_reserve` succeeds; it reads the clock twice and the capacity once. */
  predicate Fits(d: Reservations, amountSat: int, now: real, again: real, capacity: int) {
    0 < amountSat <= Available(Swept(d, now), again, capacity)
  }

  class LiquidityReserver {
    var reservations: Reservations

    ghost predicate Valid() reads this { PyDict.Valid(reservations) }

    constructor ()
      ensures Valid() && reservations == Empty()
    {
      reservations := Empty();
    }

    method Sweep(now: real)
      requires Valid()
      modifies this
      ensures Valid() && reservations == Swept(old(reservations), now)
    {
      var d := reservations;
      ghost var dead := d.vals.Keys - LiveSet(d, now);
      var expired: seq<Id> := [];
      for i := 0 to |d.keys|
        invariant expired == Filter(d.keys[..i], dead)
      {
        KeyPresent(d, i);
        FilterStep(d.keys, dead, i);
        if d.vals[d.keys[i]].expiresAt <= now {
          expired := expired + [d.keys[i]];
        }
      }
      assert d.keys[..|d.keys|] == d.keys;
      reservations := PopAll(d, expired);
      assert d.vals.Keys - Elems(expired) == LiveSet(d, now) by {
        assert forall k :: k in d.vals ==> k in Elems(d.keys);
      }
    }

    method SumAmounts() returns (sum: int)
      ensures sum == Total(reservations)
    {
      sum := 0;
      var ks := reservations.keys;
      for i := 0 to |ks|
        invariant sum == SumOf(ks[..i], reservations.vals)
      {
        assert ks[..i + 1][..i] == ks[..i];
        if ks[i] in reservations.vals {
          sum := sum + reservations.vals[ks[i]].amountSat;
        }
      }
      assert ks[..|ks|] == ks;
    }

    method ReservedSat(now: real) returns (sum: int)
      requires Valid()
      modifies this
      ensures Valid() && reservations == Swept(old(reservations), now)
      ensures sum == Total(reservations)
    {
      Sweep(now);
      sum := SumAmounts();
    }

    method AvailableSat(now: real, capacity: int) returns (free: int)
      requires Valid()
      modifies this
      ensures Valid() && reservations == Swept(old(reservations), now)
      ensures free == Available(old(reservations), now, capacity)
    {
      Sweep(now);
      var reserved := SumAmounts();
      free := if capacity - reserved < 0 then 0 else capacity - reserved;
    }

    method TryReserve(key: Id, amountSat: int, expiresAt: real, now: real, again: real, capacity: int)
      returns (ok: bool)
      requires Valid()
      modifies this
      ensures Valid()
      ensures ok == Fits(old(reservations), amountSat, now, again, capacity)
      ensures reservations == Step(old(reservations), Reserve(key, amountSat, expiresAt, now, again, capacity))
    {
      Sweep(now);
      if amountSat <= 0 {
        return false;
      }
      var free := AvailableSat(again, capacity);
      if amountSat > free {
        return false;
      }
      PutValid(reservations, key, Reservation(key, amountSat, expiresAt));
      reservations := Put(reservations, key, Reservation(key, amountSat, expiresAt));
      return true;
    }

    method Release(key: Id)
      requires Valid()
      modifies this
      ensures Valid() && reservations == Drop(old(reservations), key)
    {
      RestrictValid(reservations, reservations.vals.Keys - {key});
      reservations := Drop(reservations, key);
    }
  }

  // ---- runs --------------------------------------------------------------------

  /** A call on the reserver; `Read` stands for reserved_sat, available_sat and active. */
  datatype Call =
    | Reserve(key: Id, amountSat: int, expiresAt: real, now: real, again: real, capacity: int)
    | Release(key: Id)
    | Read(now: real)

  function Step(d: Reservations, c: Call): Reservations {
    match c
    case Reserve(key, amount, exp, now, again, cap) =>
      if amount <= 0 then Swept(d, now)
      else
        var d1 := Swept(Swept(d, now), again);
        if Fits(d, amount, now, again, cap) then Put(d1, key, Reservation(key, amount, exp)) else d1
    case Release(key) => Drop(d, key)
    case Read(now) => Swept(d, now)
  }

  function Run(calls: seq<Call>): Reservations {
    if calls == [] then Empty() else Step(Run(calls[..|calls| - 1]), calls[|calls| - 1])
  }

  function Succeeded(d: Reservations, c: Call): bool {
    c.Reserve? && Fits(d, c.amountSat, c.now, c.again, c.capacity)
  }

  /** The specification: the last successful reservation of `key`, unless released since. */
  function Latest(calls: seq<Call>, key: Id): Option<Reservation> {
    if calls == [] then None
    else
      var init, c := calls[..|calls| - 1], calls[|calls| - 1];
      if c.Release? && c.key == key then None
      else if c.Reserve? && c.key == key && Succeeded(Run(init), c)
      then Some(Reservation(key, c.amountSat, c.expiresAt))
      else Latest(init, key)
  }

  /** The clock readings up to and including `c` are no later than `t`. */
  predicate ReadBy(c: Call, t: real) {
    match c
    case Reserve(_, _, _, now, again, _) => now <= t && again <= t
    case Release(_) => true
    case Read(now) => now <= t
  }

  ghost predicate AllReadBy(calls: seq<Call>, t: real) {
    forall i :: 0 <= i < |calls| ==> ReadBy(calls[i], t)
  }

  /** The lazily swept map refines the history: whatever was swept when, at any time `t`
      no earlier than the clock readings so far its live content is exactly the latest
      unreleased reservation of each key that has not expired. */
  lemma {:induction false} LiveContentIsHistory(calls: seq<Call>, t: real, key: Id)
    requires AllReadBy(calls, t)
    ensures key in Swept(Run(calls), t).vals <==> Latest(calls, key).Some? && Latest(calls, key).value.expiresAt > t
    ensures key in Swept(Run(calls), t).vals ==> Swept(Run(calls), t).vals[key] == Latest(calls, key).value
  {
    if calls != [] {
      var init, c := calls[..|calls| - 1], calls[|calls| - 1];
      assert ReadBy(c, t);
      LiveContentIsHistory(init, t, key);
    }
  }

  lemma {:induction false} RunValid(calls: seq<Call>)
    ensures Valid(Run(calls))
    ensures forall k :: k in Run(calls).vals ==> Run(calls).vals[k].amountSat > 0
  {
    if calls != [] {
      var init, c := calls[..|calls| - 1], calls[|calls| - 1];
      RunValid(init);
      StepValid(Run(init), c);
    }
  }

  lemma StepValid(d: Reservations, c: Call)
    requires Valid(d) && forall k :: k in d.vals ==> d.vals[k].amountSat > 0
    ensures Valid(Step(d, c)) && forall k :: k in Step(d, c).vals ==> Step(d, c).vals[k].amountSat > 0
  {
    match c
    case Reserve(key, amount, exp, now, again, _) =>
      RestrictValid(d, LiveSet(d, now));
      RestrictValid(Swept(d, now), LiveSet(Swept(d, now), again));
      PutValid(Swept(Swept(d, now), again), key, Reservation(key, amount, exp));
    case Release(key) => RestrictValid(d, d.vals.Keys - {key});
    case Read(now) => RestrictValid(d, LiveSet(d, now));
  }

  // ---- liquidity is never overcommitted -------------------------------------------

  ghost predicate Positive(d: Reservations) {
    forall k :: k in d.vals ==> d.vals[k].amountSat > 0
  }

  lemma {:induction false} SumCong(ks: seq<Id>, a: map<Id, Reservation>, b: map<Id, Reservation>)
    requires forall i :: 0 <= i < |ks| ==> ks[i] in a && ks[i] in b && a[ks[i]] == b[ks[i]]
    ensures SumOf(ks, a) == SumOf(ks, b)
  {
    if ks != [] { SumCong(ks[..|ks| - 1], a, b); }
  }

  /** Dropping entries never raises the total. */
  lemma {:induction false} FilteredSum(ks: seq<Id>, S: set<Id>, vals: map<Id, Reservation>)
    requires forall k :: k in vals ==> vals[k].amountSat > 0
    ensures SumOf(Filter(ks, S), vals) <= SumOf(ks, vals)
  {
    if ks != [] {
      var init, last := ks[..|ks| - 1], ks[|ks| - 1];
      FilteredSum(init, S, vals);
      assert (Filter(init, S) + [last])[..|Filter(init, S)|] == Filter(init, S);
    }
  }

  lemma SweepLowersTotal(d: Reservations, t: real)
    requires Valid(d) && Positive(d)
    ensures Total(Swept(d, t)) <= Total(d)
  {
    var S := LiveSet(d, t);
    FilteredSum(d.keys, S, d.vals);
    var ks := Filter(d.keys, S);
    forall i | 0 <= i < |ks| ensures ks[i] in S { assert ks[i] in ks; }
    SumCong(ks, d.vals, Swept(d, t).vals);
  }

  /** Writing one entry adds its amount at most, also when it overwrites a key. */
  lemma {:induction false} PutSum(ks: seq<Id>, vals: map<Id, Reservation>, k: Id, r: Reservation)
    requires NoDup(ks) && r.amountSat > 0
    requires forall x :: x in vals ==> vals[x].amountSat > 0
    ensures SumOf(ks, vals[k := r]) <= SumOf(ks, vals) + (if k in ks then r.amountSat else 0)
  {
    if ks != [] {
      var init, last := ks[..|ks| - 1], ks[|ks| - 1];
      PutSum(init, vals, k, r);
      assert ks == init + [last];
      MemberSnoc(init, last, k);
      assert last !in init;
    }
  }

  /** After every successful `try_reserve`, also one that overwrites a key, the live
      reservations add up to no more than the capacity read in that call, now or later. */
  lemma NeverOvercommitted(calls: seq<Call>, c: Call, t: real)
    requires Succeeded(Run(calls), c)
    ensures Total(Run(calls + [c])) <= c.capacity
    ensures Total(Swept(Run(calls + [c]), t)) <= c.capacity
  {
    var d := Run(calls);
    assert (calls + [c])[..|calls|] == calls;
    RunValid(calls);
    RunValid(calls + [c]);
    var d1 := Swept(Swept(d, c.now), c.again);
    SweptTwiceValid(d, c.now, c.again);
    var r := Reservation(c.key, c.amountSat, c.expiresAt);
    assert Run(calls + [c]) == Put(d1, c.key, r);
    assert c.amountSat <= c.capacity - Total(d1);
    PutTotal(d1, c.key, r);
    SweepLowersTotal(Run(calls + [c]), t);
  }

  lemma SweptTwiceValid(d: Reservations, now: real, again: real)
    requires Valid(d) && Positive(d)
    ensures Valid(Swept(Swept(d, now), again)) && Positive(Swept(Swept(d, now), again))
  {
    RestrictValid(d, LiveSet(d, now));
    RestrictValid(Swept(d, now), LiveSet(Swept(d, now), again));
  }

  lemma PutTotal(d: Reservations, k: Id, r: Reservation)
    requires Valid(d) && Positive(d) && r.amountSat > 0
    ensures Total(Put(d, k, r)) <= Total(d) + r.amountSat
  {
    PutSum(d.keys, d.vals, k, r);
    if k !in d.vals {
      assert k !in Elems(d.keys);
      assert (d.keys + [k])[..|d.keys|] == d.keys;
    }
  }
}
