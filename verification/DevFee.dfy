/** clink/devfee.py: the dev-fee ledger. Money is in millisats; the share of a payment is
    taken over exact rationals and floored, where the source goes through a float. */
module DevFee {
  import opened PyDict

  type Id = nat

  const MIN_PAYOUT_SAT := 1000
  const DAILY_CAP_SAT := 10000
  const ATTEMPT_INTERVAL_SEC := 86400
  const PENDING_MAX := 1000

  datatype Payment = Payment(ts: int, sat: int)

  datatype Ledger = Ledger(accrued: int, lastAttempt: int, payments: seq<Payment>, pending: Dict<Id, int>)

  const OPENED := Ledger(0, 0, [], Empty())

  /** `int(x)`: truncation toward zero. */
  function Trunc(x: real): int {
    if x >= 0.0 then x.Floor else -((-x).Floor)
  }

  lemma TruncNear(x: real)
    ensures x < Trunc(x) as real + 1.0
  {
  }

  lemma TruncMonotone(x: real, y: real)
    requires x <= y
    ensures Trunc(x) <= Trunc(y)
  {
  }

  function Max0(x: int): int { if x < 0 then 0 else x }

  function Min(a: int, b: int): int { if a < b then a else b }

  /** The msat `accrue` adds for a payment. */
  function Fee(receivedSat: int, enabled: bool, ratePercent: real): (msat: int)
    ensures 0 <= msat
  {
    if !enabled || receivedSat <= 0 || ratePercent <= 0.0 then 0
    else Max0(Trunc(receivedSat as real * 1000.0 * ratePercent / 100.0))
  }

  function Owed(l: Ledger): int { l.accrued / 1000 }

  /** The payments less than a day old at `now`, in order. */
  function Recent(ps: seq<Payment>, now: real): seq<Payment> {
    if ps == [] then []
    else
      var rest := Recent(ps[..|ps| - 1], now);
      if now - ps[|ps| - 1].ts as real < ATTEMPT_INTERVAL_SEC as real then rest + [ps[|ps| - 1]] else rest
  }

  function Sum(ps: seq<Payment>): int {
    if ps == [] then 0 else Sum(ps[..|ps| - 1]) + ps[|ps| - 1].sat
  }

  function CapRemaining(l: Ledger, now: real): int {
    Max0(DAILY_CAP_SAT - Sum(Recent(l.payments, now)))
  }

  function Payable(l: Ledger, now: real): int {
    Max0(Min(Owed(l), CapRemaining(l, now)))
  }

  /** `should_attempt`; the interval is checked at `now`, the cap looked at afterwards. */
  predicate ShouldAttempt(l: Ledger, enabled: bool, ignoreInterval: bool, now: real, windowAt: real) {
    Probes(l, enabled, ignoreInterval, now) && Payable(l, windowAt) >= MIN_PAYOUT_SAT
  }

  /** Whether `should_attempt` gets as far as the cap. */
  predicate Probes(l: Ledger, enabled: bool, ignoreInterval: bool, now: real) {
    enabled && Owed(l) >= MIN_PAYOUT_SAT &&
    (ignoreInterval || now >= (l.lastAttempt + ATTEMPT_INTERVAL_SEC) as real)
  }

  /** The ledger after `should_attempt` has looked at it: the cap check prunes the list. */
  function Probed(l: Ledger, enabled: bool, ignoreInterval: bool, now: real, windowAt: real): Ledger {
    if Probes(l, enabled, ignoreInterval, now) then l.(payments := Recent(l.payments, windowAt)) else l
  }

  function Stamps(d: Dict<Id, int>): map<Id, real> {
    map k | k in d.vals :: d.vals[k] as real
  }

  /** The hashes in insertion order. */
  function Hashes(d: Dict<Id, int>): (ks: seq<Id>)
    ensures Keyed(ks, Stamps(d))
  {
    var ks := Filter(d.keys, d.vals.Keys);
    assert forall i :: 0 <= i < |ks| ==> ks[i] in ks;
    ks
  }

  lemma AllHashes(d: Dict<Id, int>)
    requires Valid(d)
    ensures Hashes(d) == d.keys
  {
    FilterAll(d.keys, d.vals.Keys);
  }

  /** The oldest hashes beyond `PENDING_MAX`. */
  function Stale(d: Dict<Id, int>): seq<Id> {
    if |d.keys| <= PENDING_MAX then []
    else FirstN(StableSort(Hashes(d), Stamps(d)), |d.keys| - PENDING_MAX)
  }

  function Issued(d: Dict<Id, int>, rhash: Id, now: real): Dict<Id, int> {
    var d1 := Put(d, rhash, Trunc(now));
    Restrict(d1, d1.vals.Keys - Elems(Stale(d1)))
  }

  /** `record_success`: debit, prune at `now`, stamp the payment at `stamp` and the attempt at
      `last`. */
  function Succeeded(l: Ledger, sat: int, now: real, stamp: real, last: real): Ledger {
    Ledger(Max0(l.accrued - sat * 1000), Trunc(last),
           Recent(l.payments, now) + [Payment(Trunc(stamp), sat)], l.pending)
  }

  class DevFeeLedger {
    var ledger: Ledger

    ghost predicate Valid() reads this { PyDict.Valid(ledger.pending) }

    constructor (stored: Ledger)
      requires PyDict.Valid(stored.pending)
      ensures Valid() && ledger == stored
    {
      ledger := stored;
    }

    method SetAccrued(msat: int)
      modifies this
      ensures ledger == old(ledger).(accrued := Max0(msat))
    {
      ledger := ledger.(accrued := if 0 < msat then msat else 0);
    }

    method Accrue(receivedSat: int, enabled: bool, ratePercent: real) returns (feeMsat: int)
      modifies this
      ensures feeMsat == Fee(receivedSat, enabled, ratePercent)
      ensures ledger ==
        if feeMsat == 0 then old(ledger) else old(ledger).(accrued := Max0(old(ledger).accrued + feeMsat))
    {
      if !enabled || receivedSat <= 0 {
        return 0;
      }
      if ratePercent <= 0.0 {
        return 0;
      }
      feeMsat := Trunc(receivedSat as real * 1000.0 * ratePercent / 100.0);
      if feeMsat <= 0 {
        return 0;
      }
      SetAccrued(ledger.accrued + feeMsat);
    }

    method MarkIssued(rhash: Id, now: real)
      requires Valid()
      modifies this
      ensures Valid() && ledger == old(ledger).(pending := Issued(old(ledger).pending, rhash, now))
    {
      var pending := Put(ledger.pending, rhash, Trunc(now));
      PutValid(ledger.pending, rhash, Trunc(now));
      pending := EvictOldest(pending);
      ledger := ledger.(pending := pending);
    }

    static method EvictOldest(d: Dict<Id, int>) returns (left: Dict<Id, int>)
      requires PyDict.Valid(d)
      ensures PyDict.Valid(left) && left == Restrict(d, d.vals.Keys - Elems(Stale(d)))
    {
      hide Restrict, Elems, Hashes;
      AllHashes(d);
      var stale: seq<Id> := [];
      if |d.keys| > PENDING_MAX {
        stale := FirstN(StableSort(d.keys, Stamps(d)), |d.keys| - PENDING_MAX);
      }
      left := PopAll(d, stale);
    }

    method TakeIssued(rhash: Id) returns (ours: bool)
      requires Valid()
      modifies this
      ensures Valid() && ours == (rhash in old(ledger).pending.vals)
      ensures ledger == if ours then old(ledger).(pending := Drop(old(ledger).pending, rhash)) else old(ledger)
    {
      if rhash in ledger.pending.vals {
        RestrictValid(ledger.pending, ledger.pending.vals.Keys - {rhash});
        ledger := ledger.(pending := Drop(ledger.pending, rhash));
        return true;
      }
      return false;
    }

    /** `_payments_window`: prunes the stored list as it reads it. */
    method PaymentsWindow(now: real) returns (window: seq<Payment>)
      modifies this
      ensures window == Recent(old(ledger).payments, now)
      ensures ledger == old(ledger).(payments := window)
    {
      window := [];
      var raw := ledger.payments;
      for i := 0 to |raw|
        invariant window == Recent(raw[..i], now)
      {
        assert raw[..i + 1][..i] == raw[..i];
        if now - raw[i].ts as real < ATTEMPT_INTERVAL_SEC as real {
          window := window + [raw[i]];
        }
      }
      assert raw[..|raw|] == raw;
      if window != raw {
        ledger := ledger.(payments := window);
      }
    }

    method PaidLast24h(now: real) returns (sat: int)
      modifies this
      ensures sat == Sum(Recent(old(ledger).payments, now))
      ensures ledger == old(ledger).(payments := Recent(old(ledger).payments, now))
    {
      var window := PaymentsWindow(now);
      sat := 0;
      for i := 0 to |window|
        invariant sat == Sum(window[..i])
      {
        assert window[..i + 1][..i] == window[..i];
        sat := sat + window[i].sat;
      }
      assert window[..|window|] == window;
    }

    method PayableSat(now: real) returns (sat: int)
      modifies this
      ensures sat == Payable(old(ledger), now)
      ensures ledger == old(ledger).(payments := Recent(old(ledger).payments, now))
    {
      var paid := PaidLast24h(now);
      sat := Max0(Min(Owed(ledger), Max0(DAILY_CAP_SAT - paid)));
    }

    method ShouldAttemptNow(enabled: bool, ignoreInterval: bool, now: real, windowAt: real) returns (yes: bool)
      modifies this
      ensures yes == ShouldAttempt(old(ledger), enabled, ignoreInterval, now, windowAt)
      ensures ledger == Probed(old(ledger), enabled, ignoreInterval, now, windowAt)
    {
      if !enabled {
        return false;
      }
      if Owed(ledger) < MIN_PAYOUT_SAT {
        return false;
      }
      if !ignoreInterval && now < (ledger.lastAttempt + ATTEMPT_INTERVAL_SEC) as real {
        return false;
      }
      var payable := PayableSat(windowAt);
      return payable >= MIN_PAYOUT_SAT;
    }

    method RecordSuccess(sat: int, now: real, stamp: real, last: real)
      modifies this
      ensures ledger == Succeeded(old(ledger), sat, now, stamp, last)
    {
      SetAccrued(ledger.accrued - sat * 1000);
      var window := PaymentsWindow(now);
      window := window + [Payment(Trunc(stamp), sat)];
      ledger := ledger.(payments := window);
      ledger := ledger.(lastAttempt := Trunc(last));
    }

    method RecordFailure(now: real)
      modifies this
      ensures ledger == old(ledger).(lastAttempt := Trunc(now))
    {
      ledger := ledger.(lastAttempt := Trunc(now));
    }
  }

  // ---- amounts ----------------------------------------------------------------------

  /** The fee is the given percentage of the payment in msat, rounded down to a whole one, and
      nothing when the fee is off, the payment is not positive, or the rate is not. */
  lemma FeeExactly(receivedSat: int, enabled: bool, ratePercent: real)
    ensures var fee := Fee(receivedSat, enabled, ratePercent) as real;
      if enabled && receivedSat > 0 && ratePercent > 0.0
      then 100.0 * fee <= 1000.0 * receivedSat as real * ratePercent < 100.0 * (fee + 1.0)
      else fee == 0.0
  {
    if enabled && receivedSat > 0 && ratePercent > 0.0 {
      var x := receivedSat as real * 1000.0 * ratePercent / 100.0;
      Positive(receivedSat as real, ratePercent);
      assert 100.0 * x == 1000.0 * receivedSat as real * ratePercent;
      assert Fee(receivedSat, enabled, ratePercent) == x.Floor;
    }
  }

  lemma Positive(x: real, y: real)
    requires x > 0.0 && y > 0.0
    ensures x * 1000.0 * y / 100.0 > 0.0
  {
    assert x * y > 0.0;
  }

  /** The sats paid less than a day before `now`. */
  function PaidSince(ps: seq<Payment>, now: real): int {
    if ps == [] then 0
    else
      PaidSince(ps[..|ps| - 1], now) + if now - 86400.0 < ps[|ps| - 1].ts as real then ps[|ps| - 1].sat else 0
  }

  /** The window holds exactly the payments less than a day old, and their amounts. */
  lemma {:induction false} RecentIsDay(ps: seq<Payment>, now: real)
    ensures Sum(Recent(ps, now)) == PaidSince(ps, now)
    ensures forall p :: p in Recent(ps, now) <==> p in ps && now - 86400.0 < p.ts as real
  {
    if ps != [] {
      var init, p := ps[..|ps| - 1], ps[|ps| - 1];
      RecentIsDay(init, now);
      assert ps == init + [p];
      assert (Recent(init, now) + [p])[..|Recent(init, now)|] == Recent(init, now);
    }
  }

  /** The payable amount is the greatest that is owed and leaves the day within 10000 sats. */
  lemma PayableExactly(l: Ledger, now: real)
    ensures var sat := Payable(l, now);
      0 <= sat && (sat > 0 ==> 1000 * sat <= l.accrued && sat + PaidSince(l.payments, now) <= 10000) &&
      forall more :: more > sat ==> 1000 * more > l.accrued || more + PaidSince(l.payments, now) > 10000
  {
    RecentIsDay(l.payments, now);
    hide Recent, Sum, PaidSince;
  }

  /** An attempt is due exactly with the fee on, 1000 sats payable, and a day since the last attempt
      unless that is waived. */
  lemma AttemptDueExactly(l: Ledger, enabled: bool, ignoreInterval: bool, now: real, windowAt: real)
    ensures ShouldAttempt(l, enabled, ignoreInterval, now, windowAt) <==>
      enabled && (ignoreInterval || now >= l.lastAttempt as real + 86400.0) &&
      1000000 <= l.accrued && PaidSince(l.payments, windowAt) <= 9000
  {
    RecentIsDay(l.payments, windowAt);
    hide Recent, Sum, PaidSince;
  }

  // ---- the pending map --------------------------------------------------------------

  /** No stamp is later than `t`, and the map keeps its bound. */
  ghost predicate PendingBounded(d: Dict<Id, int>, t: real) {
    Valid(d) && |d.keys| <= PENDING_MAX && forall k :: k in d.vals ==> d.vals[k] <= Trunc(t)
  }

  /** `mark_issued` keeps at most `PENDING_MAX` hashes, and under a clock that does not
      run backwards it never forgets the hash it was called for. */
  lemma NewestIsRemembered(d: Dict<Id, int>, rhash: Id, now: real)
    requires PendingBounded(d, now)
    ensures PendingBounded(Issued(d, rhash, now), now)
    ensures rhash in Issued(d, rhash, now).vals && Issued(d, rhash, now).vals[rhash] == Trunc(now)
  {
    var d1 := Put(d, rhash, Trunc(now));
    PutValid(d, rhash, Trunc(now));
    hide Valid, Trunc, Stale;
    if |d1.keys| <= PENDING_MAX {
      NothingStale(d1);
    } else {
      OldestEvicted(d, d1, rhash);
    }
  }

  lemma NothingStale(d: Dict<Id, int>)
    requires Valid(d) && |d.keys| <= PENDING_MAX
    ensures Restrict(d, d.vals.Keys - Elems(Stale(d))) == d
  {
    RestrictAll(d);
    assert Stale(d) == [];
  }

  lemma OldestEvicted(d: Dict<Id, int>, d1: Dict<Id, int>, rhash: Id)
    requires Valid(d) && Valid(d1) && |d.keys| == PENDING_MAX && d1.keys == d.keys + [rhash]
    requires rhash in d1.vals && forall k :: k in d1.vals ==> d1.vals[k] <= d1.vals[rhash]
    ensures rhash !in Stale(d1)
    ensures var left := Restrict(d1, d1.vals.Keys - Elems(Stale(d1)));
      Valid(left) && |left.keys| <= PENDING_MAX
  {
    hide Valid, Stale, StableSort, Preceding;
    var oldest := OldestIs(d, d1, rhash);
    var left := Restrict(d1, d1.vals.Keys - Elems(Stale(d1)));
    assert rhash !in Stale(d1) by { assert Stale(d1) == [oldest] && rhash != oldest; }
    RestrictValid(d1, d1.vals.Keys - Elems(Stale(d1)));
    DictSize(left);
    DictSize(d1);
    assert Elems([oldest]) == {oldest};
    assert left.vals.Keys == d1.vals.Keys - {oldest};
  }

  /** What `mark_issued` evicts was stamped no later than anything it keeps. */
  lemma OldestGoFirst(d: Dict<Id, int>, gone: Id, kept: Id)
    requires Valid(d) && gone in Stale(d) && kept in d.vals && kept !in Stale(d)
    ensures gone in d.vals && d.vals[gone] <= d.vals[kept]
  {
    var key, n := Stamps(d), |d.keys| - PENDING_MAX;
    AllHashes(d);
    assert kept in Elems(d.keys);
    FirstByRank(d.keys, key, n, gone);
    FirstByRank(d.keys, key, n, kept);
    hide StableSort;
    assert gone in Elems(d.keys);
    if d.vals[kept] < d.vals[gone] {
      assert Preceding(d.keys, key, kept) <= Preceding(d.keys, key, gone);
      FewerOrSame(Preceding(d.keys, key, kept), Preceding(d.keys, key, gone));
    }
  }

  lemma FewerOrSame<T>(a: set<T>, b: set<T>)
    requires a <= b
    ensures |a| <= |b|
  {
    assert b == a + (b - a);
  }

  /** The one stale hash is another than the newest. */
  lemma OldestIs(d: Dict<Id, int>, d1: Dict<Id, int>, rhash: Id) returns (oldest: Id)
    requires Valid(d) && Valid(d1) && |d.keys| == PENDING_MAX && d1.keys == d.keys + [rhash]
    requires rhash in d1.vals && forall k :: k in d1.vals ==> d1.vals[k] <= d1.vals[rhash]
    ensures Stale(d1) == [oldest] && oldest in d1.vals && oldest != rhash
  {
    var key := Stamps(d1);
    AllHashes(d1);
    NewestRanksLast(d, d1, rhash);
    FirstByRank(d1.keys, key, 1, rhash);
    oldest := Stale(d1)[0];
    StableSortMembers(d1.keys, key, oldest);
    hide StableSort, Preceding;
    assert oldest in Elems(d1.keys);
    assert Stale(d1) == [oldest];
  }

  lemma NewestRanksLast(d: Dict<Id, int>, d1: Dict<Id, int>, rhash: Id)
    requires Valid(d) && Valid(d1) && d1.keys == d.keys + [rhash]
    requires forall k :: k in d1.vals ==> d1.vals[k] <= d1.vals[rhash]
    ensures Keyed(d1.keys, Stamps(d1)) && rhash in d1.keys
    ensures |Preceding(d1.keys, Stamps(d1), rhash)| == |d.keys|
  {
    AllHashes(d1);
    PrecedingLast(d.keys, rhash, Stamps(d1));
    assert Preceding(d1.keys, Stamps(d1), rhash) == Elems(d.keys);
    ElemsSize(d.keys);
  }
}
