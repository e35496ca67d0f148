/** clink/receipts.py: the persisted registry of payment receipts owed to payers.

    Hashes and keys are 32-byte values read as numbers; a time is a `real`; the clock
    reading a method takes from `_now_fn` is its `now` argument. */
module Receipts {
  import opened Wrappers
  import opened PyDict

  type Id = nat

  const RETRY_INTERVAL_SEC := 3600.0
  const RETRY_MAX_SEC := 864000.0
  const RESEND_OFFSETS_SEC: seq<real> := [10.0, 15.0, 30.0, 60.0, 120.0, 300.0]
  const FAIL_RETRY_BACKOFF_SEC: seq<real> := [5.0, 10.0, 20.0, 40.0, 80.0]
  const FAST_RETRY_WINDOW_SEC := 600.0
  const MAX_PENDING := 1000

  /** One stored entry. `firstSend` and `lastSend` are keys the stored entry may lack. */
  datatype Entry = Entry(
    payer: Id, req: Id, expiresAt: real, due: bool, dueSince: real,
    attempts: nat, lastAttempt: real,
    sends: nat, firstSend: Option<real>, lastSend: Option<real>)

  datatype Target = Target(rhash: Id, payer: Id, req: Id, attempts: nat, dueSince: real, sends: nat)

  type Entries = Dict<Id, Entry>

  function TargetOf(rhash: Id, e: Entry): Target {
    Target(rhash, e.payer, e.req, e.attempts, e.dueSince, e.sends)
  }

  function GetOr(o: Option<real>, default: real): real {
    if o.Some? then o.value else default
  }

  function Max(a: real, b: real): real { if a < b then b else a }

  // ---- what each operation does to the stored map -------------------------

  function Awaiting(payer: Id, req: Id, expiresAt: real): Entry {
    Entry(payer, req, expiresAt, false, 0.0, 0, 0.0, 0, None, None)
  }

  function ExpiryKeys(d: Entries): map<Id, real> {
    map k | k in d.vals :: d.vals[k].expiresAt
  }

  function UnowedSet(d: Entries): set<Id> {
    set k | k in d.vals && !d.vals[k].due
  }

  function OwedSet(d: Entries): set<Id> {
    set k | k in d.vals && d.vals[k].due
  }

  /** The awaiting-payment hashes, in insertion order. */
  function Unowed(d: Entries): (ks: seq<Id>)
    ensures Keyed(ks, ExpiryKeys(d))
  {
    var r := Filter(d.keys, UnowedSet(d));
    assert forall i :: 0 <= i < |r| ==> r[i] in r;
    r
  }

  /** What `_enforce_cap` evicts from `d`. */
  function Evicted(d: Entries): seq<Id> {
    if |d.keys| <= MAX_PENDING then []
    else
      FirstN(StableSort(Unowed(d), ExpiryKeys(d)), |d.keys| - MAX_PENDING)
  }

  function Capped(d: Entries): Entries {
    Restrict(d, d.vals.Keys - Elems(Evicted(d)))
  }

  function Marked(d: Entries, rhash: Id, now: real): Entries {
    if rhash in d.vals && !d.vals[rhash].due
    then Put(d, rhash, d.vals[rhash].(due := true, dueSince := now))
    else d
  }

  function Attempted(d: Entries, rhash: Id, now: real): Entries {
    if rhash !in d.vals then d
    else Put(d, rhash, d.vals[rhash].(attempts := d.vals[rhash].attempts + 1, lastAttempt := now))
  }

  function Sent(d: Entries, rhash: Id, now: real): Entries {
    if rhash !in d.vals then d
    else
      var e := d.vals[rhash];
      if e.sends + 1 > |RESEND_OFFSETS_SEC| then Drop(d, rhash)
      else Put(d, rhash, e.(sends := e.sends + 1, lastSend := Some(now),
                            firstSend := if e.sends == 0 then Some(now) else e.firstSend))
  }

  /** What `record_send` returns: the delay to the next scheduled re-broadcast. */
  function NextDelay(d: Entries, rhash: Id, now: real): Option<real> {
    if rhash !in d.vals || d.vals[rhash].sends + 1 > |RESEND_OFFSETS_SEC| then None
    else
      var e := d.vals[rhash];
      var first := if e.sends == 0 then now else GetOr(e.firstSend, now);
      Some(Max(0.0, first + RESEND_OFFSETS_SEC[e.sends] - now))
  }

  predicate Owed(d: Entries, rhash: Id) {
    rhash in d.vals && d.vals[rhash].due
  }

  /** What `fail_retry_delay` returns. */
  function FailRetryDelay(d: Entries, rhash: Id, failStreak: int, now: real): Option<real> {
    if !Owed(d, rhash) then None
    else
      var e := d.vals[rhash];
      var anchor := if e.sends > 0 then GetOr(e.firstSend, 0.0) else e.dueSince;
      if now - anchor >= FAST_RETRY_WINDOW_SEC then None
      else Some(Backoff(failStreak))
  }

  function Backoff(failStreak: int): real {
    var streak := if failStreak < 1 then 1 else failStreak;
    FAIL_RETRY_BACKOFF_SEC[if streak < |FAIL_RETRY_BACKOFF_SEC| then streak - 1 else |FAIL_RETRY_BACKOFF_SEC| - 1]
  }

  predicate Abandoned(e: Entry, now: real) {
    e.due && now - e.dueSince >= RETRY_MAX_SEC
  }

  predicate Expired(e: Entry, now: real) {
    !e.due && now >= e.expiresAt
  }

  function KeptBySweep(d: Entries, now: real): set<Id> {
    set k | k in d.vals && !Abandoned(d.vals[k], now) && !Expired(d.vals[k], now)
  }

  function ExpiredSet(d: Entries, now: real): set<Id> {
    set k | k in d.vals && Expired(d.vals[k], now)
  }

  function Swept(d: Entries, now: real): Entries {
    Restrict(d, KeptBySweep(d, now))
  }

  /** Whether the retry loop's throttle lets `e` through at `now`. */
  predicate Ripe(e: Entry, now: real) {
    if e.sends > 0 then
      var first := GetOr(e.firstSend, GetOr(e.lastSend, 0.0));
      var n := if e.sends < |RESEND_OFFSETS_SEC| then e.sends else |RESEND_OFFSETS_SEC|;
      now - first >= RESEND_OFFSETS_SEC[n - 1]
    else
      e.lastAttempt == 0.0 || now - e.lastAttempt >= RETRY_INTERVAL_SEC
  }

  function RipeSet(d: Entries, now: real): set<Id> {
    set k | k in d.vals && d.vals[k].due && Ripe(d.vals[k], now)
  }

  function TargetsOf(ks: seq<Id>, d: Entries): (r: seq<Target>)
    requires forall k :: k in ks ==> k in d.vals
  {
    if ks == [] then []
    else TargetsOf(ks[..|ks| - 1], d) + [TargetOf(ks[|ks| - 1], d.vals[ks[|ks| - 1]])]
  }

  lemma TargetsSnoc(ks: seq<Id>, k: Id, d: Entries)
    requires k in d.vals && forall x :: x in ks ==> x in d.vals
    ensures TargetsOf(ks + [k], d) == TargetsOf(ks, d) + [TargetOf(k, d.vals[k])]
  {
    assert (ks + [k])[..|ks|] == ks;
  }

  /** What `due_targets` returns: it sweeps a copy first, at `sweptAt`, and stores nothing. */
  function TargetsDue(d: Entries, sweptAt: real, now: real): seq<Target> {
    var kept := Swept(d, sweptAt);
    var ripe := RipeSet(kept, now);
    TargetsOf(Filter(kept.keys, ripe), kept)
  }

  function PendingSet(d: Entries, payer: Id, now: real): set<Id> {
    set k | k in d.vals && !d.vals[k].due && d.vals[k].payer == payer && now < d.vals[k].expiresAt
  }

  // ---- the registry object -------------------------------------------------

  class ReceiptRegistry {
    /** `storage[STORAGE_KEY]`: all the state there is, so a reload changes nothing. */
    var entries: Entries

    ghost predicate Valid() reads this { PyDict.Valid(entries) }

    constructor (stored: Entries)
      requires PyDict.Valid(stored)
      ensures Valid() && entries == stored
    {
      entries := stored;
    }

    method Remember(rhash: Id, payer: Id, req: Id, expiresAt: real) returns (evicted: seq<Id>)
      requires Valid()
      modifies this
      ensures Valid()
      ensures var d := Put(old(entries), rhash, Awaiting(payer, req, expiresAt));
              entries == Capped(d) && evicted == Evicted(d)
    {
      var d := Put(entries, rhash, Awaiting(payer, req, expiresAt));
      PutValid(entries, rhash, Awaiting(payer, req, expiresAt));
      RestrictValid(d, d.vals.Keys - Elems(Evicted(d)));
      d, evicted := EnforceCap(d);
      entries := d;
    }

    static method EnforceCap(d: Entries) returns (left: Entries, evicted: seq<Id>)
      requires PyDict.Valid(d)
      ensures left == Capped(d) && evicted == Evicted(d)
    {
      hide StableSort, NoDup, Filter;
      if |d.keys| <= MAX_PENDING {
        RestrictAll(d);
        left, evicted := d, [];
        return;
      }
      var prunable := Prunable(d);
      prunable := StableSort(prunable, ExpiryKeys(d));
      evicted := FirstN(prunable, |d.keys| - MAX_PENDING);
      left := PopAll(d, evicted);
    }

    static method Prunable(d: Entries) returns (prunable: seq<Id>)
      requires PyDict.Valid(d)
      ensures prunable == Unowed(d)
    {
      prunable := [];
      for i := 0 to |d.keys|
        invariant prunable == Filter(d.keys[..i], UnowedSet(d))
      {
        KeyPresent(d, i);
        FilterStep(d.keys, UnowedSet(d), i);
        if !d.vals[d.keys[i]].due {
          prunable := prunable + [d.keys[i]];
        }
      }
      assert d.keys[..|d.keys|] == d.keys;
    }

    method Forget(rhash: Id)
      requires Valid()
      modifies this
      ensures Valid()
      ensures entries == Drop(old(entries), rhash)
    {
      RestrictValid(entries, entries.vals.Keys - {rhash});
      entries := Drop(entries, rhash);
    }

    method MarkDue(rhash: Id, now: real) returns (target: Option<Target>)
      requires Valid()
      modifies this
      ensures Valid()
      ensures entries == Marked(old(entries), rhash, now)
      ensures target == if rhash in entries.vals then Some(TargetOf(rhash, entries.vals[rhash])) else None
    {
      if rhash !in entries.vals {
        return None;
      }
      var entry := entries.vals[rhash];
      if !entry.due {
        entry := entry.(due := true, dueSince := now);
        PutValid(entries, rhash, entry);
        entries := Put(entries, rhash, entry);
      }
      return Some(TargetOf(rhash, entry));
    }

    method RecordSend(rhash: Id, now: real) returns (delay: Option<real>)
      requires Valid()
      modifies this
      ensures Valid()
      ensures entries == Sent(old(entries), rhash, now)
      ensures delay == NextDelay(old(entries), rhash, now)
    {
      if rhash !in entries.vals {
        return None;
      }
      var entry := entries.vals[rhash];
      var sends := entry.sends + 1;
      if sends > |RESEND_OFFSETS_SEC| {
        RestrictValid(entries, entries.vals.Keys - {rhash});
        entries := Drop(entries, rhash);
        return None;
      }
      entry := entry.(sends := sends, lastSend := Some(now));
      if sends == 1 {
        entry := entry.(firstSend := Some(now));
      }
      PutValid(entries, rhash, entry);
      entries := Put(entries, rhash, entry);
      var first := GetOr(entry.firstSend, now);
      return Some(Max(0.0, first + RESEND_OFFSETS_SEC[sends - 1] - now));
    }

    method RecordAttempt(rhash: Id, now: real)
      requires Valid()
      modifies this
      ensures Valid()
      ensures entries == Attempted(old(entries), rhash, now)
    {
      if rhash in entries.vals {
        var entry := entries.vals[rhash];
        entry := entry.(attempts := entry.attempts + 1, lastAttempt := now);
        PutValid(entries, rhash, entry);
        entries := Put(entries, rhash, entry);
      }
    }

    method Sweep(now: real) returns (expiredUnpaid: seq<Id>)
      requires Valid()
      modifies this
      ensures Valid()
      ensures entries == Swept(old(entries), now)
      ensures expiredUnpaid == Filter(old(entries).keys, ExpiredSet(old(entries), now))
    {
      var kept;
      kept, expiredUnpaid := SweepLoop(entries, now);
      RestrictValid(entries, KeptBySweep(entries, now));
      entries := kept;
    }

    static method SweepLoop(d: Entries, now: real) returns (kept: Entries, expiredUnpaid: seq<Id>)
      requires PyDict.Valid(d)
      ensures kept == Swept(d, now)
      ensures expiredUnpaid == Filter(d.keys, ExpiredSet(d, now))
    {
      kept, expiredUnpaid := Empty(), [];
      RestrictValid(d, KeptBySweep(d, now));
      ghost var S := KeptBySweep(d, now);
      for i := 0 to |d.keys|
        invariant PyDict.Valid(kept) && kept.keys == Filter(d.keys[..i], S)
        invariant forall k :: k in kept.vals ==> k in d.vals && kept.vals[k] == d.vals[k]
        invariant expiredUnpaid == Filter(d.keys[..i], ExpiredSet(d, now))
      {
        var rhash := d.keys[i];
        KeyPresent(d, i);
        FilterStep(d.keys, S, i);
        FilterStep(d.keys, ExpiredSet(d, now), i);
        var entry := d.vals[rhash];
        if entry.due {
          if now - entry.dueSince >= RETRY_MAX_SEC {
            continue;
          }
        } else {
          if now >= entry.expiresAt {
            expiredUnpaid := expiredUnpaid + [rhash];
            continue;
          }
        }
        assert rhash !in kept.vals by {
          assert rhash !in d.keys[..i];
          assert rhash !in Elems(kept.keys);
        }
        PutValid(kept, rhash, entry);
        kept := Put(kept, rhash, entry);
      }
      assert d.keys[..|d.keys|] == d.keys;
      SameKeysSameDict(kept, Swept(d, now));
    }

    method DueTargets(sweptAt: real, now: real) returns (out: seq<Target>)
      requires Valid()
      ensures out == TargetsDue(entries, sweptAt, now)
    {
      var kept, _ := SweepLoop(entries, sweptAt);
      RestrictValid(entries, KeptBySweep(entries, sweptAt));
      out := [];
      ghost var S := RipeSet(kept, now);
      for i := 0 to |kept.keys|
        invariant forall k :: k in Filter(kept.keys[..i], S) ==> k in kept.vals
        invariant out == TargetsOf(Filter(kept.keys[..i], S), kept)
      {
        var rhash := kept.keys[i];
        KeyPresent(kept, i);
        FilterStep(kept.keys, S, i);
        TargetsSnoc(Filter(kept.keys[..i], S), rhash, kept);
        var entry := kept.vals[rhash];
        if !entry.due {
          continue;
        }
        if Ripe(entry, now) {
          out := out + [TargetOf(rhash, entry)];
        }
      }
      assert kept.keys[..|kept.keys|] == kept.keys;
    }

    method PendingCountFor(payer: Id, now: real) returns (n: nat)
      requires Valid()
      ensures n == |PendingSet(entries, payer, now)|
    {
      n := 0;
      ghost var S := PendingSet(entries, payer, now);
      for i := 0 to |entries.keys|
        invariant n == |Filter(entries.keys[..i], S)|
      {
        KeyPresent(entries, i);
        FilterStep(entries.keys, S, i);
        var e := entries.vals[entries.keys[i]];
        if !e.due && e.payer == payer && now < e.expiresAt {
          n := n + 1;
        }
      }
      assert entries.keys[..|entries.keys|] == entries.keys;
      FilterSize(entries, S);
    }
  }
}
