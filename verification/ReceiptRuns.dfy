/** Safety of the receipt registry over whole runs: which entries the size cap takes,
    how long a receipt stays owed, and why a restart resumes the same schedule. */
module ReceiptRuns {
  import opened PyDict
  import opened Receipts

  // ---- the size cap ---------------------------------------------------------

  /** The un-owed entries that a stable sort by expiry puts before `k`. */
  ghost function ExpireBefore(d: Entries, k: Id): set<Id>
    requires k in UnowedSet(d) && k in Unowed(d)
  {
    Preceding(Unowed(d), ExpiryKeys(d), k)
  }

  lemma UnowedListed(d: Entries)
    requires Valid(d)
    ensures NoDup(Unowed(d)) && |Unowed(d)| == |UnowedSet(d)|
    ensures forall k :: k in Unowed(d) <==> k in UnowedSet(d)
  {
    FilterNoDup(d.keys, UnowedSet(d));
    FilterSize(d, UnowedSet(d));
    forall k | k in UnowedSet(d) ensures k in Unowed(d) { assert k in Elems(d.keys); }
  }

  /** An entry is evicted exactly when it is un-owed and fewer un-owed entries come
      before it than the map is over the cap. */
  lemma EvictedByRank(d: Entries, k: Id)
    requires Valid(d)
    ensures k in Evicted(d) <==>
      k in UnowedSet(d) && k in Unowed(d) && |ExpireBefore(d, k)| < |d.keys| - MAX_PENDING
  {
    if |d.keys| > MAX_PENDING {
      UnowedListed(d);
      FirstByRank(Unowed(d), ExpiryKeys(d), |d.keys| - MAX_PENDING, k);
    }
  }

  /** As many are evicted as the map is over the cap, or every un-owed one. */
  lemma EvictedSize(d: Entries)
    requires Valid(d)
    ensures |d.keys| > MAX_PENDING ==>
      |Elems(Evicted(d))| == if |d.keys| - MAX_PENDING <= |UnowedSet(d)| then |d.keys| - MAX_PENDING else |UnowedSet(d)|
  {
    if |d.keys| > MAX_PENDING {
      UnowedListed(d);
      FirstByRank(Unowed(d), ExpiryKeys(d), |d.keys| - MAX_PENDING, 0);
      ElemsSize(Evicted(d));
    }
  }

  lemma Smaller<T>(A: set<T>, B: set<T>)
    requires A <= B
    ensures |A| <= |B|
  {
    assert B == A + (B - A);
  }

  lemma EvictedExpiresFirst(d: Entries, e: Id, k: Id)
    requires Valid(d) && e in Evicted(d) && k in UnowedSet(d) && k !in Evicted(d)
    ensures e in UnowedSet(d) && d.vals[e].expiresAt <= d.vals[k].expiresAt
  {
    EvictedByRank(d, e);
    EvictedByRank(d, k);
    UnowedListed(d);
    if d.vals[k].expiresAt < d.vals[e].expiresAt {
      Smaller(ExpireBefore(d, k), ExpireBefore(d, e));
    }
  }

  /** The cap never touches an owed receipt nor the entries it keeps. */
  lemma CapKeepsOwed(d: Entries)
    ensures OwedSet(Capped(d)) == OwedSet(d)
    ensures Elems(Evicted(d)) <= UnowedSet(d)
    ensures UnowedSet(Capped(d)) == UnowedSet(d) - Elems(Evicted(d))
    ensures forall k :: k in Capped(d).vals ==> k in d.vals && Capped(d).vals[k] == d.vals[k]
  {
    forall k | k in Elems(Evicted(d)) ensures k in UnowedSet(d) {
      StableSortMembers(Unowed(d), ExpiryKeys(d), k);
    }
  }

  /** What `remember` may cost the others: exactly un-owed entries are evicted, and none
      that outlives a kept un-owed one. */
  lemma CapEvictsSoonestToExpire(d: Entries)
    requires Valid(d)
    ensures forall e, k :: e in Evicted(d) && k in UnowedSet(Capped(d)) ==>
      e in UnowedSet(d) && d.vals[e].expiresAt <= d.vals[k].expiresAt
  {
    CapKeepsOwed(d);
    assert forall k :: k in Evicted(d) <==> k in Elems(Evicted(d));
    forall e, k | e in Evicted(d) && k in UnowedSet(Capped(d))
      ensures e in UnowedSet(d) && d.vals[e].expiresAt <= d.vals[k].expiresAt
    {
      EvictedExpiresFirst(d, e, k);
    }
  }

  /** The map after `_enforce_cap` holds `MAX_PENDING` entries at most, or only owed ones. */
  lemma CapBoundsSize(d: Entries)
    requires Valid(d)
    ensures |d.keys| <= MAX_PENDING ==> Capped(d) == d
    ensures |d.keys| > MAX_PENDING ==>
      |Capped(d).keys| == MAX_PENDING || (UnowedSet(Capped(d)) == {} && |Capped(d).keys| == |OwedSet(d)| > MAX_PENDING)
  {
    if |d.keys| <= MAX_PENDING {
      RestrictAll(d);
    } else {
      CappedCount(d);
    }
  }

  lemma CappedCount(d: Entries)
    requires Valid(d) && |d.keys| > MAX_PENDING
    ensures |Capped(d).keys| == |OwedSet(d)| + |UnowedSet(Capped(d))|
    ensures |UnowedSet(Capped(d))| ==
      if |d.keys| - MAX_PENDING <= |UnowedSet(d)| then |UnowedSet(d)| - (|d.keys| - MAX_PENDING) else 0
    ensures |d.keys| == |OwedSet(d)| + |UnowedSet(d)|
  {
    hide *;
    var U, E, left := UnowedSet(d), Elems(Evicted(d)), Capped(d);
    assert |E| == (if |d.keys| - MAX_PENDING <= |U| then |d.keys| - MAX_PENDING else |U|) by {
      EvictedSize(d);
    }
    assert OwedSet(left) == OwedSet(d) by { CapKeepsOwed(d); }
    assert |U| == |UnowedSet(left)| + |E| by {
      CapKeepsOwed(d);
      DisjointSizes(UnowedSet(left), E, U);
    }
    assert |d.keys| == |OwedSet(d)| + |U| by { Counted(d); }
    assert |left.keys| == |OwedSet(left)| + |UnowedSet(left)| by {
      CappedValid(d);
      Counted(left);
    }
  }

  lemma CappedValid(d: Entries)
    requires Valid(d)
    ensures Valid(Capped(d))
  {
    RestrictValid(d, d.vals.Keys - Elems(Evicted(d)));
  }

  lemma Counted(d: Entries)
    requires Valid(d)
    ensures |d.keys| == |OwedSet(d)| + |UnowedSet(d)|
  {
    DictSize(d);
    DisjointSizes(OwedSet(d), UnowedSet(d), d.vals.Keys);
  }

  lemma DisjointSizes<T>(A: set<T>, B: set<T>, C: set<T>)
    requires A !! B && C == A + B
    ensures |C| == |A| + |B|
  {
  }

  /** The un-owed entries other than `k` that expire no later than it. */
  ghost function NoLaterThan(d: Entries, k: Id): set<Id>
    requires k in d.vals
  {
    set j | j in UnowedSet(d) && j != k && d.vals[j].expiresAt <= d.vals[k].expiresAt
  }

  /** `remember` evicts the very entry it inserted exactly when too few other un-owed
      entries expire no later than the new one to cover the overflow. */
  lemma RememberEvictsItself(d: Entries, rhash: Id, payer: Id, req: Id, expiresAt: real)
    requires Valid(d) && rhash !in d.vals
    ensures var d1 := Put(d, rhash, Awaiting(payer, req, expiresAt));
            |d1.keys| == |d.keys| + 1 &&
            (rhash in Evicted(d1) <==> |NoLaterThan(d1, rhash)| < |d1.keys| - MAX_PENDING)
  {
    var d1 := Put(d, rhash, Awaiting(payer, req, expiresAt));
    assert d1.keys == d.keys + [rhash];
    assert d1.keys[..|d.keys|] == d.keys;
    PutValid(d, rhash, Awaiting(payer, req, expiresAt));
    EvictedByRank(d1, rhash);
    NewestExpiresLast(d1, rhash);
  }

  lemma NewestExpiresLast(d: Entries, rhash: Id)
    requires Valid(d) && |d.keys| > 0 && d.keys[|d.keys| - 1] == rhash && rhash in UnowedSet(d)
    ensures rhash in Unowed(d)
    ensures ExpireBefore(d, rhash) == NoLaterThan(d, rhash)
  {
    var s := Filter(d.keys[..|d.keys| - 1], UnowedSet(d));
    UnowedListed(d);
    assert Unowed(d) == s + [rhash];
    PrecedingLast(s, rhash, ExpiryKeys(d));
    assert rhash !in s;
  }

  // ---- runs -------------------------------------------------------------------

  /** The registry's operations. A reload reads back the stored map. */
  datatype Op =
    | Remember(rhash: Id, payer: Id, req: Id, expiresAt: real)
    | Forget(rhash: Id)
    | MarkDue(rhash: Id)
    | RecordAttempt(rhash: Id)
    | RecordSend(rhash: Id)
    | Sweep
    | Reload

  datatype Event = Event(op: Op, now: real)

  function Step(d: Entries, e: Event): Entries {
    match e.op
    case Remember(r, payer, req, exp) => Capped(Put(d, r, Awaiting(payer, req, exp)))
    case Forget(r) => Drop(d, r)
    case MarkDue(r) => Marked(d, r, e.now)
    case RecordAttempt(r) => Attempted(d, r, e.now)
    case RecordSend(r) => Sent(d, r, e.now)
    case Sweep => Swept(d, e.now)
    case Reload => d
  }

  function Run(d: Entries, evs: seq<Event>): Entries {
    if evs == [] then d else Step(Run(d, evs[..|evs| - 1]), evs[|evs| - 1])
  }

  lemma RunSplit(d: Entries, a: seq<Event>, b: seq<Event>)
    ensures Run(d, a + b) == Run(Run(d, a), b)
  {
    if b == [] {
      assert a + b == a;
    } else {
      assert (a + b)[..|a + b| - 1] == a + b[..|b| - 1];
      RunSplit(d, a, b[..|b| - 1]);
    }
  }

  /** What holds of every stored entry: the defaults `record_send` and `due_targets`
      fall back on are never used, and no more than six sends are ever stored. */
  ghost predicate WellFormed(d: Entries) {
    forall k :: k in d.vals ==>
      d.vals[k].sends <= |RESEND_OFFSETS_SEC| && (d.vals[k].sends > 0 <==> d.vals[k].firstSend.Some?)
  }

  /** The map stays within the cap, except that owed receipts alone may exceed it. */
  ghost predicate WithinCap(d: Entries) {
    |d.keys| <= MAX_PENDING || UnowedSet(d) == {}
  }

  lemma StepKeepsWellFormed(d: Entries, e: Event)
    requires WellFormed(d)
    ensures WellFormed(Step(d, e))
  {
    if e.op.Remember? {
      CapKeepsOwed(Put(d, e.op.rhash, Awaiting(e.op.payer, e.op.req, e.op.expiresAt)));
    }
  }

  lemma StepKeepsValid(d: Entries, e: Event)
    requires Valid(d)
    ensures Valid(Step(d, e))
  {
    match e.op
    case Remember(r, payer, req, exp) =>
      var d1 := Put(d, r, Awaiting(payer, req, exp));
      PutValid(d, r, Awaiting(payer, req, exp));
      RestrictValid(d1, d1.vals.Keys - Elems(Evicted(d1)));
    case Forget(r) => RestrictValid(d, d.vals.Keys - {r});
    case RecordSend(r) => RestrictValid(d, d.vals.Keys - {r});
    case Sweep => RestrictValid(d, KeptBySweep(d, e.now));
    case _ =>
  }

  lemma {:induction false} RunKeepsValid(d: Entries, evs: seq<Event>)
    requires Valid(d)
    ensures Valid(Run(d, evs))
  {
    if evs != [] {
      RunKeepsValid(d, evs[..|evs| - 1]);
      StepKeepsValid(Run(d, evs[..|evs| - 1]), evs[|evs| - 1]);
    }
  }

  lemma StepKeepsWithinCap(d: Entries, e: Event)
    requires Valid(d) && WithinCap(d)
    ensures WithinCap(Step(d, e))
  {
    var d' := Step(d, e);
    StepKeepsValid(d, e);
    if e.op.Remember? {
      PutValid(d, e.op.rhash, Awaiting(e.op.payer, e.op.req, e.op.expiresAt));
      CapBoundsSize(Put(d, e.op.rhash, Awaiting(e.op.payer, e.op.req, e.op.expiresAt)));
    } else {
      assert UnowedSet(d') <= UnowedSet(d);
      assert d'.vals.Keys <= d.vals.Keys;
      Smaller(d'.vals.Keys, d.vals.Keys);
      DictSize(d);
      DictSize(d');
    }
  }

  /** In every reachable state at most six sends are stored per receipt, and the map
      holds at most `MAX_PENDING` entries unless every one of them is owed. */
  lemma {:induction false} ReachableIsBounded(evs: seq<Event>)
    ensures Valid(Run(Empty(), evs)) && WellFormed(Run(Empty(), evs)) && WithinCap(Run(Empty(), evs))
  {
    if evs != [] {
      var d := Run(Empty(), evs[..|evs| - 1]);
      ReachableIsBounded(evs[..|evs| - 1]);
      StepKeepsValid(d, evs[|evs| - 1]);
      StepKeepsWellFormed(d, evs[|evs| - 1]);
      StepKeepsWithinCap(d, evs[|evs| - 1]);
    }
  }

  // ---- how long a receipt stays owed -------------------------------------------

  /** No event takes `r` back or issues it again: payment hashes are fresh, and nothing
      in the plugin calls `forget`. */
  ghost predicate LeavesAlone(evs: seq<Event>, r: Id) {
    forall i :: 0 <= i < |evs| ==> !((evs[i].op.Remember? || evs[i].op.Forget?) && evs[i].op.rhash == r)
  }

  function SendsOf(evs: seq<Event>, r: Id): nat {
    if evs == [] then 0
    else SendsOf(evs[..|evs| - 1], r) + if evs[|evs| - 1].op == RecordSend(r) then 1 else 0
  }

  /** A sweep ran `RETRY_MAX_SEC` or more after the payment. */
  predicate GivenUp(evs: seq<Event>, paidAt: real) {
    evs != [] &&
    (GivenUp(evs[..|evs| - 1], paidAt) || LateSweep(evs[|evs| - 1], paidAt))
  }

  predicate LateSweep(e: Event, paidAt: real) {
    e.op.Sweep? && e.now - paidAt >= RETRY_MAX_SEC
  }

  /** A due receipt stays owed exactly until its seventh recorded send or a sweep ten
      days after payment, whatever else happens to the registry; until then its payment
      time, its addressee and its send count are what they should be. */
  lemma {:induction false} OwedExactlyUntil(d: Entries, evs: seq<Event>, r: Id)
    requires Owed(d, r) && d.vals[r].sends <= |RESEND_OFFSETS_SEC| && LeavesAlone(evs, r)
    ensures Owed(Run(d, evs), r) <==>
      d.vals[r].sends + SendsOf(evs, r) <= |RESEND_OFFSETS_SEC| && !GivenUp(evs, d.vals[r].dueSince)
    ensures r in Run(d, evs).vals ==>
      var e := Run(d, evs).vals[r];
      e.due && e.dueSince == d.vals[r].dueSince && e.payer == d.vals[r].payer && e.req == d.vals[r].req &&
      e.sends == d.vals[r].sends + SendsOf(evs, r)
  {
    if evs != [] {
      var init, last := evs[..|evs| - 1], evs[|evs| - 1];
      OwedExactlyUntil(d, init, r);
      assert LeavesAlone([last], r);
      OwedStep(Run(d, init), last, r);
    }
  }

  /** One step on the entry of `r`. */
  lemma OwedStep(d: Entries, ev: Event, r: Id)
    requires LeavesAlone([ev], r)
    ensures r !in d.vals ==> r !in Step(d, ev).vals
    ensures Owed(d, r) ==>
      (r in Step(d, ev).vals <==>
        !(ev.op == RecordSend(r) && d.vals[r].sends >= |RESEND_OFFSETS_SEC|) &&
        !LateSweep(ev, d.vals[r].dueSince))
    ensures Owed(d, r) && r in Step(d, ev).vals ==>
      var e, e' := d.vals[r], Step(d, ev).vals[r];
      e'.due && e'.dueSince == e.dueSince && e'.payer == e.payer && e'.req == e.req &&
      e'.sends == e.sends + (if ev.op == RecordSend(r) then 1 else 0) &&
      (ev.op != RecordSend(r) ==> e'.firstSend == e.firstSend && e'.lastSend == e.lastSend)
  {
    assert [ev][0] == ev;
    if ev.op.Remember? {
      var d1 := Put(d, ev.op.rhash, Awaiting(ev.op.payer, ev.op.req, ev.op.expiresAt));
      CapKeepsOwed(d1);
      assert Owed(d, r) ==> r in OwedSet(d1);
    }
  }

  /** From the settlement signal on: whatever interleaves, the receipt is owed from the
      payment to the seventh send, or to the end of the ten days. */
  lemma PaidReceiptStaysOwed(before: seq<Event>, r: Id, paidAt: real, after: seq<Event>)
    requires r in Run(Empty(), before).vals && !Owed(Run(Empty(), before), r)
    requires LeavesAlone(after, r)
    requires Run(Empty(), before).vals[r].sends + SendsOf(after, r) <= |RESEND_OFFSETS_SEC|
    requires forall i :: 0 <= i < |after| ==> after[i].now < paidAt + RETRY_MAX_SEC
    ensures Owed(Run(Empty(), before + [Event(MarkDue(r), paidAt)] + after), r)
    ensures Run(Empty(), before + [Event(MarkDue(r), paidAt)] + after).vals[r].dueSince == paidAt
  {
    var pay := [Event(MarkDue(r), paidAt)];
    var d := Run(Empty(), before + pay);
    assert (before + pay)[..|before|] == before;
    assert Owed(d, r) && d.vals[r].dueSince == paidAt;
    RunSplit(Empty(), before + pay, after);
    OwedExactlyUntil(d, after, r);
    NotGivenUpEarly(after, paidAt);
  }

  lemma NotGivenUpEarly(evs: seq<Event>, paidAt: real)
    requires forall i :: 0 <= i < |evs| ==> evs[i].now < paidAt + RETRY_MAX_SEC
    ensures !GivenUp(evs, paidAt)
  {
    if evs != [] { NotGivenUpEarly(evs[..|evs| - 1], paidAt); }
  }

  // ---- the re-broadcast schedule, in session and after a restart -----------------

  ghost predicate Listed(ts: seq<Target>, r: Id) {
    exists i :: 0 <= i < |ts| && ts[i].rhash == r
  }

  lemma TargetsOfMembers(ks: seq<Id>, d: Entries)
    requires forall k :: k in ks ==> k in d.vals
    ensures |TargetsOf(ks, d)| == |ks|
    ensures forall i :: 0 <= i < |ks| ==> TargetsOf(ks, d)[i] == TargetOf(ks[i], d.vals[ks[i]])
  {
  }

  /** Whether `due_targets` should list the receipt of `r`. */
  predicate IsDue(d: Entries, r: Id, sweptAt: real, now: real) {
    Owed(d, r) && !Abandoned(d.vals[r], sweptAt) && Ripe(d.vals[r], now)
  }

  /** The hashes `due_targets` walks out with, in order. */
  function DueKeys(d: Entries, sweptAt: real, now: real): seq<Id> {
    Filter(Swept(d, sweptAt).keys, RipeSet(Swept(d, sweptAt), now))
  }

  lemma DueKeysAreDue(d: Entries, sweptAt: real, now: real, r: Id)
    requires r in DueKeys(d, sweptAt, now)
    ensures IsDue(d, r, sweptAt, now) && r in Swept(d, sweptAt).vals && Swept(d, sweptAt).vals[r] == d.vals[r]
  {
    hide Ripe, Filter;
  }

  lemma DueIsKey(d: Entries, sweptAt: real, now: real, r: Id)
    requires Valid(d) && IsDue(d, r, sweptAt, now)
    ensures r in DueKeys(d, sweptAt, now)
  {
    var kept := Swept(d, sweptAt);
    RestrictValid(d, KeptBySweep(d, sweptAt));
    assert r in kept.vals;
    hide Filter, Ripe, Swept;
    assert r in Elems(kept.keys);
  }

  lemma DueKeysOnce(d: Entries, sweptAt: real, now: real)
    requires Valid(d)
    ensures NoDup(DueKeys(d, sweptAt, now))
  {
    hide Filter, RipeSet;
    RestrictValid(d, KeptBySweep(d, sweptAt));
    FilterNoDup(Swept(d, sweptAt).keys, RipeSet(Swept(d, sweptAt), now));
  }

  /** Each listed target is what is stored for the hash in its place. */
  lemma TargetsAreKeys(d: Entries, sweptAt: real, now: real)
    ensures var ts, ks := TargetsDue(d, sweptAt, now), DueKeys(d, sweptAt, now);
      |ts| == |ks| && forall i :: 0 <= i < |ks| ==> ks[i] in d.vals && ts[i] == TargetOf(ks[i], d.vals[ks[i]])
  {
    var ks := DueKeys(d, sweptAt, now);
    forall r | r in ks ensures r in d.vals && r in Swept(d, sweptAt).vals && Swept(d, sweptAt).vals[r] == d.vals[r] {
      DueKeysAreDue(d, sweptAt, now, r);
    }
    TargetsOfMembers(ks, Swept(d, sweptAt));
    hide Filter, Swept, Ripe, RipeSet, TargetsOf;
    assert forall i :: 0 <= i < |ks| ==> ks[i] in ks;
  }

  /** `due_targets` lists owed receipts only. */
  lemma ListedIsOwed(d: Entries, sweptAt: real, now: real, r: Id)
    requires Listed(TargetsDue(d, sweptAt, now), r)
    ensures IsDue(d, r, sweptAt, now)
  {
    hide TargetsDue, DueKeys, IsDue;
    TargetsAreKeys(d, sweptAt, now);
    var i :| 0 <= i < |TargetsDue(d, sweptAt, now)| && TargetsDue(d, sweptAt, now)[i].rhash == r;
    assert DueKeys(d, sweptAt, now)[i] == r;
    DueKeysAreDue(d, sweptAt, now, r);
  }

  lemma OwedIsListed(d: Entries, sweptAt: real, now: real, r: Id)
    requires Valid(d) && IsDue(d, r, sweptAt, now)
    ensures Listed(TargetsDue(d, sweptAt, now), r)
  {
    hide TargetsDue, DueKeys, IsDue, Valid;
    TargetsAreKeys(d, sweptAt, now);
    DueIsKey(d, sweptAt, now, r);
    var i :| 0 <= i < |DueKeys(d, sweptAt, now)| && DueKeys(d, sweptAt, now)[i] == r;
    assert TargetsDue(d, sweptAt, now)[i].rhash == r;
  }

  /** `due_targets` lists exactly the owed receipts that are not abandoned and whose
      throttle has elapsed, each once and with what is stored for it. */
  lemma TargetsDueExactly(d: Entries, sweptAt: real, now: real)
    requires Valid(d)
    ensures forall r :: Listed(TargetsDue(d, sweptAt, now), r) <==> IsDue(d, r, sweptAt, now)
    ensures forall i :: 0 <= i < |TargetsDue(d, sweptAt, now)| ==>
      var t := TargetsDue(d, sweptAt, now)[i]; t.rhash in d.vals && t == TargetOf(t.rhash, d.vals[t.rhash])
    ensures forall i, j :: 0 <= i < j < |TargetsDue(d, sweptAt, now)| ==>
      TargetsDue(d, sweptAt, now)[i].rhash != TargetsDue(d, sweptAt, now)[j].rhash
  {
    hide TargetsDue, DueKeys, IsDue, Valid, Listed;
    TargetsAreKeys(d, sweptAt, now);
    DueKeysOnce(d, sweptAt, now);
    forall r ensures Listed(TargetsDue(d, sweptAt, now), r) <==> IsDue(d, r, sweptAt, now) {
      if Listed(TargetsDue(d, sweptAt, now), r) { ListedIsOwed(d, sweptAt, now, r); }
      if IsDue(d, r, sweptAt, now) { OwedIsListed(d, sweptAt, now, r); }
    }
  }

  /** No owed receipt is ever parked for good: whatever was lost with the session, a tick
      an hour after its last attempt and five minutes after its first send lists it. */
  lemma TickPicksUpOwed(d: Entries, r: Id, sweptAt: real, t: real)
    requires Valid(d) && WellFormed(d) && Owed(d, r) && sweptAt < d.vals[r].dueSince + RETRY_MAX_SEC
    requires t >= d.vals[r].lastAttempt + RETRY_INTERVAL_SEC
    requires d.vals[r].firstSend.Some? ==> t >= d.vals[r].firstSend.value + RESEND_OFFSETS_SEC[5]
    ensures Listed(TargetsDue(d, sweptAt, t), r)
  {
    OwedIsListed(d, sweptAt, t, r);
  }

  /** A sweep at `t` keeps an owed entry for ten days from the payment and an un-owed one until its
      invoice expires, and returns exactly the un-owed ones that it drops. */
  lemma SweepDropsExactly(d: Entries, r: Id, t: real)
    requires Valid(d) && r in d.vals
    ensures r in Swept(d, t).vals <==>
      t < if d.vals[r].due then d.vals[r].dueSince + 864000.0 else d.vals[r].expiresAt
    ensures r in Filter(d.keys, ExpiredSet(d, t)) <==> !d.vals[r].due && r !in Swept(d, t).vals
  {
    assert r in Elems(d.keys);
    hide Filter;
  }

  /** No event attempts `r`. */
  ghost predicate Untried(evs: seq<Event>, r: Id) {
    forall i :: 0 <= i < |evs| ==> evs[i].op != RecordAttempt(r)
  }

  lemma {:induction false} LastAttemptFixed(d: Entries, evs: seq<Event>, r: Id)
    requires Owed(d, r) && LeavesAlone(evs, r) && Untried(evs, r)
    ensures r in Run(d, evs).vals ==> Owed(Run(d, evs), r) && Run(d, evs).vals[r].lastAttempt == d.vals[r].lastAttempt
  {
    if evs == [] { return; }
    var init, e := evs[..|evs| - 1], evs[|evs| - 1];
    LastAttemptFixed(d, init, r);
    assert LeavesAlone([e], r);
    OwedStep(Run(d, init), e, r);
    if Owed(Run(d, init), r) && r in Step(Run(d, init), e).vals { AttemptStep(Run(d, init), e, r); }
    hide Step;
  }

  lemma AttemptStep(d: Entries, e: Event, r: Id)
    requires Owed(d, r) && e.op != RecordAttempt(r) && LeavesAlone([e], r) && r in Step(d, e).vals
    ensures Step(d, e).vals[r].lastAttempt == d.vals[r].lastAttempt
  {
    assert [e][0] == e;
    if e.op.Remember? { CapKeepsOwed(Put(d, e.op.rhash, Awaiting(e.op.payer, e.op.req, e.op.expiresAt))); }
    hide Capped, Evicted;
  }

  /** An attempt at a receipt that was never sent keeps it off the list for an hour: whatever else
      happens, a tick lists it exactly from then on. One that was never attempted is listed at once. */
  lemma AttemptThrottles(d: Entries, r: Id, at: real, evs: seq<Event>, sweptAt: real, t: real)
    requires Valid(d) && Owed(d, r) && d.vals[r].sends == 0 && at > 0.0
    requires LeavesAlone(evs, r) && SendsOf(evs, r) == 0 && Untried(evs, r)
    requires sweptAt < d.vals[r].dueSince + RETRY_MAX_SEC
    requires forall i :: 0 <= i < |evs| ==> evs[i].now <= sweptAt
    ensures Listed(TargetsDue(Run(Attempted(d, r, at), evs), sweptAt, t), r) <==> t >= at + 3600.0
    ensures d.vals[r].lastAttempt == 0.0 ==> Listed(TargetsDue(d, sweptAt, t), r)
  {
    var d1 := Attempted(d, r, at);
    var d2 := Run(d1, evs);
    assert Owed(d1, r) && d1.vals[r].sends == 0;
    assert d1.vals[r].lastAttempt == at && d1.vals[r].dueSince == d.vals[r].dueSince;
    StepKeepsValid(d, Event(RecordAttempt(r), at));
    assert Step(d, Event(RecordAttempt(r), at)) == d1;
    RunKeepsValid(d1, evs);
    assert Owed(d2, r) && d2.vals[r].sends == 0 && d2.vals[r].dueSince == d.vals[r].dueSince by {
      NotGivenUpEarly(evs, d1.vals[r].dueSince);
      OwedExactlyUntil(d1, evs, r);
    }
    LastAttemptFixed(d1, evs, r);
    hide TargetsDue, Run, Attempted, Valid, Listed;
    TargetsDueExactly(d2, sweptAt, t);
    TargetsDueExactly(d, sweptAt, t);
  }

  /** The first accepted send of an owed receipt, once made, is never moved. */
  lemma {:induction false} FirstSendFixed(d: Entries, evs: seq<Event>, r: Id)
    requires Owed(d, r) && d.vals[r].sends > 0 && LeavesAlone(evs, r)
    ensures r in Run(d, evs).vals ==>
      Owed(Run(d, evs), r) && Run(d, evs).vals[r].firstSend == d.vals[r].firstSend && Run(d, evs).vals[r].sends > 0
  {
    if evs != [] {
      var init, last := evs[..|evs| - 1], evs[|evs| - 1];
      FirstSendFixed(d, init, r);
      assert LeavesAlone([last], r);
      OwedStep(Run(d, init), last, r);
    }
  }

  /** However late the broadcasts of a running schedule were, the wake-up computed after
      each one is the first send plus the next offset, or at once when that has passed. */
  lemma LateSendShiftsNothing(d: Entries, evs: seq<Event>, r: Id, sentAt: real)
    requires Owed(d, r) && 0 < d.vals[r].sends <= |RESEND_OFFSETS_SEC| && d.vals[r].firstSend.Some?
    requires LeavesAlone(evs, r) && r in Run(d, evs).vals
    ensures var e := Run(d, evs).vals[r];
      var delay := NextDelay(Run(d, evs), r, sentAt);
      e.sends == d.vals[r].sends + SendsOf(evs, r) <= |RESEND_OFFSETS_SEC| &&
      (delay.Some? <==> e.sends < |RESEND_OFFSETS_SEC|) &&
      (delay.Some? ==> sentAt + delay.value == Max(sentAt, d.vals[r].firstSend.value + RESEND_OFFSETS_SEC[e.sends]))
  {
    FirstSendFixed(d, evs, r);
    OwedExactlyUntil(d, evs, r);
    if Run(d, evs).vals[r].sends < |RESEND_OFFSETS_SEC| { DelayFromFirst(Run(d, evs), r, sentAt); }
  }

  lemma DelayFromFirst(d: Entries, r: Id, sentAt: real)
    requires r in d.vals && d.vals[r].sends < |RESEND_OFFSETS_SEC|
    requires d.vals[r].sends > 0 ==> d.vals[r].firstSend.Some?
    ensures NextDelay(d, r, sentAt).Some?
    ensures var first := if d.vals[r].sends == 0 then sentAt else d.vals[r].firstSend.value;
      sentAt + NextDelay(d, r, sentAt).value == Max(sentAt, first + RESEND_OFFSETS_SEC[d.vals[r].sends])
  {
  }

  lemma RipeFromFirst(e: Entry, t: real)
    requires 0 < e.sends <= |RESEND_OFFSETS_SEC| && e.firstSend.Some?
    ensures Ripe(e, t) <==> t >= e.firstSend.value + RESEND_OFFSETS_SEC[e.sends - 1]
  {
  }

  /** The restart path agrees with the in-session tail: after any later events that send
      nothing more for `r`, the redelivery tick picks `r` up exactly from the moment the
      delay returned by the last `record_send` has elapsed. */
  lemma RestartResumesSchedule(d: Entries, r: Id, sentAt: real, evs: seq<Event>, sweptAt: real, t: real)
    requires Valid(d) && Owed(d, r) && d.vals[r].sends < |RESEND_OFFSETS_SEC|
    requires d.vals[r].sends > 0 ==> d.vals[r].firstSend.Some?
    requires LeavesAlone(evs, r) && SendsOf(evs, r) == 0
    requires sentAt <= t && sweptAt < d.vals[r].dueSince + RETRY_MAX_SEC
    requires forall i :: 0 <= i < |evs| ==> evs[i].now <= sweptAt
    ensures NextDelay(d, r, sentAt).Some?
    ensures Listed(TargetsDue(Run(Sent(d, r, sentAt), evs), sweptAt, t), r) <==>
      t >= sentAt + NextDelay(d, r, sentAt).value
  {
    var d1 := Sent(d, r, sentAt);
    var d2 := Run(d1, evs);
    assert Owed(d1, r) && d1.vals[r].dueSince == d.vals[r].dueSince && d1.vals[r].sends == d.vals[r].sends + 1;
    assert Owed(d2, r) && d2.vals[r].dueSince == d.vals[r].dueSince && d2.vals[r].sends == d.vals[r].sends + 1 by {
      NotGivenUpEarly(evs, d1.vals[r].dueSince);
      OwedExactlyUntil(d1, evs, r);
    }
    assert d2.vals[r].firstSend == d1.vals[r].firstSend by { FirstSendFixed(d1, evs, r); }
    DelayFromFirst(d, r, sentAt);
    RipeFromFirst(d2.vals[r], t);
    assert Listed(TargetsDue(d2, sweptAt, t), r) <==> Ripe(d2.vals[r], t) by {
      StepKeepsValid(d, Event(RecordSend(r), sentAt));
      RunKeepsValid(d1, evs);
      TargetsDueExactly(d2, sweptAt, t);
      hide TargetsDue, Ripe, Listed;
    }
  }

  // ---- the fast-retry chain ------------------------------------------------------

  /** Where the fast-retry window of an entry starts. */
  function Anchor(e: Entry): real {
    if e.sends > 0 then GetOr(e.firstSend, 0.0) else e.dueSince
  }

  function BackoffSum(n: nat): real {
    if n == 0 then 0.0 else BackoffSum(n - 1) + Backoff(n)
  }

  /** A streak of failed publishes of `r` while `evs` runs: failure `i` (from 0) is seen at
      `times[i]`, after `cuts[i]` of the events, and no earlier than the backoff before it. */
  ghost predicate FailureStreak(d: Entries, evs: seq<Event>, r: Id, cuts: seq<nat>, times: seq<real>)
  {
    |cuts| == |times| &&
    (forall i :: 0 <= i < |cuts| ==> cuts[i] <= |evs|) &&
    (forall i :: 0 <= i < |times| ==> FailRetryDelay(Run(d, evs[..cuts[i]]), r, i + 1, times[i]).Some?) &&
    (|times| > 0 ==> times[0] >= Anchor(Run(d, evs[..cuts[0]]).vals[r])) &&
    (forall i :: 0 <= i < |times| - 1 ==> times[i + 1] >= times[i] + Backoff(i + 1))
  }

  lemma {:induction false} AnchorFixed(d: Entries, evs: seq<Event>, r: Id)
    requires Owed(d, r) && LeavesAlone(evs, r) && SendsOf(evs, r) == 0
    ensures r in Run(d, evs).vals ==> Owed(Run(d, evs), r) && Anchor(Run(d, evs).vals[r]) == Anchor(d.vals[r])
  {
    if evs != [] {
      var init, last := evs[..|evs| - 1], evs[|evs| - 1];
      AnchorFixed(d, init, r);
      assert LeavesAlone([last], r);
      OwedStep(Run(d, init), last, r);
    }
  }

  lemma {:induction false} SendsOfPrefix(evs: seq<Event>, r: Id, n: nat)
    requires n <= |evs|
    ensures SendsOf(evs[..n], r) <= SendsOf(evs, r)
  {
    if n < |evs| {
      assert evs[..|evs| - 1][..n] == evs[..n];
      SendsOfPrefix(evs[..|evs| - 1], r, n);
    } else {
      assert evs[..n] == evs;
    }
  }

  lemma {:induction false} StreakTakesTime(d: Entries, evs: seq<Event>, r: Id, cuts: seq<nat>, times: seq<real>, i: nat)
    requires Owed(d, r) && LeavesAlone(evs, r) && SendsOf(evs, r) == 0
    requires FailureStreak(d, evs, r, cuts, times) && i < |times|
    ensures Anchor(d.vals[r]) + BackoffSum(i) <= times[i] < Anchor(d.vals[r]) + FAST_RETRY_WINDOW_SEC
  {
    SendsOfPrefix(evs, r, cuts[i]);
    AnchorFixed(d, evs[..cuts[i]], r);
    if i > 0 {
      StreakTakesTime(d, evs, r, cuts, times, i - 1);
      assert times[i - 1 + 1] >= times[i - 1] + Backoff(i);
    }
  }

  lemma ElevenBackoffs()
    ensures BackoffSum(10) == 555.0 && BackoffSum(11) == 635.0
  {
    assert BackoffSum(1) == 5.0;
    assert BackoffSum(2) == 15.0;
    assert BackoffSum(3) == 35.0;
    assert BackoffSum(4) == 75.0;
    assert BackoffSum(5) == 155.0;
    assert BackoffSum(6) == 235.0;
    assert BackoffSum(7) == 315.0;
    assert BackoffSum(8) == 395.0;
    assert BackoffSum(9) == 475.0;
  }

  /** A streak of failures with no send in between is granted at most eleven fast
      retries; then `fail_retry_delay` returns None and the hourly loop takes over. */
  lemma AtMostElevenFastRetries(d: Entries, evs: seq<Event>, r: Id, cuts: seq<nat>, times: seq<real>)
    requires Owed(d, r) && LeavesAlone(evs, r) && SendsOf(evs, r) == 0
    requires FailureStreak(d, evs, r, cuts, times)
    ensures |times| <= 11
  {
    if |times| > 11 {
      ElevenBackoffs();
      StreakTakesTime(d, evs, r, cuts, times, 11);
    }
  }

  /** The eleven are reached when every retry fails at once. */
  lemma ElevenFastRetriesHappen(d: Entries, r: Id)
    requires Owed(d, r)
    ensures exists cuts: seq<nat>, times: seq<real> :: |times| == 11 && FailureStreak(d, [], r, cuts, times)
  {
    var cuts: seq<nat> := seq(11, i => 0);
    var a := Anchor(d.vals[r]);
    var times := seq(11, i requires 0 <= i < 11 => a + BackoffSum(i));
    var none: seq<Event> := [];
    assert none[..0] == none;
    forall i | 0 <= i < 11 ensures BackoffSum(i) <= 555.0 {
      ElevenBackoffs();
      BackoffSumGrows(i, 10);
    }
    assert |times| == 11 && FailureStreak(d, none, r, cuts, times);
  }

  lemma BackoffSumGrows(i: nat, j: nat)
    requires i <= j
    ensures BackoffSum(i) <= BackoffSum(j)
  {
    if i < j { BackoffSumGrows(i, j - 1); }
  }
}
