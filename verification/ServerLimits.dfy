/** Limits that hold in every reachable state of the server: the invoices one payer can have
    outstanding, and whose invoices the locked liquidity is for. */
module ServerLimits {
  import opened PyDict
  import opened Receipts
  import opened Server
  import opened ServerRuns
  import R = ReceiptRuns
  import L = Liquidity
  import D = DevFee
  import P = Protocol

  // ---- the cap on one payer's unpaid invoices ------------------------------------------------

  /** The place that the request in progress takes among `payer`'s. */
  function Slot(phase: Phase, payer: Id): nat {
    if phase.Busy? && !phase.selftest && phase.payer == payer then 1 else 0
  }

  ghost predicate WithinLimit(s: State, payer: Id, t: real) {
    |PendingSet(s.registry, payer, t)| + Slot(s.phase, payer) <= MAX_PENDING_PER_PAYER
  }

  /** Only a dispatch that passed the cap check takes a place. */
  lemma SlotStep(s: State, e: Event, payer: Id)
    ensures Slot(Next(s, e).phase, payer) > Slot(s.phase, payer) ==>
      e.act.Dispatch? && s.phase.Idle? && |PendingSet(s.registry, payer, e.now)| < MAX_PENDING_PER_PAYER
    ensures e.act.Record? && At(s, Locked) && !s.phase.selftest ==> Next(s, e).phase.Idle?
  {
    hide P.Resolve, L.Step, L.Fits, L.Available, PendingSet, Capped, Evicted, Swept, Filter, Attempted, Sent, Marked,
         D.Issued, Put, Collected, SparedOf, Purged, L.Swept, ExpiredSet;
  }

  /** Time and every step only shrink a payer's pending set, except recording an invoice. */
  lemma PendingStep(s: State, e: Event, payer: Id, t: real)
    requires Sound(s) && t <= e.now
    ensures var now := PendingSet(RegistryAfter(s, e), payer, e.now);
      now <= PendingSet(s.registry, payer, t) +
        if e.act.Record? && At(s, Locked) && Slot(s.phase, payer) == 1 then {s.phase.rhash} else {}
  {
    var d := s.registry;
    match e.act
    case Record(_) =>
      if At(s, Locked) && !s.phase.selftest {
        CapEffect(d, s.phase.rhash, Awaiting(s.phase.payer, s.phase.req, e.now + s.phase.expiry));
      }
      hide Capped, Evicted;
    case PaidSignal(r) =>
    case Tick(_) => SweepEffect(d, e.now);
    case Attempt(r) => DeliveryEffect(d, r, e.now, Attempted(d, r, e.now));
    case Send(r) => DeliveryEffect(d, r, e.now, Sent(d, r, e.now));
    case _ =>
  }

  lemma LimitStep(s: State, e: Event, payer: Id, t: real)
    requires Sound(s) && InOrder(e) && t <= e.early && WithinLimit(s, payer, t)
    ensures WithinLimit(Next(s, e), payer, e.now)
  {
    hide Next, PendingSet, RegistryAfter, Sound;
    RegistryStep(s, e);
    SlotStep(s, e, payer);
    PendingStep(s, e, payer, t);
    var before, after := PendingSet(s.registry, payer, t), PendingSet(RegistryAfter(s, e), payer, e.now);
    R.Smaller(after,
      before + if e.act.Record? && At(s, Locked) && Slot(s.phase, payer) == 1 then {s.phase.rhash} else {});
    if e.act.Dispatch? { DispatchLeavesRegistry(s, e); }
  }

  lemma DispatchLeavesRegistry(s: State, e: Event)
    requires e.act.Dispatch?
    ensures RegistryAfter(s, e) == s.registry
  {
  }

  lemma TimedPrefix(t0: real, evs: seq<Event>)
    requires Timed(t0, evs) && evs != []
    ensures Timed(t0, evs[..|evs| - 1]) && InOrder(evs[|evs| - 1])
    ensures LastReading(t0, evs[..|evs| - 1]) <= evs[|evs| - 1].early
  {
    var init := evs[..|evs| - 1];
    assert forall i :: 0 <= i < |init| ==> init[i] == evs[i];
  }

  lemma {:induction false} RunWithinLimit(t0: real, evs: seq<Event>, payer: Id)
    requires Timed(t0, evs)
    ensures WithinLimit(Run(INIT, evs), payer, LastReading(t0, evs))
  {
    if evs == [] {
      assert PendingSet(INIT.registry, payer, t0) == {};
    } else {
      var init := evs[..|evs| - 1];
      TimedPrefix(t0, evs);
      RunWithinLimit(t0, init, payer);
      ReachableIsSound(init);
      LimitStep(Run(INIT, init), evs[|evs| - 1], payer, LastReading(t0, init));
    }
  }

  /** In every reachable state, at any time from the last clock reading on, each payer has at most
      `MAX_PENDING_PER_PAYER` live unpaid invoices in the registry: no set of such invoices is
      larger. */
  lemma PayerLimitHolds(t0: real, evs: seq<Event>, payer: Id, t: real, invoices: set<Id>)
    requires Timed(t0, evs) && LastReading(t0, evs) <= t
    requires forall r :: r in invoices ==> LiveUnpaid(Run(INIT, evs).registry, r, payer, t)
    ensures |invoices| <= 200
  {
    RunWithinLimit(t0, evs, payer);
    var d := Run(INIT, evs).registry;
    R.Smaller(PendingSet(d, payer, t), PendingSet(d, payer, LastReading(t0, evs)));
    R.Smaller(invoices, PendingSet(d, payer, t));
    hide Run;
  }

  // ---- what the locked liquidity is for ----------------------------------------------------

  ghost predicate LiveAt(d: L.Reservations, k: Id, t: real) {
    k in d.vals && d.vals[k].expiresAt > t
  }

  /** The registry still awaits the payment, for at least as long as the reservation lives. */
  ghost predicate Awaited(s: State, k: Id) {
    k in s.reserved.vals && k in s.registry.vals && !s.registry.vals[k].due &&
    s.reserved.vals[k].expiresAt <= s.registry.vals[k].expiresAt
  }

  /** The reservation was made for the request in progress. */
  ghost predicate InProgress(s: State, k: Id, t: real) {
    At(s, Locked) && s.phase.rhash == k && k in s.reserved.vals && s.reserved.vals[k].expiresAt <= t + s.phase.expiry
  }

  ghost predicate GivenUpOn(s: State, k: Id) {
    k in s.log.evicted || k in s.log.aborted
  }

  ghost predicate Accounted(s: State, k: Id, t: real) {
    LiveAt(s.reserved, k, t) ==> Awaited(s, k) || InProgress(s, k, t) || GivenUpOn(s, k)
  }

  lemma GivenUpForGood(s: State, e: Event, k: Id)
    requires GivenUpOn(s, k)
    ensures GivenUpOn(Next(s, e), k)
  {
    hide P.Resolve, L.Step, L.Fits, L.Available, PendingSet, Capped, Evicted, Swept, Filter, Attempted, Sent, Marked,
         D.Issued, Put, Collected, SparedOf, Purged, L.Swept, ExpiredSet;
  }

  lemma AwaitedAfterRecord(s: State, entry: Entry, k: Id, t: real)
    requires Sound(s) && At(s, Locked) && !entry.due && t + s.phase.expiry <= entry.expiresAt
    requires LiveAt(s.reserved, k, t) && Accounted(s, k, t) && !GivenUpOn(s, k)
    ensures var d := Put(s.registry, s.phase.rhash, entry);
      k in Elems(Evicted(d)) || Awaited(s.(registry := Capped(d)), k)
  {
    CapEffect(s.registry, s.phase.rhash, entry);
    hide Capped, Evicted, Valid;
  }

  lemma RecordAccounts(s: State, e: Event, k: Id, t: real)
    requires Sound(s) && e.act.Record? && t <= e.now && Accounted(s, k, t) && !GivenUpOn(s, k)
    ensures Accounted(Next(s, e), k, e.now)
  {
    hide Capped, Evicted, D.Issued, Collected, SparedOf, Sound, Put;
    if At(s, Locked) && !s.phase.selftest && LiveAt(s.reserved, k, e.now) {
      AwaitedAfterRecord(s, Awaiting(s.phase.payer, s.phase.req, e.now + s.phase.expiry), k, t);
    }
  }

  lemma LockAccounts(s: State, e: Event, k: Id, t: real)
    requires Sound(s) && e.act.Lock? && InOrder(e) && t <= e.early && Accounted(s, k, t) && !GivenUpOn(s, k)
    ensures Accounted(Next(s, e), k, e.now)
  {
    hide L.Step, L.Fits, Sound;
    if At(s, Created) {
      ReserveOf(s, LockCall(s, e), k);
      NotInProgressIfAwaited(s, k);
    }
  }

  /** What trying to lock does to one key's reservation. */
  lemma ReserveOf(s: State, c: L.Call, k: Id)
    requires Sound(s) && c.Reserve?
    ensures var d := L.Step(s.reserved, c);
      k !in d.vals || (k in s.reserved.vals && d.vals[k] == s.reserved.vals[k]) ||
      (k == c.key && d.vals[k].expiresAt == c.expiresAt && L.Fits(s.reserved, c.amountSat, c.now, c.again, c.capacity))
  {
    ReserveKeys(s.reserved, c);
    hide L.Step, L.Fits, Valid;
  }

  lemma NotInProgressIfAwaited(s: State, k: Id)
    requires Sound(s)
    ensures Awaited(s, k) && s.phase.Busy? && s.phase.stage != Admitted ==> s.phase.rhash != k
  {
  }

  lemma SettleAccounts(s: State, e: Event, k: Id, t: real)
    requires Sound(s) && (e.act.PaidSignal? || e.act.Unwind?) && t <= e.now && Accounted(s, k, t) && !GivenUpOn(s, k)
    ensures Accounted(Next(s, e), k, e.now)
  {
    hide Valid, Sound, Filter;
  }

  lemma TickAccounts(s: State, e: Event, k: Id, t: real)
    requires Sound(s) && e.act.Tick? && t <= e.now && Accounted(s, k, t) && !GivenUpOn(s, k)
    ensures Accounted(Next(s, e), k, e.now)
  {
    SweepEffect(s.registry, e.now);
    hide Valid, Filter, Collected, Swept;
  }

  lemma DeliveryAccounts(s: State, e: Event, k: Id, t: real)
    requires Sound(s) && (e.act.Attempt? || e.act.Send?) && t <= e.now && Accounted(s, k, t) && !GivenUpOn(s, k)
    ensures Accounted(Next(s, e), k, e.now)
  {
    hide Valid, Attempted, Sent, Sound;
    var r, d := e.act.rhash, s.registry;
    PendingKnown(s);
    DeliveryEffect(d, r, e.now, Attempted(d, r, e.now));
    DeliveryEffect(d, r, e.now, Sent(d, r, e.now));
    TargetsReleased(s);
  }

  lemma TargetsReleased(s: State)
    requires Sound(s)
    ensures s.targets !! s.reserved.vals.Keys
  {
    hide Valid;
  }

  lemma OtherAccounts(s: State, e: Event, k: Id, t: real)
    requires e.act.Dispatch? || e.act.CreateRequest? || e.act.CreateRaises? || e.act.Interrupt? || e.act.Restart? ||
      e.act.SetStatus? || e.act.UserDeletes? || e.act.RegisterPayer? || e.act.UnregisterPayer?
    requires t <= e.now && Accounted(s, k, t) && !GivenUpOn(s, k)
    ensures Accounted(Next(s, e), k, e.now)
  {
    hide P.Resolve, L.Available, PendingSet, Purged, Filter;
  }

  lemma AccountedStep(s: State, e: Event, k: Id, t: real)
    requires Sound(s) && InOrder(e) && t <= e.early && Accounted(s, k, t)
    ensures Accounted(Next(s, e), k, e.now)
  {
    if GivenUpOn(s, k) {
      GivenUpForGood(s, e, k);
      return;
    }
    hide Next, Sound, Accounted;
    match e.act
    case Record(_) => RecordAccounts(s, e, k, t);
    case Lock(_, _) => LockAccounts(s, e, k, t);
    case PaidSignal(_) => SettleAccounts(s, e, k, t);
    case Unwind => SettleAccounts(s, e, k, t);
    case Tick(_) => TickAccounts(s, e, k, t);
    case Attempt(_) => DeliveryAccounts(s, e, k, t);
    case Send(_) => DeliveryAccounts(s, e, k, t);
    case _ => OtherAccounts(s, e, k, t);
  }

  /** In every reachable state, at the last clock reading and any later time, live liquidity is
      locked only for an invoice the registry still awaits, or for the request in progress, or
      for an invoice that the size cap evicted or whose handling broke off. The registry forgets
      no other invoice before its liquidity is free. */
  lemma {:induction false} LiquidityIsAccountedFor(t0: real, evs: seq<Event>, k: Id)
    requires Timed(t0, evs)
    ensures Accounted(Run(INIT, evs), k, LastReading(t0, evs))
    ensures forall t :: LastReading(t0, evs) <= t ==> Accounted(Run(INIT, evs), k, t)
  {
    if evs != [] {
      var init := evs[..|evs| - 1];
      TimedPrefix(t0, evs);
      LiquidityIsAccountedFor(t0, init, k);
      ReachableIsSound(init);
      AccountedStep(Run(INIT, init), evs[|evs| - 1], k, LastReading(t0, init));
    }
  }
}
