/** What every run of the server keeps, across its ledgers. */
module ServerRuns {
  import opened Wrappers
  import opened PyDict
  import opened Receipts
  import opened Server
  import R = ReceiptRuns
  import L = Liquidity
  import D = DevFee
  import P = Protocol
  import O = Offers

  // ---- the invariant -----------------------------------------------------------------

  ghost predicate Shaped(s: State) {
    Valid(s.registry) && Valid(s.reserved) && Valid(s.pending)
  }

  /** Which hashes each ledger may hold. */
  ghost predicate Known(s: State) {
    s.wallet.Keys <= s.log.created && s.log.issued <= s.log.created && s.log.aborted <= s.log.created &&
    s.registry.vals.Keys <= s.log.issued && s.pending.vals.Keys <= s.log.issued && s.log.handed <= s.log.issued &&
    s.log.evicted <= s.log.handed && s.log.spared <= s.log.handed && s.log.handed !! s.registry.vals.Keys &&
    s.reserved.vals.Keys <= s.log.created && s.log.paid <= s.log.created && s.targets <= s.log.issued * s.log.paid &&
    s.log.erased <= s.log.created && s.log.erased !! s.wallet.Keys
  }

  /** The request in progress is in none of the ledgers that outlive it. */
  ghost predicate Apart(s: State) {
    s.phase.Busy? && s.phase.stage != Admitted ==>
      s.phase.rhash in s.log.created && s.phase.rhash !in s.log.issued && s.phase.rhash !in s.log.aborted &&
      (s.phase.stage == Created ==> s.phase.rhash !in s.reserved.vals)
  }

  /** A receipt falls due only for a paid invoice, whose liquidity has been released. */
  ghost predicate DueIsPaid(s: State) {
    (forall r :: r in s.registry.vals && s.registry.vals[r].due ==> r in s.targets) &&
    s.targets !! s.reserved.vals.Keys
  }

  /** A paid request is in the wallet, unless something other than garbage collection took it. */
  ghost predicate PaidKept(s: State) {
    (forall r :: r in s.log.paid ==> (r in s.wallet && s.wallet[r] == Paid) || r in s.log.erased) &&
    (forall r :: r in s.wallet && s.wallet[r] == Paid ==> r in s.log.paid)
  }

  /** An issued invoice is paid, in the registry, or was handed to garbage collection; what was
      handed over is gone, unless it is paid or a payment was in flight just then. */
  ghost predicate NoOrphans(s: State) {
    (forall r :: r in s.log.issued ==> r in s.log.paid || r in s.registry.vals || r in s.log.handed) &&
    (forall r :: r in s.log.handed && r in s.wallet ==> r in s.log.paid || r in s.log.spared)
  }

  ghost predicate Sound(s: State) {
    Shaped(s) && Known(s) && Apart(s) && DueIsPaid(s) && PaidKept(s) && NoOrphans(s)
  }

  lemma DispatchKeepsSound(s: State, e: Event)
    requires Sound(s) && e.act.Dispatch?
    ensures Sound(Next(s, e))
  {
    hide Sound, P.Resolve, L.Available, PendingSet, L.Swept, Purged;
    if s.phase.Idle? {
      var s' := Next(s, e);
      DispatchedSound(s, e.act.mid, s'.payers, s'.phase);
    }
  }

  lemma DispatchedSound(s: State, early: real, payers: map<Id, real>, phase: Phase)
    requires Sound(s) && (phase.Busy? ==> phase.stage == Admitted)
    ensures Sound(s.(reserved := L.Swept(s.reserved, early), payers := payers, phase := phase))
  {
    RestrictValid(s.reserved, L.LiveSet(s.reserved, early));
    hide Valid;
  }

  lemma CreateKeepsSound(s: State, e: Event)
    requires Sound(s) && (e.act.CreateRequest? || e.act.CreateRaises?)
    ensures Sound(Next(s, e))
  {
    hide Sound;
    if e.act.CreateRequest? {
      if At(s, Admitted) && e.act.rhash !in s.log.created { CreatedSound(s, e.act.rhash, e.act.expiry); }
    } else if At(s, Admitted) && (e.act.left.Some? ==> e.act.left.value !in s.log.created) {
      RaisedSound(s, e.act.left);
    }
  }

  lemma CreatedSound(s: State, r: Id, expiry: real)
    requires Sound(s) && At(s, Admitted) && r !in s.log.created
    ensures Sound(RequestCreated(s, r, expiry))
  {
    hide Valid;
  }

  lemma RaisedSound(s: State, left: Option<Id>)
    requires Sound(s) && (left.Some? ==> left.value !in s.log.created)
    ensures Sound(CreationRaised(s, left))
  {
    hide Valid;
  }

  lemma LockKeepsSound(s: State, e: Event)
    requires Sound(s) && e.act.Lock?
    ensures Sound(Next(s, e))
  {
    hide Sound, L.Step, L.Fits, Put;
    if At(s, Created) {
      LockedSound(s, LockCall(s, e));
    }
  }

  /** The call a lock makes on the reserver. */
  function LockCall(s: State, e: Event): L.Call
    requires s.phase.Busy? && e.act.Lock?
  {
    L.Reserve(s.phase.rhash, s.phase.amount, e.early + s.phase.expiry, e.act.mid, e.now, e.act.capacity)
  }

  lemma LockedSound(s: State, c: L.Call)
    requires Sound(s) && At(s, Created) && c.Reserve? && c.key == s.phase.rhash
    ensures Sound(s.(reserved := L.Step(s.reserved, c), phase := s.phase.(stage := Locked)))
    ensures Sound(Removed(s.(reserved := L.Step(s.reserved, c), phase := Idle), c.key))
  {
    hide L.Step, L.Fits, Valid;
    ReserveKeys(s.reserved, c);
  }

  lemma ReserveKeys(d: L.Reservations, c: L.Call)
    requires Valid(d) && c.Reserve?
    ensures Valid(L.Step(d, c)) && L.Step(d, c).vals.Keys <= d.vals.Keys + {c.key}
    ensures forall k :: k in L.Step(d, c).vals && k != c.key ==> k in d.vals && L.Step(d, c).vals[k] == d.vals[k]
    ensures !L.Fits(d, c.amountSat, c.now, c.again, c.capacity) ==> L.Step(d, c).vals.Keys <= d.vals.Keys
    ensures L.Fits(d, c.amountSat, c.now, c.again, c.capacity) ==>
      c.key in L.Step(d, c).vals && L.Step(d, c).vals[c.key].expiresAt == c.expiresAt
    ensures !L.Fits(d, c.amountSat, c.now, c.again, c.capacity) ==>
      forall k :: k in L.Step(d, c).vals ==> k in d.vals && L.Step(d, c).vals[k] == d.vals[k]
  {
    var d0 := L.Swept(d, c.now);
    RestrictValid(d, L.LiveSet(d, c.now));
    RestrictValid(d0, L.LiveSet(d0, c.again));
    PutValid(L.Swept(d0, c.again), c.key, L.Reservation(c.key, c.amountSat, c.expiresAt));
  }

  /** The registry with one more entry, before and after the cap. */
  lemma CapEffect(d: Entries, r: Id, entry: Entry)
    requires Valid(d) && !entry.due
    ensures var d1 := Put(d, r, entry);
      Valid(Capped(d1)) && Elems(Evicted(d1)) <= d1.vals.Keys &&
      Capped(d1).vals.Keys == d1.vals.Keys - Elems(Evicted(d1)) &&
      (forall k :: k in Elems(Evicted(d1)) ==> !d1.vals[k].due) &&
      forall k :: k in Capped(d1).vals ==> Capped(d1).vals[k] == d1.vals[k]
  {
    var d1 := Put(d, r, entry);
    PutValid(d, r, entry);
    R.CappedValid(d1);
    R.CapKeepsOwed(d1);
  }

  lemma IssuedKeys(d: Dict<Id, int>, r: Id, now: real)
    requires Valid(d)
    ensures Valid(D.Issued(d, r, now)) && D.Issued(d, r, now).vals.Keys <= d.vals.Keys + {r}
  {
    var d1 := Put(d, r, D.Trunc(now));
    PutValid(d, r, D.Trunc(now));
    RestrictValid(d1, d1.vals.Keys - Elems(D.Stale(d1)));
  }

  lemma RecordKeepsSound(s: State, e: Event)
    requires Sound(s) && e.act.Record?
    ensures Sound(Next(s, e))
  {
    hide Sound, Capped, Evicted, D.Issued, Put;
    if At(s, Locked) && !s.phase.selftest {
      RecordedSound(s, e.act.failing, D.Issued(s.pending, s.phase.rhash, e.early), e.early,
                    Awaiting(s.phase.payer, s.phase.req, e.now + s.phase.expiry));
    }
  }

  lemma RecordedSound(s: State, failing: set<Id>, pending: Dict<Id, int>, early: real, entry: Entry)
    requires Sound(s) && At(s, Locked) && !entry.due && pending == D.Issued(s.pending, s.phase.rhash, early)
    ensures var d := Put(s.registry, s.phase.rhash, entry);
      Sound(Handed(s.(pending := pending, registry := Capped(d), phase := Idle,
                      log := s.log.(issued := s.log.issued + {s.phase.rhash})), Evicted(d), failing, true))
  {
    hide Capped, Evicted, D.Issued, Valid, Known, Apart, DueIsPaid, PaidKept, NoOrphans, Put, Handed;
    CapEffect(s.registry, s.phase.rhash, entry);
    IssuedKeys(s.pending, s.phase.rhash, early);
    PendingKnown(s);
    var d, s1 := Put(s.registry, s.phase.rhash, entry), Registered(s, pending, entry);
    RegisteredKeeps(s, pending, entry);
    EvictionSound(s1, d, Capped(d), Evicted(d), failing);
  }

  lemma PendingKnown(s: State)
    requires Sound(s)
    ensures Valid(s.registry) && Valid(s.pending)
  {
  }

  /** The state once an invoice is issued, before the cap. */
  ghost function Registered(s: State, pending: Dict<Id, int>, entry: Entry): State
    requires s.phase.Busy?
  {
    s.(pending := pending, registry := Put(s.registry, s.phase.rhash, entry), phase := Idle,
       log := s.log.(issued := s.log.issued + {s.phase.rhash}))
  }

  lemma RegisteredKeeps(s: State, pending: Dict<Id, int>, entry: Entry)
    requires Sound(s) && At(s, Locked) && !entry.due
    requires Valid(pending) && pending.vals.Keys <= s.pending.vals.Keys + {s.phase.rhash}
    ensures var s1 := Registered(s, pending, entry);
      Known(s1) && Apart(s1) && DueIsPaid(s1) && PaidKept(s1) && NoOrphans(s1) && Valid(s1.reserved)
  {
    hide Valid;
  }

  /** Dropping un-owed entries and handing them over keeps everything. */
  lemma EvictionSound(s: State, d: Entries, left: Entries, gone: seq<Id>, failing: set<Id>)
    requires Known(s) && Apart(s) && DueIsPaid(s) && PaidKept(s) && NoOrphans(s)
    requires Valid(s.reserved) && Valid(s.pending) && s.registry == d && Valid(left)
    requires Elems(gone) <= d.vals.Keys && left.vals.Keys == d.vals.Keys - Elems(gone)
    requires forall k :: k in left.vals ==> left.vals[k] == d.vals[k]
    ensures Sound(Handed(s.(registry := left), gone, failing, true))
  {
    hide Valid;
  }

  /** What dropping a key leaves. */
  lemma DropEffect<V>(d: Dict<Id, V>, r: Id)
    requires Valid(d)
    ensures Valid(Drop(d, r)) && Drop(d, r).vals.Keys == d.vals.Keys - {r}
  {
    RestrictValid(d, d.vals.Keys - {r});
  }

  lemma UnwindKeepsSound(s: State, e: Event)
    requires Sound(s) && e.act.Unwind?
    ensures Sound(Next(s, e))
  {
    hide Sound, Drop;
    if At(s, Locked) && s.phase.selftest { UnwoundSound(s); }
  }

  lemma UnwoundSound(s: State)
    requires Sound(s) && At(s, Locked)
    ensures Sound(Unwound(s))
  {
    hide Valid, Drop;
    DropEffect(s.reserved, s.phase.rhash);
  }

  lemma BreakingOffKeepsSound(s: State, e: Event)
    requires Sound(s) && (e.act.Interrupt? || e.act.Restart?)
    ensures Sound(Next(s, e))
  {
    hide Sound, BrokenOff;
    BrokenOffSound(s);
    if e.act.Restart? { EmptiedSound(BrokenOff(s)); }
  }

  lemma BrokenOffSound(s: State)
    requires Sound(s)
    ensures Sound(BrokenOff(s)) && BrokenOff(s).phase.Idle?
  {
    hide Valid;
  }

  lemma EmptiedSound(s: State)
    requires Sound(s) && s.phase.Idle?
    ensures Sound(s.(reserved := Empty(), payers := map[]))
  {
    NoReservations();
    hide Valid;
  }

  lemma NoReservations()
    ensures Valid<Id, L.Reservation>(Empty())
  {
  }

  lemma WalletKeepsSound(s: State, e: Event)
    requires Sound(s) && (e.act.SetStatus? || e.act.UserDeletes? || e.act.RegisterPayer? || e.act.UnregisterPayer?)
    ensures Sound(Next(s, e))
  {
    hide Sound;
    if e.act.SetStatus? {
      StatusSound(s, e.act.rhash, e.act.status);
    } else if e.act.UserDeletes? {
      if e.act.rhash in s.wallet { RemovedSound(s, e.act.rhash); }
    } else {
      PayersSound(s, Next(s, e).payers);
    }
  }

  lemma StatusSound(s: State, r: Id, status: Status)
    requires Sound(s)
    ensures Sound(StatusSet(s, r, status))
  {
    hide Valid;
  }

  lemma RemovedSound(s: State, r: Id)
    requires Sound(s) && r in s.wallet
    ensures Sound(Removed(s, r))
  {
    hide Valid;
  }

  lemma PayersSound(s: State, payers: map<Id, real>)
    requires Sound(s)
    ensures Sound(s.(payers := payers))
  {
    hide Valid;
  }

  lemma SettleKeepsSound(s: State, e: Event)
    requires Sound(s) && e.act.PaidSignal?
    ensures Sound(Next(s, e))
  {
    hide Sound, Drop, Marked;
    if e.act.rhash in s.wallet && s.wallet[e.act.rhash] == Paid { SettledSound(s, e.act.rhash, e.now); }
  }

  lemma MarkedEffect(d: Entries, r: Id, now: real)
    requires Valid(d)
    ensures Valid(Marked(d, r, now)) && Marked(d, r, now).vals.Keys == d.vals.Keys
    ensures forall k :: k in d.vals && k != r ==> Marked(d, r, now).vals[k] == d.vals[k]
  {
    if r in d.vals { PutValid(d, r, d.vals[r].(due := true, dueSince := now)); }
  }

  lemma SettledSound(s: State, r: Id, now: real)
    requires Sound(s) && r in s.wallet && s.wallet[r] == Paid
    ensures Sound(Settled(s, r, now))
  {
    hide Valid, Drop, Marked;
    DropEffect(s.reserved, r);
    DropEffect(s.pending, r);
    MarkedEffect(s.registry, r, now);
  }

  /** What a sweep removes: owed entries given up, and un-owed ones that expired. */
  lemma SweepEffect(d: Entries, now: real)
    requires Valid(d)
    ensures Valid(Swept(d, now)) && Swept(d, now).vals.Keys <= d.vals.Keys
    ensures forall k :: k in Swept(d, now).vals ==> Swept(d, now).vals[k] == d.vals[k]
    ensures forall k :: k in d.vals && k !in Swept(d, now).vals ==> d.vals[k].due || k in ExpiredSet(d, now)
    ensures ExpiredSet(d, now) <= d.vals.Keys && ExpiredSet(d, now) !! Swept(d, now).vals.Keys
    ensures forall k :: k in Filter(d.keys, ExpiredSet(d, now)) <==> k in ExpiredSet(d, now)
  {
    RestrictValid(d, KeptBySweep(d, now));
    forall k | k in ExpiredSet(d, now) ensures k in d.keys { assert k in Elems(d.keys); }
  }

  lemma TickKeepsSound(s: State, e: Event)
    requires Sound(s) && e.act.Tick?
    ensures Sound(Next(s, e))
  {
    hide Sound, Filter, Swept, ExpiredSet;
    PendingKnown(s);
    SweepEffect(s.registry, e.now);
    SweptSound(s, Swept(s.registry, e.now), ExpiredSet(s.registry, e.now),
               Filter(s.registry.keys, ExpiredSet(s.registry, e.now)), e.act.failing);
  }

  /** Dropping due entries, and handing over the others that go, keeps everything. */
  lemma SweptSound(s: State, left: Entries, expired: set<Id>, gone: seq<Id>, failing: set<Id>)
    requires Sound(s) && Valid(left) && left.vals.Keys <= s.registry.vals.Keys
    requires forall k :: k in left.vals ==> left.vals[k] == s.registry.vals[k]
    requires forall k :: k in s.registry.vals && k !in left.vals ==> s.registry.vals[k].due || k in expired
    requires expired <= s.registry.vals.Keys && expired !! left.vals.Keys
    requires forall k :: k in gone <==> k in expired
    ensures Sound(Handed(s.(registry := left), gone, failing, false))
  {
    hide Valid;
  }

  /** What a delivery's bookkeeping changes: one entry at most, never whether it is due. */
  lemma DeliveryEffect(d: Entries, r: Id, now: real, d': Entries)
    requires Valid(d) && (d' == Attempted(d, r, now) || d' == Sent(d, r, now))
    ensures Valid(d') && d.vals.Keys - {r} <= d'.vals.Keys <= d.vals.Keys
    ensures forall k :: k in d'.vals ==> SameDuty(d'.vals[k], d.vals[k])
  {
    hide Attempted, Sent, Valid, SameDuty;
    AttemptEffect(d, r, now);
    SendEffect(d, r, now);
  }

  lemma AttemptEffect(d: Entries, r: Id, now: real)
    requires Valid(d)
    ensures var d' := Attempted(d, r, now);
      Valid(d') && d.vals.Keys - {r} <= d'.vals.Keys <= d.vals.Keys &&
      forall k :: k in d'.vals ==> SameDuty(d'.vals[k], d.vals[k])
  {
    if r in d.vals {
      PutValid(d, r, d.vals[r].(attempts := d.vals[r].attempts + 1, lastAttempt := now));
    }
    hide Valid;
  }

  lemma SendEffect(d: Entries, r: Id, now: real)
    requires Valid(d)
    ensures var d' := Sent(d, r, now);
      Valid(d') && d.vals.Keys - {r} <= d'.vals.Keys <= d.vals.Keys &&
      forall k :: k in d'.vals ==> SameDuty(d'.vals[k], d.vals[k])
  {
    if r in d.vals {
      PutValid(d, r, Sent'(d.vals[r], now));
      DropEffect(d, r);
    }
    hide Valid;
  }

  /** The entry after one more send. */
  function Sent'(entry: Entry, now: real): Entry {
    entry.(sends := entry.sends + 1, lastSend := Some(now),
           firstSend := if entry.sends == 0 then Some(now) else entry.firstSend)
  }

  ghost predicate SameDuty(a: Entry, b: Entry) {
    a.due == b.due && a.expiresAt == b.expiresAt && a.payer == b.payer
  }

  lemma DeliveryKeepsSound(s: State, e: Event)
    requires Sound(s) && (e.act.Attempt? || e.act.Send?)
    ensures Sound(Next(s, e))
  {
    var r, d := e.act.rhash, s.registry;
    var d' := if e.act.Attempt? then Attempted(d, r, e.now) else Sent(d, r, e.now);
    assert Valid(d);
    hide Valid, Attempted, Sent, Sound;
    DeliveryEffect(d, r, e.now, d');
    if r in s.targets { DeliveredSound(s, r, d'); }
  }

  lemma DeliveredSound(s: State, r: Id, d': Entries)
    requires Sound(s) && r in s.targets
    requires Valid(d') && s.registry.vals.Keys - {r} <= d'.vals.Keys <= s.registry.vals.Keys
    requires forall k :: k in d'.vals ==> SameDuty(d'.vals[k], s.registry.vals[k])
    ensures Sound(s.(registry := d'))
  {
    hide Valid;
  }

  lemma StepKeepsSound(s: State, e: Event)
    requires Sound(s)
    ensures Sound(Next(s, e))
  {
    hide Next, Sound;
    match e.act
    case Dispatch(_, _, _, _, _, _) => DispatchKeepsSound(s, e);
    case CreateRequest(_, _) => CreateKeepsSound(s, e);
    case CreateRaises(_) => CreateKeepsSound(s, e);
    case Lock(_, _) => LockKeepsSound(s, e);
    case Record(_) => RecordKeepsSound(s, e);
    case Unwind => UnwindKeepsSound(s, e);
    case Interrupt => BreakingOffKeepsSound(s, e);
    case Restart => BreakingOffKeepsSound(s, e);
    case SetStatus(_, _) => WalletKeepsSound(s, e);
    case UserDeletes(_) => WalletKeepsSound(s, e);
    case RegisterPayer(_) => WalletKeepsSound(s, e);
    case UnregisterPayer(_) => WalletKeepsSound(s, e);
    case PaidSignal(_) => SettleKeepsSound(s, e);
    case Tick(_) => TickKeepsSound(s, e);
    case Attempt(_) => DeliveryKeepsSound(s, e);
    case Send(_) => DeliveryKeepsSound(s, e);
  }

  lemma {:induction false} RunKeepsSound(s: State, evs: seq<Event>)
    requires Sound(s)
    ensures Sound(Run(s, evs))
  {
    if evs != [] {
      RunKeepsSound(s, evs[..|evs| - 1]);
      StepKeepsSound(Run(s, evs[..|evs| - 1]), evs[|evs| - 1]);
    }
  }

  lemma ReachableIsSound(evs: seq<Event>)
    ensures Sound(Run(INIT, evs))
  {
    assert Sound(INIT);
    RunKeepsSound(INIT, evs);
  }

  // ---- garbage collection -----------------------------------------------------------------

  /** Garbage collection never deletes a paid request, also when the paid signal was missed and
      the entry was swept as expired: in every reachable state a request that was ever paid is
      there and paid, unless the user deleted it, or it was a self-test or a lost race. */
  lemma PaidRequestsAreKept(evs: seq<Event>, r: Id)
    ensures var s := Run(INIT, evs);
      r in s.log.paid ==> (r in s.wallet && s.wallet[r] == Paid) || r in s.log.erased
  {
    ReachableIsSound(evs);
  }

  /** The steps that can make a paid request disappear, none of them garbage collection. */
  lemma PaidDisappearsOtherwise(s: State, e: Event, r: Id)
    requires r in s.wallet && s.wallet[r] == Paid && r !in Next(s, e).wallet
    ensures e.act == UserDeletes(r) || (s.phase.Busy? && s.phase.rhash == r && (e.act.Unwind? || e.act.Lock?))
  {
    WalletStep(s, e);
    hide Next, Evicted, Filter, ExpiredSet, L.Fits, Put;
    WalletLoss(s, e, r);
  }

  /** An unpaid request of an issue that ran to its end for a real payer has lost its registry
      entry exactly if its collection left it there: a payment was in flight just then, or the
      wallet raised. */
  lemma UnpaidRequestsAreTracked(evs: seq<Event>, r: Id)
    requires r in Run(INIT, evs).log.issued && r in Run(INIT, evs).wallet && Run(INIT, evs).wallet[r] != Paid
    ensures var s := Run(INIT, evs);
      r !in s.registry.vals <==> r in s.log.spared
  {
    hide Run;
    ReachableIsSound(evs);
    SparedExactly(Run(INIT, evs), r);
  }

  lemma SparedExactly(s: State, r: Id)
    requires Sound(s) && r in s.log.issued && r in s.wallet && s.wallet[r] != Paid
    ensures r !in s.registry.vals <==> r in s.log.spared
  {
    hide Valid;
  }

  /** The step that hands a request over, by a sweep or by the size cap, removes it from the wallet
      exactly if it is unpaid or expired and the wallet does not raise: it stays if its payment is in
      flight or it is paid. Unless it is paid, a request that stays is then orphaned. */
  lemma HandOverExactly(s: State, e: Event, r: Id)
    requires Sound(s) && r in Next(s, e).log.handed && r !in s.log.handed
    ensures e.act.Tick? || e.act.Record?
    ensures r !in e.act.failing ==>
      (r in Next(s, e).wallet <==> r in s.wallet && (s.wallet[r] == InFlight || s.wallet[r] == Paid))
    ensures r in e.act.failing ==> (r in Next(s, e).wallet <==> r in s.wallet)
    ensures r in Next(s, e).wallet ==> Next(s, e).wallet[r] == s.wallet[r]
    ensures r in Next(s, e).log.spared <==> r in Next(s, e).wallet && Next(s, e).wallet[r] != Paid
  {
    hide Sound, Next, Collected, SparedOf, GoneIn;
    HandOverStep(s, e, r);
    CollectedOne(s.wallet, GoneIn(s, e), e.act.failing, r);
    NotSparedYet(s, r);
  }

  lemma NotSparedYet(s: State, r: Id)
    requires Sound(s) && r !in s.log.handed
    ensures r !in s.log.spared
  {
    hide Valid;
  }

  /** The hashes a step hands over. */
  function GoneIn(s: State, e: Event): seq<Id> {
    match e.act
    case Record(_) =>
      if At(s, Locked) && !s.phase.selftest
      then Evicted(Put(s.registry, s.phase.rhash, Awaiting(s.phase.payer, s.phase.req, e.now + s.phase.expiry)))
      else []
    case Tick(_) => Filter(s.registry.keys, ExpiredSet(s.registry, e.now))
    case _ => []
  }

  lemma HandOverStep(s: State, e: Event, r: Id)
    requires r in Next(s, e).log.handed && r !in s.log.handed
    ensures (e.act.Tick? || e.act.Record?) && r in GoneIn(s, e)
    ensures Next(s, e).wallet == Collected(s.wallet, GoneIn(s, e), e.act.failing)
    ensures Next(s, e).log.spared == s.log.spared + SparedOf(s.wallet, GoneIn(s, e), e.act.failing)
  {
    hide P.Resolve, L.Step, L.Fits, L.Available, PendingSet, Capped, Evicted, Swept, Filter, Attempted, Sent, Marked,
         D.Issued, Put, Collected, SparedOf, Purged, L.Swept, ExpiredSet;
    if !e.act.Tick? && !e.act.Record? { NothingHandedOtherwise(s, e); }
  }

  lemma NothingHandedOtherwise(s: State, e: Event)
    requires !e.act.Tick? && !e.act.Record?
    ensures Next(s, e).log.handed == s.log.handed
  {
    hide P.Resolve, L.Step, L.Fits, L.Available, PendingSet, Attempted, Sent, Marked, Purged, L.Swept;
  }

  lemma CollectedOne(wallet: map<Id, Status>, gone: seq<Id>, failing: set<Id>, r: Id)
    requires r in gone
    ensures r in Collected(wallet, gone, failing) <==> r in wallet && !Collects(wallet, failing, r)
    ensures r in Collected(wallet, gone, failing) ==> Collected(wallet, gone, failing)[r] == wallet[r]
    ensures r in SparedOf(wallet, gone, failing) <==>
      r in Collected(wallet, gone, failing) && Collected(wallet, gone, failing)[r] != Paid
  {
  }

  /** No garbage collection comes back to such a request: once left there it stays, without an
      entry, until the user deletes it, even after its payment failed. */
  lemma {:induction false} SparedStaysForGood(s: State, evs: seq<Event>, r: Id)
    requires Sound(s) && r in s.log.spared && r in s.wallet
    requires forall i :: 0 <= i < |evs| ==> evs[i].act != UserDeletes(r)
    ensures r in Run(s, evs).wallet && r !in Run(s, evs).registry.vals
  {
    SparedIsHanded(s, r);
    hide Sound, Next;
    if evs != [] {
      var init, e := evs[..|evs| - 1], evs[|evs| - 1];
      SparedStaysForGood(s, init, r);
      RunKeepsSound(s, init);
      HandedGrows(s, init);
      SparedStep(Run(s, init), e, r);
    }
  }

  lemma SparedIsHanded(s: State, r: Id)
    requires Sound(s) && r in s.log.spared
    ensures r in s.log.handed && r !in s.registry.vals
  {
    hide Valid;
  }

  lemma {:induction false} HandedGrows(s: State, evs: seq<Event>)
    ensures s.log.handed <= Run(s, evs).log.handed
  {
    hide P.Resolve, L.Step, L.Fits, L.Available, PendingSet, Capped, Evicted, Swept, Filter, Attempted, Sent, Marked,
         D.Issued, Collected, SparedOf;
    if evs != [] {
      HandedGrows(s, evs[..|evs| - 1]);
    }
  }

  // ---- one ledger at a time ----------------------------------------------------------------

  /** What a step does to the registry. */
  function RegistryAfter(s: State, e: Event): Entries {
    match e.act
    case Record(_) =>
      if At(s, Locked) && !s.phase.selftest
      then Capped(Put(s.registry, s.phase.rhash, Awaiting(s.phase.payer, s.phase.req, e.now + s.phase.expiry)))
      else s.registry
    case PaidSignal(r) =>
      if r in s.wallet && s.wallet[r] == Paid then Marked(s.registry, r, e.now) else s.registry
    case Tick(_) => Swept(s.registry, e.now)
    case Attempt(r) => if r in s.targets then Attempted(s.registry, r, e.now) else s.registry
    case Send(r) => if r in s.targets then Sent(s.registry, r, e.now) else s.registry
    case _ => s.registry
  }

  lemma RegistryStep(s: State, e: Event)
    ensures Next(s, e).registry == RegistryAfter(s, e)
  {
    hide P.Resolve, L.Step, L.Fits, L.Available, PendingSet, Capped, Evicted, Swept, Filter, Attempted, Sent, Marked,
         D.Issued, Put, Collected, SparedOf, Purged, L.Swept;
    match e.act
    case Dispatch(_, _, _, _, _, _) => assert Next(s, e).registry == s.registry;
    case CreateRequest(_, _) => assert Next(s, e).registry == s.registry;
    case CreateRaises(_) => assert Next(s, e).registry == s.registry;
    case Lock(_, _) => assert Next(s, e).registry == s.registry;
    case Record(_) =>
    case PaidSignal(_) =>
    case Tick(_) =>
    case Attempt(_) =>
    case Send(_) =>
    case _ => assert Next(s, e).registry == s.registry;
  }

  /** The only entry a step brings into the registry is that of the request in progress. */
  lemma RegistryGrowth(s: State, e: Event, r: Id)
    requires Sound(s) && r in RegistryAfter(s, e).vals && r !in s.registry.vals
    ensures e.act.Record? && At(s, Locked) && s.phase.rhash == r
  {
    if e.act.Record? && At(s, Locked) && !s.phase.selftest {
      CapEffect(s.registry, s.phase.rhash, Awaiting(s.phase.payer, s.phase.req, e.now + s.phase.expiry));
    }
    hide Capped, Evicted, Sound;
  }

  lemma SparedStep(s: State, e: Event, r: Id)
    requires Sound(s) && r in s.log.handed && r in s.wallet && r !in s.registry.vals && e.act != UserDeletes(r)
    ensures r in Next(s, e).wallet && r !in Next(s, e).registry.vals
  {
    RegistryStep(s, e);
    if r in RegistryAfter(s, e).vals { RegistryGrowth(s, e, r); }
    SparedInWallet(s, e, r);
  }

  lemma SparedInWallet(s: State, e: Event, r: Id)
    requires Sound(s) && r in s.log.handed && r in s.wallet && r !in s.registry.vals && e.act != UserDeletes(r)
    ensures r in Next(s, e).wallet
  {
    hide Next, Sound;
    WalletStep(s, e);
    NotInProgress(s, r);
    if r !in WalletAfter(s, e) {
      WalletLoss(s, e, r);
      if e.act.Tick? {
        ExpiredAreKnown(s, e.now, r);
      } else {
        EvictedAreKnown(s, Awaiting(s.phase.payer, s.phase.req, e.now + s.phase.expiry), r);
      }
    }
  }

  lemma NotInProgress(s: State, r: Id)
    requires Sound(s) && r in s.log.issued + s.log.handed
    ensures s.phase.Busy? && s.phase.stage != Admitted ==> s.phase.rhash != r
  {
  }

  lemma ExpiredAreKnown(s: State, now: real, r: Id)
    requires Sound(s) && r in Filter(s.registry.keys, ExpiredSet(s.registry, now))
    ensures r in s.registry.vals
  {
    SweepEffect(s.registry, now);
  }

  lemma EvictedAreKnown(s: State, entry: Entry, r: Id)
    requires Sound(s) && s.phase.Busy? && !entry.due && r in Evicted(Put(s.registry, s.phase.rhash, entry))
    ensures r in s.registry.vals || r == s.phase.rhash
  {
    CapEffect(s.registry, s.phase.rhash, entry);
    assert r in Elems(Evicted(Put(s.registry, s.phase.rhash, entry)));
    hide Evicted;
  }

  /** The ways a request can leave the wallet. */
  lemma WalletLoss(s: State, e: Event, r: Id)
    requires r in s.wallet && r !in WalletAfter(s, e)
    ensures
      e.act == UserDeletes(r) ||
      (s.phase.Busy? && s.phase.stage != Admitted && s.phase.rhash == r && (e.act.Unwind? || e.act.Lock?)) ||
      (e.act.Tick? && r in Filter(s.registry.keys, ExpiredSet(s.registry, e.now)) && Deletable(s.wallet, r)) ||
      (e.act.Record? && At(s, Locked) && !s.phase.selftest && Deletable(s.wallet, r) &&
        r in Evicted(Put(s.registry, s.phase.rhash, Awaiting(s.phase.payer, s.phase.req, e.now + s.phase.expiry))))
  {
    hide Evicted, Filter, ExpiredSet, L.Fits, Put;
  }

  /** What a step does to the wallet's requests. */
  function WalletAfter(s: State, e: Event): map<Id, Status> {
    match e.act
    case CreateRequest(r, _) => if At(s, Admitted) && r !in s.log.created then s.wallet[r := Unpaid] else s.wallet
    case CreateRaises(left) =>
      if At(s, Admitted) && left.Some? && left.value !in s.log.created then s.wallet[left.value := Unpaid] else s.wallet
    case Lock(mid, capacity) =>
      if At(s, Created) && !L.Fits(s.reserved, s.phase.amount, mid, e.now, capacity)
      then s.wallet - {s.phase.rhash} else s.wallet
    case Record(_) =>
      if At(s, Locked) && !s.phase.selftest
      then Collected(s.wallet, GoneIn(s, e), e.act.failing)
      else s.wallet
    case Unwind => if At(s, Locked) && s.phase.selftest then s.wallet - {s.phase.rhash} else s.wallet
    case SetStatus(r, status) => if r in s.wallet && s.wallet[r] != Paid then s.wallet[r := status] else s.wallet
    case Tick(_) => Collected(s.wallet, GoneIn(s, e), e.act.failing)
    case UserDeletes(r) => s.wallet - {r}
    case _ => s.wallet
  }

  lemma WalletStep(s: State, e: Event)
    ensures Next(s, e).wallet == WalletAfter(s, e)
  {
    hide P.Resolve, L.Step, L.Fits, L.Available, PendingSet, Capped, Evicted, Swept, Filter, Attempted, Sent, Marked,
         D.Issued, Put, Collected, SparedOf, Purged, L.Swept, ExpiredSet;
    match e.act
    case Dispatch(_, _, _, _, _, _) => assert Next(s, e).wallet == s.wallet;
    case CreateRequest(_, _) =>
    case CreateRaises(_) =>
    case Lock(_, _) =>
    case Record(_) =>
    case Unwind =>
    case SetStatus(_, _) =>
    case Tick(_) =>
    case UserDeletes(r) => assert r !in s.wallet ==> s.wallet - {r} == s.wallet;
    case _ => assert Next(s, e).wallet == s.wallet;
  }

  /** Such requests exist in every state with an entry about to expire: one whose payment is in
      flight then, and fails later, is left behind unpaid. */
  lemma InFlightAtExpiryIsLeftBehind(s: State, r: Id, now: real, later: real)
    requires Sound(s) && r in ExpiredSet(s.registry, now)
    requires r in s.wallet && s.wallet[r] == InFlight
    ensures var s2 := Next(Next(s, Event(Tick({}), now, now)), Event(SetStatus(r, Unpaid), later, later));
      r in s2.wallet && s2.wallet[r] == Unpaid && r !in s2.registry.vals && r in s2.log.spared
  {
    hide Filter, Swept, ExpiredSet, Sound;
    PendingKnown(s);
    SweepEffect(s.registry, now);
  }

  // ---- a run that orphans a request ---------------------------------------------------------

  /** A request for one sat of an active offer is issued, its payment starts, its entry expires,
      and the payment fails. */
  function OrphanRun(r: Id, request: P.Request, offer: O.Offer): seq<Event> {
    [Event(Dispatch(1, 2, request, Some(offer), 0.0, 1), 0.0, 0.0),
     Event(CreateRequest(r, 60.0), 0.0, 0.0),
     Event(Lock(0.0, 1), 0.0, 0.0),
     Event(Record({}), 0.0, 0.0),
     Event(SetStatus(r, InFlight), 1.0, 1.0),
     Event(Tick({}), 60.0, 60.0),
     Event(SetStatus(r, Unpaid), 61.0, 61.0)]
  }

  lemma RunSnoc(s: State, evs: seq<Event>, n: nat)
    requires n < |evs|
    ensures Run(s, evs[..n + 1]) == Next(Run(s, evs[..n]), evs[n])
  {
    hide Next;
    assert evs[..n + 1][..n] == evs[..n];
  }

  /** How far the run has come: the request created, its liquidity locked, the invoice issued. */
  ghost predicate Begun(s: State, stage: Stage, r: Id) {
    At(s, stage) && s.phase.amount == 1 && !s.phase.selftest && s.registry == Empty() && s.reserved.keys == [] &&
    (if stage == Admitted then s.log.created == {}
     else s.phase.rhash == r && s.phase.expiry == 60.0 && r in s.wallet && s.wallet[r] == Unpaid)
  }

  lemma FirstAdmitted(r: Id, e: Event, request: P.Request, offer: O.Offer)
    requires e == Event(Dispatch(1, 2, request, Some(offer), 0.0, 1), 0.0, 0.0)
    requires offer.active && offer.priceType.Spontaneous? && P.AmountOf(request) == Some(1)
    ensures Begun(Next(INIT, e), Admitted, r)
  {
    var a := e.act;
    assert PendingSet(INIT.registry, 1, 0.0) == {};
    NothingReserved(INIT.reserved, 0.0, 1);
    hide P.AmountOf, PendingSet, L.Available, L.Swept;
    RefusedOrAdmitted(INIT, a, 0.0, 0.0);
  }

  /** With nothing reserved, all of the capacity is available. */
  lemma NothingReserved(d: L.Reservations, t: real, capacity: nat)
    requires d.keys == []
    ensures L.Swept(d, t).keys == [] && L.Available(d, t, capacity) == capacity
  {
  }

  lemma FirstLocked(s: State, r: Id)
    requires Begun(s, Created, r)
    ensures var s' := Next(s, Event(Lock(0.0, 1), 0.0, 0.0));
      At(s', Locked) && !s'.phase.selftest && s'.phase.rhash == r && s'.phase.expiry == 60.0 && r in s'.wallet &&
      s'.wallet == s.wallet &&
      s'.registry == Empty()
  {
    hide L.Step, L.Fits;
    OneSatFits(s.reserved);
  }

  lemma OneSatFits(d: L.Reservations)
    requires d.keys == []
    ensures L.Fits(d, 1, 0.0, 0.0, 1)
  {
    hide L.Available, L.Swept;
    NothingReserved(d, 0.0, 1);
    NothingReserved(L.Swept(d, 0.0), 0.0, 1);
  }

  lemma FirstRecorded(s: State, r: Id)
    requires At(s, Locked) && !s.phase.selftest && s.phase.rhash == r && s.phase.expiry == 60.0 && r in s.wallet
    requires s.registry == Empty()
    ensures var s' := Next(s, Event(Record({}), 0.0, 0.0));
      r in s'.log.issued && r in s'.wallet && r in s'.registry.vals &&
      !s'.registry.vals[r].due && s'.registry.vals[r].expiresAt == 60.0 && s'.wallet == s.wallet
  {
    var entry := Awaiting(s.phase.payer, s.phase.req, 60.0);
    var d := Put(Empty(), r, entry);
    PutValid(Empty(), r, entry);
    R.CapBoundsSize(d);
    assert Evicted(d) == [];
    assert Collected(s.wallet, [], {}) == s.wallet;
    hide Capped, Evicted, D.Issued, Collected, SparedOf, Valid;
  }

  /** Dropping an entry is not meant to orphan its request. This run does, from the start: the
      invoice is issued, and in the end its request is there and unpaid, without an entry. */
  lemma OrphanFromTheStart(r: Id, request: P.Request, offer: O.Offer)
    requires offer.active && offer.priceType.Spontaneous? && P.AmountOf(request) == Some(1)
    ensures var s := Run(INIT, OrphanRun(r, request, offer));
      r in s.log.issued && r in s.wallet && s.wallet[r] == Unpaid && r !in s.registry.vals
  {
    var evs := OrphanRun(r, request, offer);
    ghost var s := seq(8, i requires 0 <= i < 8 => Run(INIT, evs[..i]));
    assert evs[..0] == [] && evs[..7] == evs;
    assert s[0] == INIT;
    forall i | 0 <= i < 7 ensures s[i + 1] == Next(s[i], evs[i]) { RunSnoc(INIT, evs, i); }
    hide Run;
    OrphanSteps(s, evs, r, request, offer);
  }

  lemma OrphanSteps(s: seq<State>, evs: seq<Event>, r: Id, request: P.Request, offer: O.Offer)
    requires |s| == 8 && evs == OrphanRun(r, request, offer) && s[0] == INIT
    requires forall i :: 0 <= i < 7 ==> s[i + 1] == Next(s[i], evs[i])
    requires offer.active && offer.priceType.Spontaneous? && P.AmountOf(request) == Some(1)
    ensures r in s[7].log.issued && r in s[7].wallet && s[7].wallet[r] == Unpaid && r !in s[7].registry.vals
  {
    hide P.AmountOf, Next;
    assert s[1] == Next(s[0], evs[0]) && s[2] == Next(s[1], evs[1]) && s[3] == Next(s[2], evs[2]);
    assert s[4] == Next(s[3], evs[3]) && s[5] == Next(s[4], evs[4]) && s[6] == Next(s[5], evs[5]);
    assert s[7] == Next(s[6], evs[6]);
    FirstAdmitted(r, evs[0], request, offer);
    FirstCreated(s[1], r);
    FirstLocked(s[2], r);
    FirstRecorded(s[3], r);
    FirstLeftBehind(s[4], r);
  }

  lemma FirstCreated(s: State, r: Id)
    requires Begun(s, Admitted, r)
    ensures Begun(Next(s, Event(CreateRequest(r, 60.0), 0.0, 0.0)), Created, r)
  {
  }

  lemma FirstLeftBehind(s: State, r: Id)
    requires r in s.log.issued && r in s.wallet && r in s.registry.vals && s.wallet[r] == Unpaid
    requires !s.registry.vals[r].due && s.registry.vals[r].expiresAt == 60.0
    ensures var s5 := Next(s, Event(SetStatus(r, InFlight), 1.0, 1.0));
      var s6 := Next(s5, Event(Tick({}), 60.0, 60.0));
      var s7 := Next(s6, Event(SetStatus(r, Unpaid), 61.0, 61.0));
      r in s7.log.issued && r in s7.wallet && s7.wallet[r] == Unpaid && r !in s7.registry.vals
  {
    hide Filter;
  }

  /** The ordinary case: the invoice is never paid, the wallet calls its request expired or still
      unpaid, and after the sweep there is neither an entry nor a request. */
  lemma ExpiredIsCollected(r: Id, request: P.Request, offer: O.Offer, expired: bool)
    requires offer.active && offer.priceType.Spontaneous? && P.AmountOf(request) == Some(1)
    ensures var issue := OrphanRun(r, request, offer)[..4];
      var more := [Event(SetStatus(r, if expired then Expired else Unpaid), 59.0, 59.0), Event(Tick({}), 60.0, 60.0)];
      r in Run(INIT, issue).wallet && r in Run(INIT, issue).registry.vals &&
      r !in Run(INIT, issue + more).wallet && r !in Run(INIT, issue + more).registry.vals
  {
    var evs := OrphanRun(r, request, offer);
    var issue := evs[..4];
    var a := Event(SetStatus(r, if expired then Expired else Unpaid), 59.0, 59.0);
    var b := Event(Tick({}), 60.0, 60.0);
    IssueSteps(r, request, offer);
    assert issue + [a, b] == issue + [a] + [b];
    hide OrphanRun, Next;
    StepSnoc(INIT, issue, a);
    StepSnoc(INIT, issue + [a], b);
    FirstExpires(Run(INIT, issue), r, expired);
  }

  lemma StepSnoc(s: State, evs: seq<Event>, e: Event)
    ensures Run(s, evs + [e]) == Next(Run(s, evs), e)
  {
    hide Next;
    assert (evs + [e])[..|evs|] == evs;
  }

  lemma IssueSteps(r: Id, request: P.Request, offer: O.Offer)
    requires offer.active && offer.priceType.Spontaneous? && P.AmountOf(request) == Some(1)
    ensures var s := Run(INIT, OrphanRun(r, request, offer)[..4]);
      Valid(s.registry) && r in s.wallet && s.wallet[r] == Unpaid && r in s.registry.vals &&
      !s.registry.vals[r].due && s.registry.vals[r].expiresAt == 60.0
  {
    hide Next, P.AmountOf, Valid, Sound;
    var evs := OrphanRun(r, request, offer);
    ghost var s := seq(5, i requires 0 <= i < 5 => Run(INIT, evs[..i]));
    assert evs[..0] == [] && s[0] == INIT;
    forall i | 0 <= i < 4 ensures s[i + 1] == Next(s[i], evs[i]) { RunSnoc(INIT, evs, i); }
    ReachableIsSound(evs[..4]);
    PendingKnown(Run(INIT, evs[..4]));
    hide Run;
    assert s[1] == Next(s[0], evs[0]) && s[2] == Next(s[1], evs[1]) && s[3] == Next(s[2], evs[2]);
    assert s[4] == Next(s[3], evs[3]);
    FirstAdmitted(r, evs[0], request, offer);
    FirstCreated(s[1], r);
    FirstLocked(s[2], r);
    FirstRecorded(s[3], r);
  }

  lemma FirstExpires(s: State, r: Id, expired: bool)
    requires Valid(s.registry) && r in s.wallet && s.wallet[r] == Unpaid && r in s.registry.vals
    requires !s.registry.vals[r].due && s.registry.vals[r].expiresAt == 60.0
    ensures var s5 := Next(s, Event(SetStatus(r, if expired then Expired else Unpaid), 59.0, 59.0));
      var s6 := Next(s5, Event(Tick({}), 60.0, 60.0));
      r !in s6.wallet && r !in s6.registry.vals
  {
    SweepEffect(s.registry, 60.0);
    assert r in ExpiredSet(s.registry, 60.0);
    hide Valid, Filter, Swept, ExpiredSet;
  }

  // ---- one invoice, field by field -----------------------------------------------------------

  /** What issuing an invoice to a real payer comes to: its request is in the wallet, unpaid, unless
      the registry evicted it at once; the amount named is locked under its hash until the invoice
      expires; and the registry awaits its payment for that payer and that request, no less long. */
  lemma InvoiceIssued(s: State, d: Event, r: Id, expiry: real, lock: Event, record: Event)
    requires Sound(s) && s.phase.Idle? && r !in s.log.created
    requires d.act.Dispatch? && Admissible(s, d.act, d.early, d.now) && !IsSelftest(s.payers, d.act.payer, d.early)
    requires lock.act.Lock? && record.act.Record?
    requires L.Fits(L.Swept(s.reserved, d.act.mid), P.AmountOf(d.act.request).value, lock.act.mid, lock.now,
                    lock.act.capacity)
    ensures var s2 := Next(Next(s, d), Event(CreateRequest(r, expiry), d.now, d.now));
      var s4 := Next(Next(s2, lock), record);
      var entry := Awaiting(d.act.payer, d.act.req, record.now + expiry);
      var evicted := Evicted(Put(s.registry, r, entry));
      s4.phase.Idle? && r in s4.log.issued &&
      r in s4.reserved.vals && s4.reserved.vals[r].amountSat == P.AmountOf(d.act.request).value &&
      s4.reserved.vals[r].expiresAt == lock.early + expiry &&
      (r !in evicted ==>
        r in s4.wallet && s4.wallet[r] == Unpaid && r in s4.registry.vals &&
        s4.registry.vals[r].payer == d.act.payer && s4.registry.vals[r].req == d.act.req &&
        s4.registry.vals[r].expiresAt == record.now + expiry && !s4.registry.vals[r].due) &&
      (r in evicted ==> r !in s4.registry.vals) &&
      (D.PendingBounded(s.pending, record.early) ==>
        r in s4.pending.vals && s4.pending.vals[r] == D.Trunc(record.early))
  {
    hide Next, P.AmountOf, L.Fits, L.Swept, Evicted, Sound, Admissible, D.PendingBounded, IsSelftest, Put;
    InvoiceLocked(s, d, r, expiry, lock);
    PendingKnown(s);
    var s3 := Next(Next(Next(s, d), Event(CreateRequest(r, expiry), d.now, d.now)), lock);
    InvoiceRecorded(s3, record);
  }

  lemma InvoiceLocked(s: State, d: Event, r: Id, expiry: real, lock: Event)
    requires s.phase.Idle? && r !in s.log.created
    requires d.act.Dispatch? && Admissible(s, d.act, d.early, d.now) && !IsSelftest(s.payers, d.act.payer, d.early)
    requires lock.act.Lock?
    requires L.Fits(L.Swept(s.reserved, d.act.mid), P.AmountOf(d.act.request).value, lock.act.mid, lock.now,
                    lock.act.capacity)
    ensures var s3 := Next(Next(Next(s, d), Event(CreateRequest(r, expiry), d.now, d.now)), lock);
      At(s3, Locked) && !s3.phase.selftest && s3.phase.payer == d.act.payer && s3.phase.req == d.act.req &&
      s3.phase.rhash == r && s3.phase.expiry == expiry && r in s3.wallet && s3.wallet[r] == Unpaid &&
      s3.registry == s.registry && s3.pending == s.pending &&
      r in s3.reserved.vals && s3.reserved.vals[r].amountSat == P.AmountOf(d.act.request).value &&
      s3.reserved.vals[r].expiresAt == lock.early + expiry
  {
    hide P.AmountOf, L.Fits, L.Step, L.Swept, L.Available, PendingSet, Purged, Refusal, Dispatched;
    RefusedOrAdmitted(s, d.act, d.early, d.now);
    AdmittedPhase(s, d);
    FreshReserved(s, d, r, expiry, lock);
  }

  lemma InvoiceRecorded(s: State, record: Event)
    requires Valid(s.registry) && At(s, Locked) && !s.phase.selftest && record.act.Record?
    requires s.phase.rhash in s.wallet && s.wallet[s.phase.rhash] == Unpaid
    ensures var r, s' := s.phase.rhash, Next(s, record);
      var entry := Awaiting(s.phase.payer, s.phase.req, record.now + s.phase.expiry);
      var evicted := Evicted(Put(s.registry, r, entry));
      s'.phase.Idle? && r in s'.log.issued && s'.reserved == s.reserved &&
      (r !in evicted ==>
        r in s'.wallet && s'.wallet[r] == Unpaid && r in s'.registry.vals &&
        s'.registry.vals[r].payer == s.phase.payer && s'.registry.vals[r].req == s.phase.req &&
        s'.registry.vals[r].expiresAt == record.now + s.phase.expiry && !s'.registry.vals[r].due) &&
      (r in evicted ==> r !in s'.registry.vals) &&
      (D.PendingBounded(s.pending, record.early) ==>
        r in s'.pending.vals && s'.pending.vals[r] == D.Trunc(record.early))
  {
    hide Capped, Evicted, D.Issued, Collected, SparedOf, D.PendingBounded, D.Trunc, Valid;
    var r, entry := s.phase.rhash, Awaiting(s.phase.payer, s.phase.req, record.now + s.phase.expiry);
    var evicted := Evicted(Put(s.registry, r, entry));
    CapEffect(s.registry, r, entry);
    if r !in evicted { CollectedKeeps(s.wallet, evicted, record.act.failing, r); }
    if D.PendingBounded(s.pending, record.early) { D.NewestIsRemembered(s.pending, r, record.early); }
  }

  lemma AdmittedPhase(s: State, d: Event)
    requires s.phase.Idle? && d.act.Dispatch? && Dispatched(s, d.act, d.early, d.now).phase.Busy?
    ensures var p := Dispatched(s, d.act, d.early, d.now).phase;
      p.stage == Admitted && p.payer == d.act.payer && p.req == d.act.req &&
      p.selftest == IsSelftest(s.payers, d.act.payer, d.early)
    ensures var s1 := Dispatched(s, d.act, d.early, d.now);
      s1.wallet == s.wallet && s1.registry == s.registry && s1.pending == s.pending && s1.log == s.log &&
      s1.reserved == L.Swept(s.reserved, d.act.mid)
  {
    hide P.Resolve, L.Available, PendingSet, L.Swept;
  }

  lemma FreshReserved(s: State, d: Event, r: Id, expiry: real, lock: Event)
    requires lock.act.Lock? && d.act.Dispatch? && P.AmountOf(d.act.request).Some?
    requires L.Fits(L.Swept(s.reserved, d.act.mid), P.AmountOf(d.act.request).value, lock.act.mid, lock.now,
                    lock.act.capacity)
    ensures var reserved := L.Step(L.Swept(s.reserved, d.act.mid),
        L.Reserve(r, P.AmountOf(d.act.request).value, lock.early + expiry, lock.act.mid, lock.now, lock.act.capacity));
      r in reserved.vals && reserved.vals[r].amountSat == P.AmountOf(d.act.request).value &&
      reserved.vals[r].expiresAt == lock.early + expiry
  {
    hide P.AmountOf, L.Available;
  }

  lemma CollectedKeeps(wallet: map<Id, Status>, rs: seq<Id>, failing: set<Id>, r: Id)
    requires r in wallet && r !in rs
    ensures r in Collected(wallet, rs, failing) && Collected(wallet, rs, failing)[r] == wallet[r]
  {
  }

  /** What the paid signal for a paid request comes to: its liquidity is released, its hash taken for
      the fee, and its entry, if there is one, due from the first signal on, for the same addressee;
      nothing changes for any other hash. */
  lemma PaidSignalEffect(s: State, r: Id, early: real, now: real, other: Id)
    requires Sound(s) && r in s.wallet && s.wallet[r] == Paid && other != r
    ensures var s' := Next(s, Event(PaidSignal(r), early, now));
      r !in s'.reserved.vals && r !in s'.pending.vals && s'.wallet == s.wallet &&
      (r in s'.registry.vals <==> r in s.registry.vals) &&
      (r in s.registry.vals ==>
        s'.registry.vals[r].due && s'.registry.vals[r].payer == s.registry.vals[r].payer &&
        s'.registry.vals[r].req == s.registry.vals[r].req &&
        s'.registry.vals[r].dueSince == if s.registry.vals[r].due then s.registry.vals[r].dueSince else now) &&
      (other in s'.reserved.vals <==> other in s.reserved.vals) &&
      (other in s'.pending.vals <==> other in s.pending.vals) &&
      (other in s'.registry.vals <==> other in s.registry.vals) &&
      (other in s.registry.vals ==> s'.registry.vals[other] == s.registry.vals[other]) &&
      (other in s.reserved.vals ==> s'.reserved.vals[other] == s.reserved.vals[other])
  {
    hide Filter, Sound;
  }

  /** A registered identity counts as a self-test for two minutes, through whatever else happens,
      unless it is unregistered, registered again, or the process restarts. */
  lemma {:induction false} SelftestLastsTwoMinutes(s: State, payer: Id, at: real, evs: seq<Event>, t: real)
    requires forall i :: 0 <= i < |evs| ==> LeavesPayer(evs[i], payer) && evs[i].early <= t
    ensures IsSelftest(Run(Next(s, Event(RegisterPayer(payer), at, at)), evs).payers, payer, t) <==> t < at + 120.0
  {
    hide Next;
    var s0 := Next(s, Event(RegisterPayer(payer), at, at));
    if evs == [] {
      JustRegistered(s, payer, at);
    } else {
      SelftestLastsTwoMinutes(s, payer, at, evs[..|evs| - 1], t);
      PayerStep(Run(s0, evs[..|evs| - 1]), evs[|evs| - 1], payer, t);
    }
  }

  predicate LeavesPayer(e: Event, payer: Id) {
    e.act != UnregisterPayer(payer) && e.act != RegisterPayer(payer) && !e.act.Restart?
  }

  lemma JustRegistered(s: State, payer: Id, at: real)
    ensures var p := Next(s, Event(RegisterPayer(payer), at, at)).payers;
      payer in p && p[payer] == at + 120.0
  {
  }

  lemma PayerStep(s: State, e: Event, payer: Id, t: real)
    requires LeavesPayer(e, payer) && e.early <= t
    ensures IsSelftest(Next(s, e).payers, payer, t) <==> IsSelftest(s.payers, payer, t)
  {
    hide P.Resolve, L.Step, L.Fits, L.Available, PendingSet, Capped, Evicted, Swept, Filter, Attempted, Sent, Marked,
         D.Issued, Put, Collected, SparedOf, L.Swept, ExpiredSet;
  }
}
