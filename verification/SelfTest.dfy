/** The self-test of an offer runs through the normal request path and unwinds its effects. Run
    beside anything else, it changes nothing: the ledgers end as if only the rest had happened. */
module SelfTest {
  import opened PyDict
  import opened Receipts
  import opened Server
  import opened ServerRuns
  import L = Liquidity
  import P = Protocol

  /** The steps that are not part of handling the dispatched request. */
  predicate FromOutside(a: Action) {
    a.RegisterPayer? || a.UnregisterPayer? || a.SetStatus? || a.PaidSignal? || a.Tick? || a.Attempt? || a.Send? ||
    a.UserDeletes?
  }

  /** The steps by which the handling breaks off. */
  predicate BreaksOff(a: Action) {
    a.CreateRaises? || a.Interrupt? || a.Restart?
  }

  function Outside(evs: seq<Event>): seq<Event> {
    if evs == [] then []
    else
      var rest := Outside(evs[..|evs| - 1]);
      if FromOutside(evs[|evs| - 1].act) then rest + [evs[|evs| - 1]] else rest
  }

  predicate Testing(s: State) {
    s.phase.Busy? && s.phase.selftest
  }

  /** A run during which the self-test neither breaks off nor ends before the last step. */
  ghost predicate Undisturbed(s: State, evs: seq<Event>) {
    forall i :: 0 <= i < |evs| ==> Testing(Run(s, evs[..i])) && !BreaksOff(evs[i].act)
  }

  ghost predicate ReadBy(e: Event, t: real) {
    e.early <= t && e.now <= t && (e.act.Lock? || e.act.Dispatch? ==> e.act.mid <= t)
  }

  /** The request that the self-test has in the wallet. */
  function Own(s: State): set<Id> {
    if s.phase.Busy? && s.phase.stage != Admitted then {s.phase.rhash} else {}
  }

  /** The reservations live at `t`, except those for `own`. */
  function LiveOthers(d: L.Reservations, own: set<Id>, t: real): L.Reservations {
    Restrict(d, L.LiveSet(d, t) - own)
  }

  /** The two states agree on everything but the self-test's own request. */
  ghost predicate Shadow(a: State, b: State, t: real) {
    a.registry == b.registry && a.pending == b.pending && a.targets == b.targets &&
    a.wallet - Own(a) == b.wallet && Own(a) !! b.wallet.Keys &&
    LiveOthers(a.reserved, Own(a), t) == LiveOthers(b.reserved, {}, t)
  }

  // ---- reservations ---------------------------------------------------------------------

  lemma RestrictTwice<V>(d: Dict<Id, V>, S: set<Id>, T: set<Id>)
    ensures Restrict(Restrict(d, S), T) == Restrict(d, S * T)
  {
    FilterTwice(d.keys, S, T);
  }

  /** Sweeping earlier does not show later. */
  lemma SweptStaysLive(d: L.Reservations, own: set<Id>, now: real, t: real)
    requires Valid(d) && now <= t
    ensures LiveOthers(L.Swept(d, now), own, t) == LiveOthers(d, own, t)
  {
    var S := L.LiveSet(d, now);
    RestrictTwice(d, S, L.LiveSet(L.Swept(d, now), t) - own);
    assert S * (L.LiveSet(L.Swept(d, now), t) - own) == L.LiveSet(d, t) - own;
  }

  /** Releasing a key commutes with looking at the live ones. */
  lemma DropLive(d: L.Reservations, own: set<Id>, x: Id, t: real)
    requires Valid(d)
    ensures LiveOthers(Drop(d, x), own, t) == Drop(LiveOthers(d, own, t), x)
  {
    var S, live := d.vals.Keys - {x}, L.LiveSet(d, t) - own;
    var T := L.LiveSet(Drop(d, x), t) - own;
    RestrictTwice(d, S, T);
    var inner := LiveOthers(d, own, t);
    RestrictTwice(d, live, inner.vals.Keys - {x});
    assert S * T == live * (inner.vals.Keys - {x});
  }

  lemma DropOwn(d: L.Reservations, r: Id, t: real)
    requires Valid(d)
    ensures LiveOthers(Drop(d, r), {r}, t) == LiveOthers(d, {r}, t)
    ensures LiveOthers(Drop(d, r), {}, t) == LiveOthers(d, {r}, t)
  {
    var S := d.vals.Keys - {r};
    RestrictTwice(d, S, L.LiveSet(Drop(d, r), t) - {r});
    RestrictTwice(d, S, L.LiveSet(Drop(d, r), t) - {});
    assert S * (L.LiveSet(Drop(d, r), t) - {r}) == L.LiveSet(d, t) - {r};
    assert S * (L.LiveSet(Drop(d, r), t) - {}) == L.LiveSet(d, t) - {r};
  }

  lemma PutOwn(d: L.Reservations, r: Id, v: L.Reservation, t: real)
    requires Valid(d) && r !in d.vals
    ensures LiveOthers(Put(d, r, v), {r}, t) == LiveOthers(d, {r}, t)
  {
    var d', S, T := Put(d, r, v), L.LiveSet(Put(d, r, v), t) - {r}, L.LiveSet(d, t) - {r};
    assert S == T;
    FilterSnoc(d.keys, r, S);
  }

  lemma NoneOwn(d: L.Reservations, r: Id, t: real)
    requires r !in d.vals
    ensures LiveOthers(d, {r}, t) == LiveOthers(d, {}, t)
  {
    assert L.LiveSet(d, t) - {r} == L.LiveSet(d, t) - {};
  }

  /** Trying to reserve for `r` shows in no other reservation. */
  lemma ReserveOwn(d: L.Reservations, c: L.Call, t: real)
    requires Valid(d) && c.Reserve? && c.key !in d.vals && c.now <= t && c.again <= t
    ensures LiveOthers(L.Step(d, c), {c.key}, t) == LiveOthers(d, {c.key}, t)
    ensures !L.Fits(d, c.amountSat, c.now, c.again, c.capacity) ==> c.key !in L.Step(d, c).vals
  {
    var d0 := L.Swept(d, c.now);
    RestrictValid(d, L.LiveSet(d, c.now));
    RestrictValid(d0, L.LiveSet(d0, c.again));
    SweptStaysLive(d, {c.key}, c.now, t);
    SweptStaysLive(d0, {c.key}, c.again, t);
    PutOwn(L.Swept(d0, c.again), c.key, L.Reservation(c.key, c.amountSat, c.expiresAt), t);
    hide LiveOthers, Restrict;
  }

  // ---- steps ------------------------------------------------------------------------------

  lemma OwnIsApart(a: State)
    requires Sound(a)
    ensures Own(a) !! a.registry.vals.Keys && Own(a) !! a.pending.vals.Keys && Own(a) !! a.targets
  {
  }

  /** A step from outside does the same with and without the self-test. */
  lemma OutsideShadows(a: State, b: State, e: Event, t: real)
    requires Sound(a) && Sound(b) && Shadow(a, b, t) && FromOutside(e.act)
    ensures Shadow(Next(a, e), Next(b, e), t)
  {
    OwnIsApart(a);
    hide Sound, LiveOthers, Shadow;
    match e.act
    case PaidSignal(x) => SettleShadows(a, b, e, t);
    case Tick(_) => TickShadows(a, b, e, t);
    case Attempt(_) => DeliveryShadows(a, b, e, t);
    case Send(_) => DeliveryShadows(a, b, e, t);
    case _ => WalletShadows(a, b, e, t);
  }

  lemma WalletShadows(a: State, b: State, e: Event, t: real)
    requires Shadow(a, b, t)
    requires e.act.RegisterPayer? || e.act.UnregisterPayer? || e.act.SetStatus? || e.act.UserDeletes?
    ensures Shadow(Next(a, e), Next(b, e), t)
  {
    hide LiveOthers, StatusSet, Removed;
    match e.act
    case SetStatus(r, status) => StatusShadows(a, b, r, status, t);
    case UserDeletes(r) => RemovedShadows(a, b, r, t);
    case _ =>
  }

  lemma DeliveryShadows(a: State, b: State, e: Event, t: real)
    requires Shadow(a, b, t) && (e.act.Attempt? || e.act.Send?)
    ensures Shadow(Next(a, e), Next(b, e), t)
  {
    hide LiveOthers, Attempted, Sent;
  }

  lemma StatusShadows(a: State, b: State, r: Id, status: Status, t: real)
    requires Shadow(a, b, t)
    ensures Shadow(StatusSet(a, r, status), StatusSet(b, r, status), t)
  {
    hide LiveOthers;
    var w := a.wallet[r := status];
    assert r in Own(a) ==> w - Own(a) == a.wallet - Own(a);
    assert r !in Own(a) ==> w - Own(a) == (a.wallet - Own(a))[r := status];
  }

  lemma RemovedShadows(a: State, b: State, r: Id, t: real)
    requires Shadow(a, b, t)
    ensures Shadow(if r in a.wallet then Removed(a, r) else a, if r in b.wallet then Removed(b, r) else b, t)
  {
    hide LiveOthers;
    assert (a.wallet - {r}) - Own(a) == (a.wallet - Own(a)) - {r};
    assert r !in b.wallet ==> b.wallet - {r} == b.wallet;
  }

  lemma TickShadows(a: State, b: State, e: Event, t: real)
    requires Sound(a) && Shadow(a, b, t) && e.act.Tick?
    ensures Shadow(Next(a, e), Next(b, e), t)
  {
    hide LiveOthers, Filter, Swept, ExpiredSet, Sound;
    OwnIsApart(a);
    ReservedValid(a);
    SweepEffect(a.registry, e.now);
    var gone := Filter(a.registry.keys, ExpiredSet(a.registry, e.now));
    assert forall r :: r in Own(a) ==> r !in gone;
    CollectedShadow(a.wallet, Own(a), gone, e.act.failing);
  }

  lemma CollectedShadow(wallet: map<Id, Status>, own: set<Id>, gone: seq<Id>, failing: set<Id>)
    requires forall r :: r in own ==> r !in gone
    ensures Collected(wallet, gone, failing) - own == Collected(wallet - own, gone, failing)
  {
  }

  lemma SettleShadows(a: State, b: State, e: Event, t: real)
    requires Sound(a) && Sound(b) && Shadow(a, b, t) && e.act.PaidSignal?
    ensures Shadow(Next(a, e), Next(b, e), t)
  {
    hide LiveOthers, Drop, Sound;
    var x := e.act.rhash;
    OwnIsApart(a);
    ReservedValid(a);
    ReservedValid(b);
    DropLive(a.reserved, Own(a), x, t);
    DropLive(b.reserved, {}, x, t);
    if x in Own(a) {
      DropOwn(a.reserved, x, t);
      assert Own(a) == {x};
    } else {
      assert x in a.wallet <==> x in b.wallet;
    }
  }

  lemma ReservedValid(s: State)
    requires Sound(s)
    ensures Valid(s.reserved) && Valid(s.registry)
  {
  }

  /** A step of the self-test shows nowhere else. */
  lemma TestShadows(a: State, b: State, e: Event, t: real)
    requires Sound(a) && Shadow(a, b, t) && Testing(a) && !FromOutside(e.act) && !BreaksOff(e.act) && ReadBy(e, t)
    ensures Shadow(Next(a, e), b, t)
  {
    match e.act
    case Dispatch(_, _, _, _, _, _) => hide Sound, LiveOthers;
    case Record(_) => hide Sound, LiveOthers;
    case CreateRequest(r, _) =>
      if At(a, Admitted) && r !in a.log.created {
        NoneOwn(a.reserved, r, t);
        assert (a.wallet[r := Unpaid] - {r}).Keys == a.wallet.Keys;
      }
      hide LiveOthers;
    case Lock(_, _) => LockShadows(a, b, e, t);
    case Unwind =>
      if At(a, Locked) { DropOwn(a.reserved, a.phase.rhash, t); }
      hide LiveOthers, Drop, Sound;
  }

  lemma LockShadows(a: State, b: State, e: Event, t: real)
    requires Sound(a) && Shadow(a, b, t) && Testing(a) && e.act.Lock? && ReadBy(e, t)
    ensures Shadow(Next(a, e), b, t)
  {
    hide LiveOthers, L.Step, L.Fits, Sound;
    if At(a, Created) {
      LockReserved(a, LockCall(a, e), t);
    }
  }

  lemma LockReserved(a: State, c: L.Call, t: real)
    requires Sound(a) && At(a, Created) && c.Reserve? && c.key == a.phase.rhash && c.now <= t && c.again <= t
    ensures LiveOthers(L.Step(a.reserved, c), {c.key}, t) == LiveOthers(a.reserved, {c.key}, t)
    ensures !L.Fits(a.reserved, c.amountSat, c.now, c.again, c.capacity) ==>
      LiveOthers(L.Step(a.reserved, c), {}, t) == LiveOthers(a.reserved, {c.key}, t)
  {
    ReserveOwn(a.reserved, c, t);
    hide LiveOthers, L.Step, L.Fits;
    if !L.Fits(a.reserved, c.amountSat, c.now, c.again, c.capacity) {
      NoneOwn(L.Step(a.reserved, c), c.key, t);
    }
  }

  // ---- the whole test ---------------------------------------------------------------------

  /** Admitting the test changes nothing that matters. */
  lemma AdmissionShadows(s: State, d: Event, t: real)
    requires Sound(s) && s.phase.Idle? && d.act.Dispatch? && Testing(Next(s, d)) && ReadBy(d, t)
    ensures Shadow(Next(s, d), s, t)
  {
    SweptStaysLive(s.reserved, {}, d.act.mid, t);
    assert s.wallet - {} == s.wallet;
    hide LiveOthers, P.Resolve, L.Available, PendingSet, L.Swept;
  }

  lemma UndisturbedPrefix(s: State, evs: seq<Event>)
    requires Undisturbed(s, evs) && evs != []
    ensures Undisturbed(s, evs[..|evs| - 1])
    ensures Testing(Run(s, evs[..|evs| - 1])) && !BreaksOff(evs[|evs| - 1].act)
  {
    var init := evs[..|evs| - 1];
    forall i | 0 <= i < |init| ensures Testing(Run(s, init[..i])) && !BreaksOff(init[i].act) {
      assert init[..i] == evs[..i];
    }
  }

  lemma {:induction false} RunShadows(s: State, d: Event, evs: seq<Event>, t: real)
    requires Sound(s) && s.phase.Idle? && d.act.Dispatch? && Testing(Next(s, d)) && ReadBy(d, t)
    requires Undisturbed(Next(s, d), evs) && forall i :: 0 <= i < |evs| ==> ReadBy(evs[i], t)
    ensures Shadow(Run(Next(s, d), evs), Run(s, Outside(evs)), t)
  {
    var a := Next(s, d);
    if evs == [] {
      AdmissionShadows(s, d, t);
    } else {
      var init, e := evs[..|evs| - 1], evs[|evs| - 1];
      UndisturbedPrefix(a, evs);
      RunShadows(s, d, init, t);
      StepKeepsSound(s, d);
      RunKeepsSound(a, init);
      RunKeepsSound(s, Outside(init));
      if FromOutside(e.act) {
        OutsideShadows(Run(a, init), Run(s, Outside(init)), e, t);
        assert (Outside(init) + [e])[..|Outside(init)|] == Outside(init);
      } else {
        TestShadows(Run(a, init), Run(s, Outside(init)), e, t);
      }
    }
  }

  /** A self-test that ran to its end, whatever else happened meanwhile, leaves the registry, the
      dev-fee pending map, the wallet's requests and the live reservations exactly as the other
      steps alone would have: with none, as they were before it. It does so whether its invoice
      was issued and unwound or lost the race for liquidity, and even if someone paid it. */
  lemma SelfTestLeavesNoTrace(s: State, d: Event, evs: seq<Event>, t: real)
    requires Sound(s) && s.phase.Idle? && d.act.Dispatch? && Testing(Next(s, d)) && ReadBy(d, t)
    requires Undisturbed(Next(s, d), evs) && forall i :: 0 <= i < |evs| ==> ReadBy(evs[i], t)
    requires Run(Next(s, d), evs).phase.Idle?
    ensures var with, without := Run(Next(s, d), evs), Run(s, Outside(evs));
      with.registry == without.registry && with.pending == without.pending && with.wallet == without.wallet &&
      L.Swept(with.reserved, t) == L.Swept(without.reserved, t)
    ensures Outside(evs) == [] ==> Run(s, Outside(evs)) == s
  {
    RunShadows(s, d, evs, t);
    var with, without := Run(Next(s, d), evs), Run(s, Outside(evs));
    assert with.wallet - {} == with.wallet;
    assert L.LiveSet(with.reserved, t) - {} == L.LiveSet(with.reserved, t);
    assert L.LiveSet(without.reserved, t) - {} == L.LiveSet(without.reserved, t);
  }
}
