/** clink/clink_plugin.py: a request from dispatch to invoice, and what happens to the invoice,
    across the wallet, the liquidity reservations, the dev-fee pending map and the receipt
    registry. Requests are dispatched one at a time; everything else may happen between any two
    steps of one. */
module Server {
  import opened Wrappers
  import opened PyDict
  import opened Receipts
  import L = Liquidity
  import D = DevFee
  import P = Protocol
  import O = Offers

  const MAX_PENDING_PER_PAYER := 200
  const SELFTEST_PAYER_TTL_SEC := 120.0

  /** What the wallet says of a request; `InFlight` stands for every status but the other three. A
      request stays paid once it is. */
  datatype Status = Unpaid | Expired | InFlight | Paid

  datatype Stage = Admitted | Created | Locked

  /** Where the one dispatched request stands. */
  datatype Phase =
    | Idle
    | Busy(stage: Stage, payer: Id, req: Id, amount: int, selftest: bool, rhash: Id, expiry: real)

  /** The history of a run: hashes the wallet made, invoices issued to the end for real payers,
      hashes handed to garbage collection, those of them that the size cap evicted, those it
      left there unpaid because a payment was in flight or the wallet raised, hashes ever paid, requests removed other
      than by garbage collection, and invoices whose handling broke off. */
  datatype Log = Log(created: set<Id>, issued: set<Id>, handed: set<Id>, evicted: set<Id>, spared: set<Id>,
                     paid: set<Id>, erased: set<Id>, aborted: set<Id>)

  /** `targets` holds the hashes for which a receipt delivery may be running: those ever due. */
  datatype State = State(
    wallet: map<Id, Status>, reserved: L.Reservations, pending: Dict<Id, int>, registry: Entries,
    payers: map<Id, real>, phase: Phase, targets: set<Id>, log: Log)

  datatype Action =
    | RegisterPayer(payer: Id)
    | UnregisterPayer(payer: Id)
    | Dispatch(payer: Id, req: Id, request: P.Request, offer: Option<O.Offer>, mid: real, capacity: int)
    | CreateRequest(rhash: Id, expiry: real)
    | CreateRaises(left: Option<Id>)
    | Lock(mid: real, capacity: int)
    | Record(failing: set<Id>)  // the hashes for which the wallet raises when they are collected
    | Unwind
    | Interrupt
    | SetStatus(rhash: Id, status: Status)
    | PaidSignal(rhash: Id)
    | Tick(failing: set<Id>)
    | Attempt(rhash: Id)
    | Send(rhash: Id)
    | UserDeletes(rhash: Id)
    | Restart

  /** A step and the first and last clock readings made in it. */
  datatype Event = Event(act: Action, early: real, now: real)

  const EMPTY_LOG := Log({}, {}, {}, {}, {}, {}, {}, {})
  const INIT := State(map[], Empty(), Empty(), Empty(), map[], Idle, {}, EMPTY_LOG)

  predicate IsSelftest(payers: map<Id, real>, payer: Id, now: real) {
    payer in payers && payers[payer] > now
  }

  function Purged(payers: map<Id, real>, now: real): map<Id, real> {
    map p | p in payers && payers[p] > now :: payers[p]
  }

  /** `_delete_stale_request` deletes a request in either of these states only. */
  predicate Deletable(wallet: map<Id, Status>, r: Id) {
    r in wallet && (wallet[r] == Unpaid || wallet[r] == Expired)
  }

  /** Whether garbage collection removes the request: an exception of the wallet is swallowed. */
  predicate Collects(wallet: map<Id, Status>, failing: set<Id>, r: Id) {
    Deletable(wallet, r) && r !in failing
  }

  /** The wallet after garbage-collecting `rs`. */
  function Collected(wallet: map<Id, Status>, rs: seq<Id>, failing: set<Id>): map<Id, Status> {
    map r | r in wallet && !(r in rs && Collects(wallet, failing, r)) :: wallet[r]
  }

  /** The hashes whose unpaid request is left there. */
  function SparedOf(wallet: map<Id, Status>, rs: seq<Id>, failing: set<Id>): set<Id> {
    set r | r in rs && r in wallet && wallet[r] != Paid && !Collects(wallet, failing, r)
  }

  function Handed(s: State, rs: seq<Id>, failing: set<Id>, evicted: bool): State {
    s.(wallet := Collected(s.wallet, rs, failing),
       log := s.log.(handed := s.log.handed + Elems(rs),
                     spared := s.log.spared + SparedOf(s.wallet, rs, failing),
                     evicted := if evicted then s.log.evicted + Elems(rs) else s.log.evicted))
  }

  /** `_dispatch` from the self-test check on: resolve the request, then hold a real payer to the
      cap on unpaid invoices. */
  function Dispatched(s: State, a: Action, early: real, now: real): State
    requires a.Dispatch?
  {
    var selftest := IsSelftest(s.payers, a.payer, early);
    var s1 := s.(payers := Purged(s.payers, early), reserved := L.Swept(s.reserved, a.mid));
    var resolution := P.Resolve(a.request, a.offer, L.Available(s.reserved, a.mid, a.capacity), 1);
    if !resolution.IssueInvoice? then s1
    else if !selftest && |PendingSet(s.registry, a.payer, now)| >= MAX_PENDING_PER_PAYER then s1
    else s1.(phase := Busy(Admitted, a.payer, a.req, resolution.amount, selftest, 0, 0.0))
  }

  /** The error code a dispatched request is refused with, if it is. */
  function Refusal(s: State, a: Action, early: real, now: real): Option<int>
    requires a.Dispatch?
  {
    var resolution := P.Resolve(a.request, a.offer, L.Available(s.reserved, a.mid, a.capacity), 1);
    if !resolution.IssueInvoice? then P.ErrorCode(resolution)
    else if !IsSelftest(s.payers, a.payer, early) && |PendingSet(s.registry, a.payer, now)| >= MAX_PENDING_PER_PAYER
    then Some(P.ERR_TEMPORARY_FAILURE)
    else None
  }

  /** The invoice awaits its payment, for that payer, and has not expired. */
  ghost predicate LiveUnpaid(d: Entries, r: Id, payer: Id, t: real) {
    r in d.vals && !d.vals[r].due && d.vals[r].payer == payer && t < d.vals[r].expiresAt
  }

  /** What it takes to be admitted: an active spontaneous offer, an amount in range that is
      available, and, unless it is a self-test, fewer than 200 live unpaid invoices of that payer. */
  ghost predicate Admissible(s: State, a: Action, early: real, now: real)
    requires a.Dispatch?
  {
    a.offer.Some? && a.offer.value.active && a.offer.value.priceType.Spontaneous? &&
    P.AmountOf(a.request).Some? &&
    1 <= P.AmountOf(a.request).value <= L.Available(s.reserved, a.mid, a.capacity) &&
    (IsSelftest(s.payers, a.payer, early) ||
     |set r | r in s.registry.vals && LiveUnpaid(s.registry, r, a.payer, now)| < 200)
  }

  /** A request is admitted, for the amount it names, exactly if it is admissible, and refused with
      the code of the first check that fails otherwise. */
  lemma RefusedOrAdmitted(s: State, a: Action, early: real, now: real)
    requires a.Dispatch? && s.phase.Idle?
    ensures Dispatched(s, a, early, now).phase.Busy? <==> Admissible(s, a, early, now)
    ensures Refusal(s, a, early, now).None? <==> Admissible(s, a, early, now)
    ensures Admissible(s, a, early, now) ==>
      Dispatched(s, a, early, now).phase.amount == P.AmountOf(a.request).value
    ensures Refusal(s, a, early, now) == Some(1) <==> a.offer.None? || !a.offer.value.active
    ensures Refusal(s, a, early, now) == Some(4) <==>
      a.offer.Some? && a.offer.value.active && !a.offer.value.priceType.Spontaneous?
    ensures Refusal(s, a, early, now) == Some(5) <==>
      (a.offer.Some? && a.offer.value.active && a.offer.value.priceType.Spontaneous? &&
       (P.AmountOf(a.request).None? || P.AmountOf(a.request).value < 1 ||
        P.AmountOf(a.request).value > L.Available(s.reserved, a.mid, a.capacity)))
    ensures Refusal(s, a, early, now) == Some(2) <==>
      !Admissible(s, a, early, now) && Admissible(s.(registry := Empty()), a, early, now)
  {
    NoneOutstanding(a.payer, now);
    OutstandingExactly(s.registry, a.payer, now);
    OutstandingExactly(Empty(), a.payer, now);
    hide L.Available, P.AmountOf, PendingSet, IsSelftest;
  }

  lemma OutstandingExactly(d: Entries, payer: Id, now: real)
    ensures PendingSet(d, payer, now) == set r | r in d.vals && LiveUnpaid(d, r, payer, now)
  {
  }

  lemma NoneOutstanding(payer: Id, now: real)
    ensures |PendingSet(Empty(), payer, now)| == 0
  {
    assert PendingSet(Empty(), payer, now) == {};
  }

  /** The wallet makes a request under a fresh hash. */
  function RequestCreated(s: State, rhash: Id, expiry: real): State
    requires s.phase.Busy?
  {
    s.(wallet := s.wallet[rhash := Unpaid], log := s.log.(created := s.log.created + {rhash}),
       phase := s.phase.(stage := Created, rhash := rhash, expiry := expiry))
  }

  /** Creation raised, before or after the wallet stored a request. */
  function CreationRaised(s: State, left: Option<Id>): State {
    if left.None? then s.(phase := Idle)
    else s.(wallet := s.wallet[left.value := Unpaid], phase := Idle,
            log := s.log.(created := s.log.created + {left.value}, aborted := s.log.aborted + {left.value}))
  }

  function Removed(s: State, r: Id): State {
    s.(wallet := s.wallet - {r}, log := s.log.(erased := s.log.erased + {r}))
  }

  /** The liquidity is locked, or the race for it was lost and the request deleted. */
  function LockTried(s: State, early: real, mid: real, now: real, capacity: int): State
    requires s.phase.Busy?
  {
    var p := s.phase;
    var s1 := s.(reserved := L.Step(s.reserved, L.Reserve(p.rhash, p.amount, early + p.expiry, mid, now, capacity)));
    if L.Fits(s.reserved, p.amount, mid, now, capacity) then s1.(phase := p.(stage := Locked))
    else Removed(s1.(phase := Idle), p.rhash)
  }

  /** `mark_issued`, `remember`, and the garbage collection of what the cap evicted. */
  function Recorded(s: State, failing: set<Id>, early: real, now: real): State
    requires s.phase.Busy?
  {
    var p := s.phase;
    var d := Put(s.registry, p.rhash, Awaiting(p.payer, p.req, now + p.expiry));
    var s1 := s.(pending := D.Issued(s.pending, p.rhash, early), registry := Capped(d), phase := Idle,
                 log := s.log.(issued := s.log.issued + {p.rhash}));
    Handed(s1, Evicted(d), failing, true)
  }

  function Unwound(s: State): State
    requires s.phase.Busy?
  {
    Removed(s.(reserved := Drop(s.reserved, s.phase.rhash), phase := Idle), s.phase.rhash)
  }

  /** The handling breaks off: a self-test cancelled while it answers, or the process ends. */
  function BrokenOff(s: State): State {
    if s.phase.Busy? && s.phase.stage != Admitted
    then s.(phase := Idle, log := s.log.(aborted := s.log.aborted + {s.phase.rhash}))
    else s.(phase := Idle)
  }

  function StatusSet(s: State, r: Id, status: Status): State {
    if r !in s.wallet || s.wallet[r] == Paid then s
    else s.(wallet := s.wallet[r := status],
            log := if status == Paid then s.log.(paid := s.log.paid + {r}) else s.log)
  }

  /** `on_event_request_status`, for a request that is paid and still there. */
  function Settled(s: State, r: Id, now: real): State {
    if r !in s.wallet || s.wallet[r] != Paid then s
    else s.(reserved := Drop(s.reserved, r), registry := Marked(s.registry, r, now),
            targets := if r in s.registry.vals then s.targets + {r} else s.targets,
            pending := if r in s.pending.vals then Drop(s.pending, r) else s.pending)
  }

  function Ticked(s: State, failing: set<Id>, now: real): State {
    var expired := Filter(s.registry.keys, ExpiredSet(s.registry, now));
    Handed(s.(registry := Swept(s.registry, now)), expired, failing, false)
  }

  predicate At(s: State, stage: Stage) {
    s.phase.Busy? && s.phase.stage == stage
  }

  function Next(s: State, e: Event): State {
    match e.act
    case RegisterPayer(p) => s.(payers := s.payers[p := e.now + SELFTEST_PAYER_TTL_SEC])
    case UnregisterPayer(p) => s.(payers := s.payers - {p})
    case Dispatch(_, _, _, _, _, _) => if s.phase.Idle? then Dispatched(s, e.act, e.early, e.now) else s
    case CreateRequest(r, expiry) =>
      if At(s, Admitted) && r !in s.log.created then RequestCreated(s, r, expiry) else s
    case CreateRaises(left) =>
      if At(s, Admitted) && (left.Some? ==> left.value !in s.log.created) then CreationRaised(s, left) else s
    case Lock(mid, capacity) =>
      if At(s, Created) then LockTried(s, e.early, mid, e.now, capacity) else s
    case Record(failing) =>
      if At(s, Locked) && !s.phase.selftest then Recorded(s, failing, e.early, e.now) else s
    case Unwind => if At(s, Locked) && s.phase.selftest then Unwound(s) else s
    case Interrupt => if At(s, Locked) && s.phase.selftest then BrokenOff(s) else s
    case SetStatus(r, status) => StatusSet(s, r, status)
    case PaidSignal(r) => Settled(s, r, e.now)
    case Tick(failing) => Ticked(s, failing, e.now)
    case Attempt(r) => if r in s.targets then s.(registry := Attempted(s.registry, r, e.now)) else s
    case Send(r) => if r in s.targets then s.(registry := Sent(s.registry, r, e.now)) else s
    case UserDeletes(r) => if r in s.wallet then Removed(s, r) else s
    case Restart => BrokenOff(s).(reserved := Empty(), payers := map[])
  }

  function Run(s: State, evs: seq<Event>): State {
    if evs == [] then s else Next(Run(s, evs[..|evs| - 1]), evs[|evs| - 1])
  }

  /** The clock never runs backwards, from `t0` on, within a step or between steps. */
  ghost predicate Timed(t0: real, evs: seq<Event>) {
    (forall i :: 0 <= i < |evs| ==> InOrder(evs[i]) && t0 <= evs[i].early) &&
    forall i, j :: 0 <= i < j < |evs| ==> evs[i].now <= evs[j].early
  }

  ghost predicate InOrder(e: Event) {
    e.early <= e.now && (e.act.Lock? || e.act.Dispatch? ==> e.early <= e.act.mid <= e.now)
  }

  /** The last clock reading of a run. */
  function LastReading(t0: real, evs: seq<Event>): real {
    if evs == [] then t0 else evs[|evs| - 1].now
  }
}
