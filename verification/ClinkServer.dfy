/** clink/clink_plugin.py: the request path of `ClinkServer` over its ledgers. Each method is one
    step of the state machine in Server.dfy. */
module RequestServer {
  import opened Wrappers
  import opened PyDict
  import opened Receipts
  import opened Server
  import L = Liquidity
  import D = DevFee
  import P = Protocol
  import O = Offers

  lemma CollectedStep(wallet: map<Id, Status>, rs: seq<Id>, failing: set<Id>, i: nat)
    requires i < |rs|
    ensures var before := Collected(wallet, rs[..i], failing);
      Collected(wallet, rs[..i + 1], failing) == if Collects(before, failing, rs[i]) then before - {rs[i]} else before
  {
    assert forall r :: r in rs[..i + 1] <==> r in rs[..i] || r == rs[i];
  }

  /** The invoice was not paid in time. */
  predicate Lapsed(d: Entries, r: Id, now: real) {
    r in d.vals && !d.vals[r].due && d.vals[r].expiresAt <= now
  }

  lemma LapsedAreSwept(d: Entries, now: real)
    requires PyDict.Valid(d)
    ensures forall r :: Lapsed(d, r, now) ==> r in Filter(d.keys, ExpiredSet(d, now))
  {
    forall r | r in d.vals ensures r in d.keys { assert r in Elems(d.keys); }
    hide Filter;
  }

  class ClinkServer {
    const reserver: L.LiquidityReserver
    const devfee: D.DevFeeLedger
    const receipts: ReceiptRegistry
    var wallet: map<Id, Status>
    var payers: map<Id, real>
    var phase: Phase
    ghost var targets: set<Id>
    ghost var log: Log

    constructor (reserver: L.LiquidityReserver, devfee: D.DevFeeLedger, receipts: ReceiptRegistry)
      requires reserver.Valid() && devfee.Valid() && receipts.Valid()
      ensures Valid() && this.reserver == reserver && this.devfee == devfee && this.receipts == receipts
      ensures View() ==
        State(map[], reserver.reservations, devfee.ledger.pending, receipts.entries, map[], Idle, {}, EMPTY_LOG)
    {
      this.reserver, this.devfee, this.receipts := reserver, devfee, receipts;
      wallet, payers, phase, targets, log := map[], map[], Idle, {}, EMPTY_LOG;
    }

    ghost predicate Valid()
      reads this, reserver, devfee, receipts
    {
      reserver.Valid() && devfee.Valid() && receipts.Valid()
    }

    ghost function View(): State
      reads this, reserver, devfee, receipts
    {
      State(wallet, reserver.reservations, devfee.ledger.pending, receipts.entries, payers, phase, targets, log)
    }

    method RegisterSelftestPayer(payer: Id, early: real, now: real)
      requires Valid()
      modifies this`payers
      ensures Valid() && View() == Next(old(View()), Event(RegisterPayer(payer), early, now))
    {
      payers := payers[payer := now + SELFTEST_PAYER_TTL_SEC];
    }

    method UnregisterSelftestPayer(payer: Id, early: real, now: real)
      requires Valid()
      modifies this`payers
      ensures Valid() && View() == Next(old(View()), Event(UnregisterPayer(payer), early, now))
    {
      payers := payers - {payer};
    }

    /** `is_selftest_payer`: forgets lapsed identities as it looks. */
    method IsSelftestPayer(payer: Id, now: real) returns (yes: bool)
      modifies this`payers
      ensures yes == IsSelftest(old(payers), payer, now) && payers == Purged(old(payers), now)
    {
      payers := Purged(payers, now);
      yes := payer in payers;
    }

    /** The end of `_dispatch`: the refusal to send, if any. */
    method DispatchRequest(payer: Id, req: Id, request: P.Request, offer: Option<O.Offer>, capacity: int,
                           early: real, mid: real, now: real) returns (refusal: Option<int>)
      requires Valid() && phase.Idle?
      modifies this`payers, this`phase, reserver
      ensures Valid()
      ensures View() == Next(old(View()), Event(Dispatch(payer, req, request, offer, mid, capacity), early, now))
      ensures refusal == old(Refusal(View(), Dispatch(payer, req, request, offer, mid, capacity), early, now))
    {
      var selftest := IsSelftestPayer(payer, early);
      var available := reserver.AvailableSat(mid, capacity);
      var resolution := P.Resolve(request, offer, available, 1);
      if !resolution.IssueInvoice? {
        return P.ErrorCode(resolution);
      }
      var outstanding := receipts.PendingCountFor(payer, now);
      if !selftest && outstanding >= MAX_PENDING_PER_PAYER {
        return Some(P.ERR_TEMPORARY_FAILURE);
      }
      phase := Busy(Admitted, payer, req, resolution.amount, selftest, 0, 0.0);
      return None;
    }

    /** The wallet makes the request; `rhash` is the fresh hash it draws. */
    method CreateWalletRequest(rhash: Id, expiry: real, early: real, now: real)
      requires Valid() && phase.Busy? && phase.stage == Admitted && rhash !in log.created
      modifies this
      ensures Valid() && View() == Next(old(View()), Event(CreateRequest(rhash, expiry), early, now))
    {
      wallet := wallet[rhash := Unpaid];
      phase := phase.(stage := Created, rhash := rhash, expiry := expiry);
      log := log.(created := log.created + {rhash});
    }

    /** Locks the liquidity, or gives the request up. */
    method LockLiquidity(early: real, mid: real, now: real, capacity: int) returns (ok: bool)
      requires Valid() && phase.Busy? && phase.stage == Created
      modifies this, reserver
      ensures Valid() && View() == Next(old(View()), Event(Lock(mid, capacity), early, now))
      ensures ok <==> phase.Busy?
    {
      ok := reserver.TryReserve(phase.rhash, phase.amount, early + phase.expiry, mid, now, capacity);
      if ok {
        phase := phase.(stage := Locked);
      } else {
        wallet := wallet - {phase.rhash};
        log := log.(erased := log.erased + {phase.rhash});
        phase := Idle;
      }
    }

    /** For a real payer: the invoice goes to the dev-fee map and the registry, and what the cap
        evicts there is garbage-collected. */
    method RecordInvoice(failing: set<Id>, early: real, now: real)
      requires Valid() && phase.Busy? && phase.stage == Locked && !phase.selftest
      modifies this, devfee, receipts
      ensures Valid() && View() == Next(old(View()), Event(Record(failing), early, now))
    {
      hide Capped, Evicted, D.Issued, Put, Collected, SparedOf, PyDict.Valid;
      devfee.MarkIssued(phase.rhash, early);
      var evicted := receipts.Remember(phase.rhash, phase.payer, phase.req, now + phase.expiry);
      log := log.(issued := log.issued + {phase.rhash}, handed := log.handed + Elems(evicted),
                  spared := log.spared + SparedOf(wallet, evicted, failing), evicted := log.evicted + Elems(evicted));
      phase := Idle;
      DeleteStaleRequests(evicted, failing);
    }

    /** For a self-test, once its answer is sent: liquidity and request are given back. */
    method UnwindSelfTest(early: real, now: real)
      requires Valid() && phase.Busy? && phase.stage == Locked && phase.selftest
      modifies this, reserver
      ensures Valid() && View() == Next(old(View()), Event(Unwind, early, now))
    {
      reserver.Release(phase.rhash);
      wallet := wallet - {phase.rhash};
      log := log.(erased := log.erased + {phase.rhash});
      phase := Idle;
    }

    /** The two loops over `_delete_stale_request`; the wallet raises for the hashes in `failing`,
        and the loop goes on. */
    method DeleteStaleRequests(stale: seq<Id>, failing: set<Id>)
      modifies this`wallet
      ensures wallet == Collected(old(wallet), stale, failing)
      ensures forall r :: r in wallet <==> (r in old(wallet) &&
        !(r in stale && r !in failing && (old(wallet)[r] == Unpaid || old(wallet)[r] == Expired)))
      ensures forall r :: r in wallet ==> wallet[r] == old(wallet)[r]
    {
      ghost var before := wallet;
      assert Collected(before, stale[..0], failing) == before;
      for i := 0 to |stale|
        invariant wallet == Collected(before, stale[..i], failing)
      {
        CollectedStep(before, stale, failing, i);
        if stale[i] in failing {
          continue;
        }
        if stale[i] in wallet && (wallet[stale[i]] == Unpaid || wallet[stale[i]] == Expired) {
          wallet := wallet - {stale[i]};
        }
      }
      assert stale[..|stale|] == stale;
    }

    /** `on_event_request_status`, told that the request behind `rhash` is paid: the target whose
        delivery starts now, and whether the dev fee accrues. */
    method OnRequestPaid(rhash: Id, early: real, now: real) returns (target: Option<Target>, ours: bool)
      requires Valid() && rhash in wallet && wallet[rhash] == Paid
      modifies this, reserver, devfee, receipts
      ensures Valid() && View() == Next(old(View()), Event(PaidSignal(rhash), early, now))
      ensures target.Some? <==> rhash in old(receipts.entries).vals
      ensures ours <==> rhash in old(devfee.ledger).pending.vals
    {
      reserver.Release(rhash);
      target := receipts.MarkDue(rhash, now);
      if target.Some? {
        targets := targets + {rhash};
      }
      ours := devfee.TakeIssued(rhash);
    }

    /** The hourly sweep with its garbage collection. */
    method SweepTick(failing: set<Id>, early: real, now: real)
      requires Valid()
      modifies this, receipts
      ensures Valid() && View() == Next(old(View()), Event(Tick(failing), early, now))
      ensures forall r :: Lapsed(old(receipts.entries), r, now) && r !in failing ==>
        (r in wallet <==> r in old(wallet) && (old(wallet)[r] == InFlight || old(wallet)[r] == Paid))
    {
      hide PyDict.Valid, Filter, ExpiredSet, Swept, Lapsed, Collected, SparedOf;
      LapsedAreSwept(receipts.entries, now);
      var stale := receipts.Sweep(now);
      log := log.(handed := log.handed + Elems(stale), spared := log.spared + SparedOf(wallet, stale, failing));
      DeleteStaleRequests(stale, failing);
    }
  }
}
