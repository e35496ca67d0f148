/** The lock-serialised dev-fee payout of clink/clink_plugin.py (`maybe_pay_devfee`) among
    concurrent accruals: the amount is fixed before the awaits and debited after them. */
module Payouts {
  import opened PyDict
  import opened DevFee

  /** Where the one coroutine that holds `_devfee_lock` stands, the amount it has fixed,
      and the clock reading that amount was computed at. */
  datatype Phase = Idle | Preparing(payable: int, chosenAt: real) | Paying(sat: int, chosenAt: real)

  /** The ledger and the payout coroutine, with what the run has done so far: all payouts
      recorded, the sum of what `accrue` returned, the hashes credited, and the last
      reading the payment list was pruned at. */
  datatype Book = Book(ledger: Ledger, phase: Phase,
                       payouts: seq<Payment>, fees: int, credited: seq<Id>, prunedAt: real)

  datatype Action =
    | Accrue(receivedSat: int, enabled: bool, ratePercent: real)
    | MarkIssued(rhash: Id)
    | InvoicePaid(rhash: Id, receivedSat: int, enabled: bool, ratePercent: real)
    | ReadStatus
    | BeginPayout(force: bool, enabled: bool, destination: bool, windowAt: real, again: real)
    | Resolved(minSendableSat: int, maxSendableSat: int)
    | PrepareFailed
    | PaymentFailed
    | PaymentCleared(stamp: real, last: real)
    | Restart

  datatype Event = Event(act: Action, now: real)

  function Opened(t0: real): Book {
    Book(OPENED, Idle, [], 0, [], t0)
  }

  function Accrued(b: Book, receivedSat: int, enabled: bool, ratePercent: real): Book {
    var fee := Fee(receivedSat, enabled, ratePercent);
    if fee == 0 then b
    else b.(ledger := b.ledger.(accrued := Max0(b.ledger.accrued + fee)), fees := b.fees + fee)
  }

  function Pruned(b: Book, now: real): Book {
    b.(ledger := b.ledger.(payments := Recent(b.ledger.payments, now)), prunedAt := now)
  }

  function Begun(b: Book, force: bool, enabled: bool, destination: bool, now: real, windowAt: real, again: real): Book {
    var b1 := if Probes(b.ledger, enabled, force, now) then Pruned(b, windowAt) else b;
    if !ShouldAttempt(b.ledger, enabled, force, now, windowAt) || !destination then b1
    else Pruned(b1, again).(phase := Preparing(Payable(b1.ledger, again), again))
  }

  function Failed(b: Book, now: real): Book {
    b.(ledger := b.ledger.(lastAttempt := Trunc(now)), phase := Idle)
  }

  function Cleared(b: Book, sat: int, now: real, stamp: real, last: real): Book {
    b.(ledger := Succeeded(b.ledger, sat, now, stamp, last), phase := Idle,
       payouts := b.payouts + [Payment(Trunc(stamp), sat)], prunedAt := now)
  }

  function Next(b: Book, e: Event): Book {
    match e.act
    case Accrue(sat, enabled, rate) => Accrued(b, sat, enabled, rate)
    case MarkIssued(r) => b.(ledger := b.ledger.(pending := Issued(b.ledger.pending, r, e.now)))
    case InvoicePaid(r, sat, enabled, rate) =>
      if r !in b.ledger.pending.vals then b
      else
        var b1 := b.(ledger := b.ledger.(pending := Drop(b.ledger.pending, r)), credited := b.credited + [r]);
        if sat > 0 then Accrued(b1, sat, enabled, rate) else b1
    case ReadStatus => Pruned(b, e.now)
    case BeginPayout(force, enabled, destination, windowAt, again) =>
      if b.phase.Idle? then Begun(b, force, enabled, destination, e.now, windowAt, again) else b
    case Resolved(lo, hi) =>
      if !b.phase.Preparing? then b
      else if lo > b.phase.payable || hi < MIN_PAYOUT_SAT then b.(phase := Idle)
      else b.(phase := Paying(Min(b.phase.payable, hi), b.phase.chosenAt))
    case PrepareFailed => if b.phase.Preparing? then Failed(b, e.now) else b
    case PaymentFailed => if b.phase.Paying? then Failed(b, e.now) else b
    case PaymentCleared(stamp, last) =>
      if b.phase.Paying? then Cleared(b, b.phase.sat, e.now, stamp, last) else b
    case Restart => b.(phase := Idle)
  }

  function Run(t0: real, evs: seq<Event>): Book {
    if evs == [] then Opened(t0) else Next(Run(t0, evs[..|evs| - 1]), evs[|evs| - 1])
  }

  // ---- money is conserved ---------------------------------------------------------------

  /** The amount a payout in progress may still debit. */
  function Fixed(p: Phase): int {
    match p
    case Idle => 0
    case Preparing(payable, _) => payable
    case Paying(sat, _) => sat
  }

  ghost predicate Conserved(b: Book) {
    0 <= b.ledger.accrued && b.ledger.accrued + 1000 * Sum(b.payouts) == b.fees &&
    0 <= Fixed(b.phase) && 1000 * Fixed(b.phase) <= b.ledger.accrued
  }

  lemma SumSnoc(ps: seq<Payment>, p: Payment)
    ensures Sum(ps + [p]) == Sum(ps) + p.sat
  {
    assert (ps + [p])[..|ps|] == ps;
  }

  lemma AccrualConserves(b: Book, sat: int, enabled: bool, ratePercent: real)
    requires Conserved(b)
    ensures Conserved(Accrued(b, sat, enabled, ratePercent))
  {
    hide Fee, Sum, Fixed;
  }

  lemma PayoutConserves(b: Book, now: real, stamp: real, last: real)
    requires Conserved(b) && b.phase.Paying?
    ensures Conserved(Cleared(b, b.phase.sat, now, stamp, last))
  {
    SumSnoc(b.payouts, Payment(Trunc(stamp), b.phase.sat));
    hide Sum, Recent, Trunc;
  }

  lemma BeginConserves(b: Book, force: bool, enabled: bool, destination: bool, now: real, windowAt: real, again: real)
    requires Conserved(b) && b.phase.Idle?
    ensures Conserved(Begun(b, force, enabled, destination, now, windowAt, again))
  {
    hide Recent, Sum, CapRemaining;
  }

  lemma StepConserves(b: Book, e: Event)
    requires Conserved(b)
    ensures Conserved(Next(b, e))
  {
    match e.act
    case Accrue(sat, enabled, rate) => AccrualConserves(b, sat, enabled, rate);
    case InvoicePaid(r, sat, enabled, rate) =>
      if r in b.ledger.pending.vals {
        AccrualConserves(b.(ledger := b.ledger.(pending := Drop(b.ledger.pending, r)), credited := b.credited + [r]),
          sat, enabled, rate);
      }
    case BeginPayout(force, enabled, destination, windowAt, again) =>
      if b.phase.Idle? { BeginConserves(b, force, enabled, destination, e.now, windowAt, again); }
    case PaymentCleared(stamp, last) => if b.phase.Paying? { PayoutConserves(b, e.now, stamp, last); }
    case _ => QuietStepConserves(b, e);
  }

  lemma QuietStepConserves(b: Book, e: Event)
    requires Conserved(b)
    requires !e.act.Accrue? && !e.act.InvoicePaid? && !e.act.BeginPayout? && !e.act.PaymentCleared?
    ensures Conserved(Next(b, e))
  {
    hide Recent, Sum, Issued, Trunc;
  }

  /** From an empty ledger, in any interleaving: what is owed plus 1000 times all recorded
      payouts is everything `accrue` ever returned. The balance never needs its clamp at
      zero, since a fixed payout amount stays covered until it is debited. */
  lemma {:induction false} FeesAreConserved(t0: real, evs: seq<Event>)
    ensures Conserved(Run(t0, evs))
  {
    if evs != [] {
      FeesAreConserved(t0, evs[..|evs| - 1]);
      StepConserves(Run(t0, evs[..|evs| - 1]), evs[|evs| - 1]);
    }
  }

  // ---- fees against payments -------------------------------------------------------------

  /** The exact share, in msat, of the payment that the step credits, if it credits one. */
  function Share(b: Book, e: Event): real {
    match e.act
    case Accrue(sat, enabled, rate) => ShareOf(sat, enabled, rate)
    case InvoicePaid(r, sat, enabled, rate) => if r in b.ledger.pending.vals then ShareOf(sat, enabled, rate) else 0.0
    case _ => 0.0
  }

  function ShareOf(sat: int, enabled: bool, rate: real): real {
    if enabled && sat > 0 && rate > 0.0 then 1000.0 * sat as real * rate / 100.0 else 0.0
  }

  /** The shares of all payments credited in the run, and how many of them there are. */
  function Shares(t0: real, evs: seq<Event>): real {
    if evs == [] then 0.0
    else Shares(t0, evs[..|evs| - 1]) + Share(Run(t0, evs[..|evs| - 1]), evs[|evs| - 1])
  }

  function Credits(t0: real, evs: seq<Event>): nat {
    if evs == [] then 0
    else
      Credits(t0, evs[..|evs| - 1]) +
      if Share(Run(t0, evs[..|evs| - 1]), evs[|evs| - 1]) > 0.0 then 1 else 0
  }

  lemma StepTakesShare(b: Book, e: Event)
    ensures var gain := (Next(b, e).fees - b.fees) as real;
      gain <= Share(b, e) && (if Share(b, e) > 0.0 then Share(b, e) < gain + 1.0 else gain == Share(b, e))
  {
    match e.act
    case Accrue(sat, enabled, rate) => FeeNearShare(sat, enabled, rate);
    case InvoicePaid(_, sat, enabled, rate) => FeeNearShare(sat, enabled, rate);
    case _ =>
    hide Fee, ShareOf, Recent, Issued;
  }

  lemma FeeNearShare(sat: int, enabled: bool, rate: real)
    ensures var fee := Fee(sat, enabled, rate) as real;
      fee <= ShareOf(sat, enabled, rate) &&
      (if ShareOf(sat, enabled, rate) > 0.0 then ShareOf(sat, enabled, rate) < fee + 1.0 else fee == 0.0) &&
      (sat <= 0 ==> fee == 0.0 && ShareOf(sat, enabled, rate) == 0.0)
  {
    FeeExactly(sat, enabled, rate);
    if enabled && sat > 0 && rate > 0.0 { Positive(sat as real, rate); }
  }

  /** Over any run the fees are the credited payments' percentage, short of it by less than one msat
      a payment. */
  lemma {:induction false} FeesMatchPayments(t0: real, evs: seq<Event>)
    ensures Run(t0, evs).fees as real <= Shares(t0, evs) <= Run(t0, evs).fees as real + Credits(t0, evs) as real
  {
    if evs != [] {
      FeesMatchPayments(t0, evs[..|evs| - 1]);
      StepTakesShare(Run(t0, evs[..|evs| - 1]), evs[|evs| - 1]);
      hide Next, Share;
    }
  }

  // ---- the rolling daily cap --------------------------------------------------------------

  /** The sats paid with integer timestamps in the day that starts at `w`. */
  function PaidInDay(ps: seq<Payment>, w: int): int {
    if ps == [] then 0
    else
      var p := ps[|ps| - 1];
      PaidInDay(ps[..|ps| - 1], w) + if w <= p.ts < w + ATTEMPT_INTERVAL_SEC then p.sat else 0
  }

  /** The last clock reading the step takes. */
  function EndOf(e: Event): real {
    match e.act
    case BeginPayout(_, _, _, _, again) => again
    case PaymentCleared(_, last) => last
    case _ => e.now
  }

  /** The readings of one step are taken in order. */
  predicate InOrder(e: Event) {
    match e.act
    case BeginPayout(_, _, _, windowAt, again) => e.now <= windowAt <= again
    case PaymentCleared(stamp, last) => e.now <= stamp <= last
    case _ => true
  }

  function TimeAfter(t0: real, evs: seq<Event>): real {
    if evs == [] then t0 else EndOf(evs[|evs| - 1])
  }

  /** The clock does not run backwards from `t0` on. */
  predicate ClockRuns(t0: real, evs: seq<Event>) {
    evs == [] ||
    (ClockRuns(t0, evs[..|evs| - 1]) &&
     TimeAfter(t0, evs[..|evs| - 1]) <= evs[|evs| - 1].now && InOrder(evs[|evs| - 1]))
  }

  /** What holds at time `t`: the stored list is the history pruned at some earlier time,
      every payout is worth sending, the amount fixed fits the cap as it stood when it was
      chosen, and no day of the history exceeds the cap. */
  ghost predicate WithinCap(b: Book, t: real) {
    b.prunedAt <= t &&
    b.ledger.payments == Recent(b.payouts, b.prunedAt) &&
    (forall i :: 0 <= i < |b.payouts| ==> MIN_PAYOUT_SAT <= b.payouts[i].sat) &&
    (b.phase.Idle? || (
      MIN_PAYOUT_SAT <= Fixed(b.phase) && b.phase.chosenAt <= t &&
      Fixed(b.phase) + Sum(Recent(b.payouts, b.phase.chosenAt)) <= DAILY_CAP_SAT)) &&
    (forall w :: PaidInDay(b.payouts, w) <= DAILY_CAP_SAT)
  }

  lemma RecentSnoc(ps: seq<Payment>, p: Payment, now: real)
    ensures Recent(ps + [p], now) ==
      if now - p.ts as real < ATTEMPT_INTERVAL_SEC as real then Recent(ps, now) + [p] else Recent(ps, now)
  {
    assert (ps + [p])[..|ps|] == ps;
  }

  /** Pruning again later gives what pruning the whole history would. */
  lemma {:induction false} PrunedTwice(ps: seq<Payment>, early: real, late: real)
    requires early <= late
    ensures Recent(Recent(ps, early), late) == Recent(ps, late)
  {
    if ps != [] {
      var init, p := ps[..|ps| - 1], ps[|ps| - 1];
      PrunedTwice(init, early, late);
      RecentSnoc(Recent(init, early), p, late);
    }
  }

  /** The day around a payout lies within what was recent when its amount was chosen. */
  lemma {:induction false} DayIsRecent(ps: seq<Payment>, w: int, chosenAt: real, stamp: real)
    requires forall i :: 0 <= i < |ps| ==> 0 <= ps[i].sat
    requires chosenAt <= stamp && Trunc(stamp) < w + ATTEMPT_INTERVAL_SEC
    ensures PaidInDay(ps, w) <= Sum(Recent(ps, chosenAt))
  {
    if ps != [] {
      var init, p := ps[..|ps| - 1], ps[|ps| - 1];
      DayIsRecent(init, w, chosenAt, stamp);
      TruncNear(stamp);
      SumSnoc(Recent(init, chosenAt), p);
    }
  }

  lemma PaidInDaySnoc(ps: seq<Payment>, p: Payment, w: int)
    ensures PaidInDay(ps + [p], w) == PaidInDay(ps, w) + if w <= p.ts < w + ATTEMPT_INTERVAL_SEC then p.sat else 0
  {
    assert (ps + [p])[..|ps|] == ps;
  }

  lemma PruneKeepsCap(b: Book, t: real, now: real)
    requires WithinCap(b, t) && t <= now
    ensures WithinCap(Pruned(b, now), now)
  {
    PrunedTwice(b.payouts, b.prunedAt, now);
  }

  lemma BeginKeepsCap(b: Book, t: real, force: bool, enabled: bool, destination: bool, now: real, windowAt: real,
                      again: real)
    requires WithinCap(b, t) && t <= now <= windowAt <= again && b.phase.Idle?
    ensures WithinCap(Begun(b, force, enabled, destination, now, windowAt, again), again)
  {
    hide WithinCap, Recent, Sum, PaidInDay, CapRemaining;
    if Probes(b.ledger, enabled, force, now) {
      PruneKeepsCap(b, t, windowAt);
      if ShouldAttempt(b.ledger, enabled, force, now, windowAt) {
        ChoiceKeepsCap(b, t, windowAt, again);
      } else {
        LaterKeepsCap(Pruned(b, windowAt), windowAt, again);
      }
      LaterKeepsCap(Pruned(b, windowAt), windowAt, again);
    } else {
      LaterKeepsCap(b, t, again);
    }
  }

  /** The amount chosen at `again` is worth sending, since the one seen at `windowAt` was. */
  lemma ChoiceKeepsCap(b: Book, t: real, windowAt: real, again: real)
    requires WithinCap(b, t) && t <= windowAt <= again && b.phase.Idle?
    requires Payable(b.ledger, windowAt) >= MIN_PAYOUT_SAT
    ensures var b1 := Pruned(b, windowAt);
      WithinCap(Pruned(b1, again).(phase := Preparing(Payable(b1.ledger, again), again)), again)
  {
    PruneKeepsCap(b, t, windowAt);
    PruneKeepsCap(Pruned(b, windowAt), windowAt, again);
    PrunedTwice(b.payouts, b.prunedAt, windowAt);
    PrunedTwice(b.payouts, windowAt, again);
    RemainingGrows(b.payouts, windowAt, again);
    hide Recent, Sum, PaidInDay;
  }

  /** With time, less of the day counts against the cap. */
  lemma {:induction false} RemainingGrows(ps: seq<Payment>, early: real, late: real)
    requires early <= late && forall i :: 0 <= i < |ps| ==> 0 <= ps[i].sat
    ensures Sum(Recent(ps, late)) <= Sum(Recent(ps, early))
  {
    if ps != [] {
      var init, p := ps[..|ps| - 1], ps[|ps| - 1];
      RemainingGrows(init, early, late);
      SumSnoc(Recent(init, early), p);
      SumSnoc(Recent(init, late), p);
    }
  }

  lemma ClearKeepsCap(b: Book, t: real, now: real, stamp: real, last: real)
    requires WithinCap(b, t) && t <= now <= stamp <= last && b.phase.Paying?
    ensures WithinCap(Cleared(b, b.phase.sat, now, stamp, last), last)
  {
    var p := Payment(Trunc(stamp), b.phase.sat);
    PrunedTwice(b.payouts, b.prunedAt, now);
    RecentSnoc(b.payouts, p, now);
    TruncNear(stamp);
    forall w ensures PaidInDay(b.payouts + [p], w) <= DAILY_CAP_SAT {
      PaidInDaySnoc(b.payouts, p, w);
      if w <= p.ts < w + ATTEMPT_INTERVAL_SEC {
        DayIsRecent(b.payouts, w, b.phase.chosenAt, stamp);
      }
    }
  }

  /** The other steps touch neither the payouts nor the list, and raise no fixed amount. */
  lemma OthersKeepCap(b: Book, t: real, e: Event)
    requires WithinCap(b, t) && t <= e.now == EndOf(e)
    requires !e.act.ReadStatus? && !e.act.BeginPayout? && !e.act.PaymentCleared?
    ensures WithinCap(Next(b, e), e.now)
  {
    var b' := Next(b, e);
    assert b'.payouts == b.payouts && b'.prunedAt == b.prunedAt && b'.ledger.payments == b.ledger.payments;
    assert b'.phase.Idle? ||
      (b'.phase.chosenAt == b.phase.chosenAt && MIN_PAYOUT_SAT <= Fixed(b'.phase) <= Fixed(b.phase));
    hide Next, Recent, Sum, PaidInDay, Fixed;
  }

  lemma StepKeepsCap(b: Book, t: real, e: Event)
    requires WithinCap(b, t) && t <= e.now && InOrder(e)
    ensures WithinCap(Next(b, e), EndOf(e))
  {
    if e.act.ReadStatus? {
      PruneKeepsCap(b, t, e.now);
    } else if e.act.BeginPayout? {
      LaterKeepsCap(b, t, EndOf(e));
      if b.phase.Idle? {
        BeginKeepsCap(b, t, e.act.force, e.act.enabled, e.act.destination, e.now, e.act.windowAt, e.act.again);
      }
    } else if e.act.PaymentCleared? {
      LaterKeepsCap(b, t, EndOf(e));
      if b.phase.Paying? { ClearKeepsCap(b, t, e.now, e.act.stamp, e.act.last); }
    } else {
      OthersKeepCap(b, t, e);
    }
    hide WithinCap;
  }

  lemma LaterKeepsCap(b: Book, t: real, later: real)
    requires WithinCap(b, t) && t <= later
    ensures WithinCap(b, later)
  {
  }

  lemma {:induction false} RunKeepsCap(t0: real, evs: seq<Event>)
    requires ClockRuns(t0, evs)
    ensures WithinCap(Run(t0, evs), TimeAfter(t0, evs))
  {
    if evs == [] {
      assert forall w :: PaidInDay([], w) == 0;
    } else {
      var init := evs[..|evs| - 1];
      RunKeepsCap(t0, init);
      StepKeepsCap(Run(t0, init), TimeAfter(t0, init), evs[|evs| - 1]);
    }
  }

  /** In every run of interleaved accruals and payouts, forced or not, the payouts recorded
      within any one day, by their integer timestamps, sum to at most the daily cap, and
      each is worth sending; pruning and the awaits in between do not matter. */
  lemma DailyCapHolds(t0: real, evs: seq<Event>, w: int)
    requires ClockRuns(t0, evs)
    ensures PaidInDay(Run(t0, evs).payouts, w) <= DAILY_CAP_SAT
    ensures forall i :: 0 <= i < |Run(t0, evs).payouts| ==> MIN_PAYOUT_SAT <= Run(t0, evs).payouts[i].sat
  {
    RunKeepsCap(t0, evs);
  }

  // ---- when and how much ------------------------------------------------------------------

  /** A payout begins exactly with the fee on, somewhere to pay it, 1000 sats payable, and a day since
      the last attempt unless that is waived; beginning pays nothing and stamps nothing. */
  lemma BeginsExactly(b: Book, e: Event)
    requires b.phase.Idle? && e.act.BeginPayout?
    ensures Next(b, e).phase.Preparing? <==>
      e.act.enabled && e.act.destination && (e.act.force || e.now >= b.ledger.lastAttempt as real + 86400.0) &&
      1000000 <= b.ledger.accrued && PaidSince(b.ledger.payments, e.act.windowAt) <= 9000
    ensures !Next(b, e).phase.Preparing? ==> Next(b, e).phase.Idle?
    ensures Next(b, e).ledger.accrued == b.ledger.accrued && Next(b, e).ledger.lastAttempt == b.ledger.lastAttempt
    ensures Next(b, e).payouts == b.payouts
  {
    AttemptDueExactly(b.ledger, e.act.enabled, e.act.force, e.now, e.act.windowAt);
    hide ShouldAttempt, Probes, Payable, Recent, PaidSince;
  }

  /** How an attempt ends: it is stamped, unless the receiver's range did not fit. */
  lemma AttemptStamps(b: Book, e: Event)
    ensures b.phase.Preparing? && e.act.PrepareFailed? ==>
      Next(b, e) == b.(phase := Idle, ledger := b.ledger.(lastAttempt := Trunc(e.now)))
    ensures b.phase.Paying? && e.act.PaymentFailed? ==>
      Next(b, e) == b.(phase := Idle, ledger := b.ledger.(lastAttempt := Trunc(e.now)))
    ensures b.phase.Paying? && e.act.PaymentCleared? ==>
      Next(b, e).phase.Idle? && Next(b, e).ledger.lastAttempt == Trunc(e.act.last) &&
      Next(b, e).payouts == b.payouts + [Payment(Trunc(e.act.stamp), b.phase.sat)]
    ensures (b.phase.Preparing? && e.act.Resolved? &&
      (e.act.minSendableSat > b.phase.payable || e.act.maxSendableSat < 1000)) ==> Next(b, e) == b.(phase := Idle)
  {
  }

  /** Nothing asks for a payout out of turn, and the day since the last attempt is not over. */
  ghost predicate Unforced(evs: seq<Event>, until: real) {
    forall i :: 0 <= i < |evs| ==> evs[i].now < until && (evs[i].act.BeginPayout? ==> !evs[i].act.force)
  }

  lemma QuietStep(b: Book, e: Event)
    requires b.phase.Idle? && e.now < b.ledger.lastAttempt as real + 86400.0
    requires e.act.BeginPayout? ==> !e.act.force
    ensures var b' := Next(b, e);
      b'.phase.Idle? && b'.ledger.lastAttempt == b.ledger.lastAttempt && b'.payouts == b.payouts
  {
    hide Recent, Issued, Fee, Payable, Trunc;
  }

  /** For a day after an attempt that ended at a stamped time, no other is made unless it is forced. */
  lemma {:induction false} OneAttemptADay(t0: real, evs: seq<Event>, more: seq<Event>)
    requires Run(t0, evs).phase.Idle? && Unforced(more, Run(t0, evs).ledger.lastAttempt as real + 86400.0)
    ensures var b, b' := Run(t0, evs), Run(t0, evs + more);
      b'.phase.Idle? && b'.ledger.lastAttempt == b.ledger.lastAttempt && b'.payouts == b.payouts
  {
    hide Next;
    if more == [] {
      assert evs + more == evs;
    } else {
      var init, e := more[..|more| - 1], more[|more| - 1];
      OneAttemptADay(t0, evs, init);
      assert (evs + more)[..|evs + more| - 1] == evs + init;
      QuietStep(Run(t0, evs + init), e);
    }
  }

  /** The greatest amount that is owed, fits the day, and that the receiver takes. */
  ghost predicate MostPayable(l: Ledger, now: real, hi: int, sat: int) {
    0 <= sat <= hi && 1000 * sat <= l.accrued && sat + PaidSince(l.payments, now) <= 10000 &&
    forall more :: sat < more <= hi ==> 1000 * more > l.accrued || more + PaidSince(l.payments, now) > 10000
  }

  lemma PruningKeepsDay(ps: seq<Payment>, windowAt: real, again: real)
    requires windowAt <= again
    ensures PaidSince(Recent(ps, windowAt), again) == PaidSince(ps, again)
  {
    RecentIsDay(Recent(ps, windowAt), again);
    RecentIsDay(ps, again);
    PrunedTwice(ps, windowAt, again);
  }

  lemma MinIsMost(l: Ledger, now: real, hi: int)
    requires Payable(l, now) > 0 && hi >= 0
    ensures MostPayable(l, now, hi, Min(Payable(l, now), hi))
  {
    PayableExactly(l, now);
    hide Payable, PaidSince;
  }

  /** A payout that goes through pays all it may: from a ledger where one is due, to a receiver who
      takes the amount, it pays the greatest amount that is owed, leaves the day within its cap and
      is within the receiver's range, and debits exactly that. */
  lemma PayoutPaysAllItMay(b: Book, force: bool, now: real, windowAt: real, again: real, lo: int, hi: int,
                           at: real, stamp: real, last: real)
    requires Conserved(b) && b.phase.Idle? && now <= windowAt <= again
    requires ShouldAttempt(b.ledger, true, force, now, windowAt)
    requires lo <= Payable(b.ledger, again) && hi >= 1000 && Payable(b.ledger, again) > 0
    ensures var b1 := Next(b, Event(BeginPayout(force, true, true, windowAt, again), now));
      var b2 := Next(b1, Event(Resolved(lo, hi), again));
      var b3 := Next(b2, Event(PaymentCleared(stamp, last), at));
      b2.phase.Paying? && MostPayable(b.ledger, again, hi, b2.phase.sat) &&
      b3.ledger.accrued == b.ledger.accrued - 1000 * b2.phase.sat &&
      b3.payouts == b.payouts + [Payment(Trunc(stamp), b2.phase.sat)]
  {
    PruningKeepsDay(b.ledger.payments, windowAt, again);
    MinIsMost(b.ledger, again, hi);
    SamePayable(b.ledger, windowAt, again);
    hide Recent, Payable, PaidSince, Sum;
  }

  lemma SamePayable(l: Ledger, windowAt: real, again: real)
    requires windowAt <= again
    ensures Payable(l.(payments := Recent(l.payments, windowAt)), again) == Payable(l, again)
  {
    PrunedTwice(l.payments, windowAt, again);
  }

  // ---- the pending map over a run ------------------------------------------------------------

  lemma BoundedStep(b: Book, e: Event, t: real)
    requires PendingBounded(b.ledger.pending, t) && t <= e.now && InOrder(e)
    ensures PendingBounded(Next(b, e).ledger.pending, EndOf(e))
  {
    hide PendingBounded, Recent, Issued, Trunc, Fee, Drop;
    var d := b.ledger.pending;
    BoundedLater(d, t, e.now);
    EndsLater(e);
    BoundedLater(d, t, EndOf(e));
    match e.act
    case MarkIssued(r) => NewestIsRemembered(d, r, e.now);
    case InvoicePaid(r, _, _, _) => DropBounded(d, r, e.now);
    case _ => assert Next(b, e).ledger.pending == d;
  }

  lemma EndsLater(e: Event)
    requires InOrder(e)
    ensures e.now <= EndOf(e)
  {
  }

  lemma DropBounded(d: Dict<Id, int>, r: Id, t: real)
    requires PendingBounded(d, t)
    ensures PendingBounded(Drop(d, r), t)
  {
    hide Valid, Trunc, Filter, NoDup, Elems;
    RestrictValid(d, d.vals.Keys - {r});
    DictSize(d);
    DictSize(Drop(d, r));
    FewerOrSame(Drop(d, r).vals.Keys, d.vals.Keys);
  }

  lemma BoundedLater(d: Dict<Id, int>, t: real, later: real)
    requires PendingBounded(d, t) && t <= later
    ensures PendingBounded(d, later)
  {
    TruncMonotone(t, later);
    hide Trunc, Valid;
  }

  /** In every run the map of issued hashes holds `PENDING_MAX` at most and no stamp from the
      future, so each call of `mark_issued` finds its own hash remembered. */
  lemma {:induction false} PendingStaysBounded(t0: real, evs: seq<Event>)
    requires ClockRuns(t0, evs)
    ensures PendingBounded(Run(t0, evs).ledger.pending, TimeAfter(t0, evs))
  {
    if evs != [] {
      hide PendingBounded, Next;
      PendingStaysBounded(t0, evs[..|evs| - 1]);
      BoundedStep(Run(t0, evs[..|evs| - 1]), evs[|evs| - 1], TimeAfter(t0, evs[..|evs| - 1]));
    }
  }

  // ---- each issued hash is credited once ---------------------------------------------------

  ghost predicate IssuedOnce(evs: seq<Event>) {
    forall i, j :: 0 <= i < j < |evs| && evs[i].act.MarkIssued? && evs[j].act.MarkIssued? ==>
      evs[i].act.rhash != evs[j].act.rhash
  }

  ghost predicate IssuedIn(evs: seq<Event>, r: Id) {
    exists i :: 0 <= i < |evs| && evs[i].act.MarkIssued? && evs[i].act.rhash == r
  }

  ghost predicate CreditedOnce(b: Book, evs: seq<Event>) {
    NoDup(b.credited) &&
    (forall i :: 0 <= i < |b.credited| ==> b.credited[i] !in b.ledger.pending.vals && IssuedIn(evs, b.credited[i])) &&
    (forall r :: r in b.ledger.pending.vals ==> IssuedIn(evs, r))
  }

  lemma IssuedInGrows(init: seq<Event>, e: Event, r: Id)
    ensures IssuedIn(init + [e], r) <==> IssuedIn(init, r) || (e.act.MarkIssued? && e.act.rhash == r)
  {
    var evs := init + [e];
    assert evs[|init|] == e;
    assert forall i :: 0 <= i < |init| ==> evs[i] == init[i];
  }

  lemma CreditStep(b: Book, init: seq<Event>, e: Event)
    requires CreditedOnce(b, init)
    requires e.act.MarkIssued? ==> !IssuedIn(init, e.act.rhash)
    ensures CreditedOnce(Next(b, e), init + [e])
  {
    forall r ensures IssuedIn(init + [e], r) <==> IssuedIn(init, r) || (e.act.MarkIssued? && e.act.rhash == r) {
      IssuedInGrows(init, e, r);
    }
    hide IssuedIn, Recent, Trunc, Fee, Filter;
  }

  /** No payment is credited for a hash the ledger did not issue, nor twice for one it did. */
  lemma {:induction false} EachHashCreditedOnce(t0: real, evs: seq<Event>)
    requires IssuedOnce(evs)
    ensures CreditedOnce(Run(t0, evs), evs)
  {
    if evs == [] { return; }
    var init, e := evs[..|evs| - 1], evs[|evs| - 1];
    assert evs == init + [e];
    EachHashCreditedOnce(t0, init);
    assert e.act.MarkIssued? ==> !IssuedIn(init, e.act.rhash);
    CreditStep(Run(t0, init), init, e);
    hide CreditedOnce;
  }

  // ---- the payout object ----------------------------------------------------------------------

  /** `maybe_pay_devfee`, cut at its awaits. `book` follows the run and is tied to the
      ledger object by `Valid`. */
  class PayoutRuntime {
    const fees: DevFeeLedger
    var phase: Phase
    ghost var book: Book

    ghost predicate Valid() reads this, fees {
      fees.Valid() && book.ledger == fees.ledger && book.phase == phase
    }

    constructor (fees: DevFeeLedger, ghost t0: real)
      requires fees.Valid() && fees.ledger == OPENED
      ensures Valid() && this.fees == fees && book == Opened(t0)
    {
      this.fees := fees;
      phase := Idle;
      book := Opened(t0);
    }

    method BeginPayout(force: bool, enabled: bool, destination: bool, now: real, windowAt: real, again: real)
      requires Valid() && phase.Idle?
      modifies this, fees
      ensures Valid()
      ensures book == Next(old(book), Event(Action.BeginPayout(force, enabled, destination, windowAt, again), now))
    {
      book := Next(book, Event(Action.BeginPayout(force, enabled, destination, windowAt, again), now));
      var due := fees.ShouldAttemptNow(enabled, force, now, windowAt);
      if !due || !destination {
        return;
      }
      var payable := fees.PayableSat(again);
      phase := Preparing(payable, again);
    }

    method OnResolved(minSendableSat: int, maxSendableSat: int, now: real)
      requires Valid() && phase.Preparing?
      modifies this
      ensures Valid() && book == Next(old(book), Event(Resolved(minSendableSat, maxSendableSat), now))
    {
      book := Next(book, Event(Resolved(minSendableSat, maxSendableSat), now));
      if minSendableSat > phase.payable || maxSendableSat < MIN_PAYOUT_SAT {
        phase := Idle;
      } else {
        phase := Paying(Min(phase.payable, maxSendableSat), phase.chosenAt);
      }
    }

    method OnPrepareFailed(now: real)
      requires Valid() && phase.Preparing?
      modifies this, fees
      ensures Valid() && book == Next(old(book), Event(PrepareFailed, now))
    {
      book := Next(book, Event(PrepareFailed, now));
      fees.RecordFailure(now);
      phase := Idle;
    }

    method OnPaymentFailed(now: real)
      requires Valid() && phase.Paying?
      modifies this, fees
      ensures Valid() && book == Next(old(book), Event(PaymentFailed, now))
    {
      book := Next(book, Event(PaymentFailed, now));
      fees.RecordFailure(now);
      phase := Idle;
    }

    method OnPaymentCleared(now: real, stamp: real, last: real)
      requires Valid() && phase.Paying?
      modifies this, fees
      ensures Valid() && book == Next(old(book), Event(PaymentCleared(stamp, last), now))
    {
      book := Next(book, Event(PaymentCleared(stamp, last), now));
      fees.RecordSuccess(phase.sat, now, stamp, last);
      phase := Idle;
    }

    method OnInvoicePaid(rhash: Id, receivedSat: int, enabled: bool, ratePercent: real, now: real)
      requires Valid()
      modifies this, fees
      ensures Valid() && book == Next(old(book), Event(InvoicePaid(rhash, receivedSat, enabled, ratePercent), now))
    {
      book := Next(book, Event(InvoicePaid(rhash, receivedSat, enabled, ratePercent), now));
      var ours := fees.TakeIssued(rhash);
      if ours && receivedSat > 0 {
        var _ := fees.Accrue(receivedSat, enabled, ratePercent);
      }
    }
  }
}
