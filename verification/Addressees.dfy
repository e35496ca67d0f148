/** Whom a receipt goes to: the payer and the request id that its invoice was remembered with, in
    every target the registry gives out and in every delivery of the runtime. */
module Addressees {
  import opened Wrappers
  import opened PyDict
  import opened Receipts
  import opened Delivery
  import R = ReceiptRuns

  // ---- the registry -----------------------------------------------------------------------

  /** The entry is for that payer and request, and expires then. */
  ghost predicate EntryFor(d: Entries, r: Id, payer: Id, req: Id, expiresAt: real) {
    r in d.vals && d.vals[r].payer == payer && d.vals[r].req == req && d.vals[r].expiresAt == expiresAt
  }

  lemma StepKeepsAddressee(d: Entries, e: R.Event, r: Id, payer: Id, req: Id, expiresAt: real)
    requires EntryFor(d, r, payer, req, expiresAt) && R.LeavesAlone([e], r) && r in R.Step(d, e).vals
    ensures EntryFor(R.Step(d, e), r, payer, req, expiresAt)
  {
    assert [e][0] == e;
    if e.op.Remember? {
      R.CapKeepsOwed(Put(d, e.op.rhash, Awaiting(e.op.payer, e.op.req, e.op.expiresAt)));
    }
    hide Capped, Evicted;
  }

  lemma StepLosesForGood(d: Entries, e: R.Event, r: Id)
    requires r !in d.vals && R.LeavesAlone([e], r)
    ensures r !in R.Step(d, e).vals
  {
    R.OwedStep(d, e, r);
  }

  lemma {:induction false} RunKeepsAddressee(d: Entries, evs: seq<R.Event>, r: Id, payer: Id, req: Id, expiresAt: real)
    requires EntryFor(d, r, payer, req, expiresAt) && R.LeavesAlone(evs, r)
    ensures r in R.Run(d, evs).vals ==> EntryFor(R.Run(d, evs), r, payer, req, expiresAt)
  {
    if evs != [] {
      var init, e := evs[..|evs| - 1], evs[|evs| - 1];
      RunKeepsAddressee(d, init, r, payer, req, expiresAt);
      assert R.LeavesAlone([e], r);
      if r in R.Run(d, init).vals {
        if r in R.Step(R.Run(d, init), e).vals {
          StepKeepsAddressee(R.Run(d, init), e, r, payer, req, expiresAt);
        }
      } else {
        StepLosesForGood(R.Run(d, init), e, r);
      }
    }
    hide R.Step;
  }

  /** The target speaks of that entry, field by field. */
  ghost predicate TargetFor(t: Target, d: Entries, r: Id, payer: Id, req: Id) {
    r in d.vals && t.rhash == r && t.payer == payer && t.req == req && t.attempts == d.vals[r].attempts &&
    t.dueSince == d.vals[r].dueSince && t.sends == d.vals[r].sends
  }

  /** What `mark_due` returns at `now`. */
  function MarkedTarget(d: Entries, r: Id, now: real): Option<Target> {
    var d' := Marked(d, r, now);
    if r in d'.vals then Some(TargetOf(r, d'.vals[r])) else None
  }

  /** From `remember` on, through any run that leaves the hash alone: `mark_due` and `due_targets`
      name the payer and the request of that call, whatever became of the entry meanwhile. */
  lemma TargetsNameTheirPayer(d: Entries, r: Id, payer: Id, req: Id, expiresAt: real, evs: seq<R.Event>,
                              sweptAt: real, now: real)
    requires Valid(d) && R.LeavesAlone(evs, r)
    requires r in R.Step(d, R.Event(R.Remember(r, payer, req, expiresAt), now)).vals
    ensures var d' := R.Run(R.Step(d, R.Event(R.Remember(r, payer, req, expiresAt), now)), evs);
      (MarkedTarget(d', r, now).Some? <==> r in d'.vals) &&
      (r in d'.vals ==> TargetFor(MarkedTarget(d', r, now).value, Marked(d', r, now), r, payer, req)) &&
      (forall i :: 0 <= i < |TargetsDue(d', sweptAt, now)| && TargetsDue(d', sweptAt, now)[i].rhash == r ==>
        TargetFor(TargetsDue(d', sweptAt, now)[i], d', r, payer, req))
  {
    var d1 := R.Step(d, R.Event(R.Remember(r, payer, req, expiresAt), now));
    R.CapKeepsOwed(Put(d, r, Awaiting(payer, req, expiresAt)));
    assert EntryFor(d1, r, payer, req, expiresAt) by { hide Capped, Evicted; }
    hide R.Step, R.Run, Capped, TargetsDue;
    RunKeepsAddressee(d1, evs, r, payer, req, expiresAt);
    R.TargetsAreKeys(R.Run(d1, evs), sweptAt, now);
    hide R.DueKeys;
  }

  // ---- the runtime -------------------------------------------------------------------------

  /** An invoice was issued under that hash for that payer and request. */
  ghost predicate IssuedTo(evs: seq<Event>, r: Id, payer: Id, req: Id) {
    exists i :: 0 <= i < |evs| && IssuesTo(evs[i], r, payer, req)
  }

  predicate IssuesTo(e: Event, r: Id, payer: Id, req: Id) {
    e.act.Issue? && e.act.rhash == r && e.act.payer == payer && e.act.req == req
  }

  ghost predicate Right(t: Target, evs: seq<Event>) {
    IssuedTo(evs, t.rhash, t.payer, t.req)
  }

  /** Every entry and every delivery has the payer and the request of an issue of its hash. */
  ghost predicate Addressed(s: State, evs: seq<Event>) {
    (forall r :: r in s.reg.vals ==> IssuedTo(evs, r, s.reg.vals[r].payer, s.reg.vals[r].req)) &&
    (forall i :: 0 <= i < |s.spawned| ==> Right(s.spawned[i].target, evs)) &&
    (forall i :: 0 <= i < |s.inflight| ==> Right(s.inflight[i].target, evs)) &&
    (forall i :: 0 <= i < |s.tails| ==> Right(s.tails[i].target, evs)) &&
    (forall i :: 0 <= i < |s.queue| ==> Right(s.queue[i], evs))
  }

  /** The entries after the step are for the right addressees. */
  ghost predicate RegAddressed(reg: Entries, evs: seq<Event>) {
    forall r :: r in reg.vals ==> IssuedTo(evs, r, reg.vals[r].payer, reg.vals[r].req)
  }

  lemma IssuedMore(evs: seq<Event>, e: Event, r: Id, payer: Id, req: Id)
    ensures IssuedTo(evs, r, payer, req) || IssuesTo(e, r, payer, req) ==> IssuedTo(evs + [e], r, payer, req)
  {
    if IssuedTo(evs, r, payer, req) {
      var i :| 0 <= i < |evs| && IssuesTo(evs[i], r, payer, req);
      assert (evs + [e])[i] == evs[i];
    }
    assert (evs + [e])[|evs|] == e;
  }

  lemma AddressedLonger(s: State, evs: seq<Event>, e: Event)
    requires Addressed(s, evs)
    ensures Addressed(s, evs + [e])
  {
    forall r, payer, req | IssuedTo(evs, r, payer, req) ensures IssuedTo(evs + [e], r, payer, req) {
      IssuedMore(evs, e, r, payer, req);
    }
    hide IssuedTo;
  }

  /** An entry after a step was there before for the same addressee, or is the one just issued. */
  lemma EntryFrom(s: State, e: Event, r: Id)
    requires r in Next(s, e).reg.vals
    ensures var entry := Next(s, e).reg.vals[r];
      IssuesTo(e, r, entry.payer, entry.req) ||
      (r in s.reg.vals && s.reg.vals[r].payer == entry.payer && s.reg.vals[r].req == entry.req)
  {
    hide Next, R.Step, IssuesTo, RegEvent;
    StepOnRegistry(s, e);
    RegistryFrom(s.reg, RegEvent(s, e), r);
    OpOfIssue(s, e);
  }

  lemma OpOfIssue(s: State, e: Event)
    ensures var op := RegEvent(s, e).op;
      op.Remember? ==> IssuesTo(e, op.rhash, op.payer, op.req)
  {
  }

  lemma RegistryFrom(d: Entries, e: R.Event, r: Id)
    requires r in R.Step(d, e).vals
    ensures var entry := R.Step(d, e).vals[r];
      (e.op.Remember? && e.op.rhash == r && entry.payer == e.op.payer && entry.req == e.op.req) ||
      (r in d.vals && d.vals[r].payer == entry.payer && d.vals[r].req == entry.req)
  {
    if e.op.Remember? {
      R.CapKeepsOwed(Put(d, e.op.rhash, Awaiting(e.op.payer, e.op.req, e.op.expiresAt)));
    }
    hide Capped, Evicted;
  }

  lemma {:induction false} TargetsAddressed(evs: seq<Event>, s: State, e: Event)
    requires Addressed(s, evs) && RegAddressed(Next(s, e).reg, evs)
    ensures Addressed(Next(s, e), evs)
  {
    hide IssuedTo;
    match e.act
    case Paid(_) => hide Marked;
    case Tick(_, _) => TickAddressed(evs, s, e);
    case Begin(_) => SpawnedAddressed(evs, s, e);
    case CancelSpawned(_) => SpawnedAddressed(evs, s, e);
    case Accepted(_) => InflightAddressed(evs, s, e);
    case Failed(_) => InflightAddressed(evs, s, e);
    case CancelInflight(_) => InflightAddressed(evs, s, e);
    case Wake(_) => TailAddressed(evs, s, e);
    case CancelTail(_, _) => TailAddressed(evs, s, e);
    case _ => hide Capped, Attempted;
  }

  lemma JobRemoved(jobs: seq<Job>, i: nat, evs: seq<Event>)
    requires i < |jobs| && forall j :: 0 <= j < |jobs| ==> Right(jobs[j].target, evs)
    ensures forall j :: 0 <= j < |RemoveAt(jobs, i)| ==> Right(RemoveAt(jobs, i)[j].target, evs)
  {
    RemoveAtIndex(jobs, i);
    hide RemoveAt, Right;
    forall j | 0 <= j < |RemoveAt(jobs, i)| ensures RemoveAt(jobs, i)[j] == jobs[if j < i then j else j + 1] { }
  }

  lemma TailRemoved(tails: seq<Tail>, i: nat, evs: seq<Event>)
    requires i < |tails| && forall j :: 0 <= j < |tails| ==> Right(tails[j].target, evs)
    ensures forall j :: 0 <= j < |RemoveAt(tails, i)| ==> Right(RemoveAt(tails, i)[j].target, evs)
  {
    RemoveAtIndex(tails, i);
    hide RemoveAt, Right;
    forall j | 0 <= j < |RemoveAt(tails, i)| ensures RemoveAt(tails, i)[j] == tails[if j < i then j else j + 1] { }
  }

  lemma SpawnedAddressed(evs: seq<Event>, s: State, e: Event)
    requires Addressed(s, evs) && (e.act.Begin? || e.act.CancelSpawned?) && RegAddressed(Next(s, e).reg, evs)
    ensures Addressed(Next(s, e), evs)
  {
    hide IssuedTo, Attempted, RemoveAt;
    if e.act.i < |s.spawned| { JobRemoved(s.spawned, e.act.i, evs); }
  }

  lemma InflightAddressed(evs: seq<Event>, s: State, e: Event)
    requires Addressed(s, evs) && (e.act.Accepted? || e.act.Failed? || e.act.CancelInflight?)
    requires RegAddressed(Next(s, e).reg, evs)
    ensures Addressed(Next(s, e), evs)
  {
    hide IssuedTo, Sent, NextDelay, FailRetryDelay, RemoveAt;
    if e.act.i < |s.inflight| { JobRemoved(s.inflight, e.act.i, evs); }
  }

  lemma TailAddressed(evs: seq<Event>, s: State, e: Event)
    requires Addressed(s, evs) && (e.act.Wake? || e.act.CancelTail?) && RegAddressed(Next(s, e).reg, evs)
    ensures Addressed(Next(s, e), evs)
  {
    hide IssuedTo, Attempted, RemoveAt;
    if e.act.i < |s.tails| { TailRemoved(s.tails, e.act.i, evs); }
  }

  lemma TickAddressed(evs: seq<Event>, s: State, e: Event)
    requires Addressed(s, evs) && e.act.Tick? && RegAddressed(Next(s, e).reg, evs)
    ensures Addressed(Next(s, e), evs)
  {
    hide IssuedTo, TargetsDue, Swept, R.DueKeys;
    var s' := Next(s, e);
    R.TargetsAreKeys(s'.reg, e.act.againAt, e.now);
  }

  lemma RegistryAddressed(s: State, evs: seq<Event>, e: Event)
    requires Addressed(s, evs)
    ensures RegAddressed(Next(s, e).reg, evs + [e])
  {
    hide Next, IssuedTo;
    forall r | r in Next(s, e).reg.vals
      ensures IssuedTo(evs + [e], r, Next(s, e).reg.vals[r].payer, Next(s, e).reg.vals[r].req)
    {
      EntryFrom(s, e, r);
      IssuedMore(evs, e, r, Next(s, e).reg.vals[r].payer, Next(s, e).reg.vals[r].req);
    }
  }

  /** In every run from the start, every spawned, in-flight, sleeping or queued delivery, and every
      registry entry, has the payer and the request that its hash was issued with. */
  lemma {:induction false} DeliveriesAreAddressed(evs: seq<Event>)
    ensures Addressed(Run(INIT, evs), evs)
  {
    hide Next, Addressed, RegAddressed;
    if evs == [] {
      NothingYet();
      return;
    }
    var init, e := evs[..|evs| - 1], evs[|evs| - 1];
    DeliveriesAreAddressed(init);
    assert evs == init + [e];
    var s := Run(INIT, init);
    RegistryAddressed(s, init, e);
    AddressedLonger(s, init, e);
    TargetsAddressed(evs, s, e);
  }

  lemma NothingYet()
    ensures Addressed(INIT, [])
  {
  }
}
