/** The coroutines around the registry over whole runs: chains of fast retries end, a leaked guard
    keeps its receipt to the hourly tick, and nothing is delivered that was never due. */
module Retries {
  import opened Receipts
  import opened Delivery
  import opened LateSends
  import R = ReceiptRuns

  // ---- the chain of fast retries ------------------------------------------------------------

  /** The most failures in a row that are followed by a fast retry. */
  const LONGEST := 11

  /** A delivery with `streak` failures behind it runs no earlier than their backoffs allow. */
  ghost predicate Late(streak: nat, anchor: real, t: real) {
    streak <= LONGEST && (streak > 0 ==> t >= anchor + R.BackoffSum(streak))
  }

  ghost predicate JobsLate(jobs: seq<Job>, r: Id, anchor: real, t: real) {
    forall i :: 0 <= i < |jobs| && jobs[i].target.rhash == r ==> Late(jobs[i].streak, anchor, t)
  }

  ghost predicate TailsLate(tails: seq<Tail>, r: Id, anchor: real) {
    forall i :: 0 <= i < |tails| && tails[i].target.rhash == r ==> Late(tails[i].streak, anchor, tails[i].wakeAt)
  }

  /** Every retry chain of `r` is where the backoffs from `anchor` on let it be at time `t`. */
  ghost predicate Paced(s: State, r: Id, anchor: real, t: real) {
    anchor <= t && (r in s.reg.vals ==> Owed(s.reg, r) && R.Anchor(s.reg.vals[r]) == anchor) &&
    JobsLate(s.spawned, r, anchor, t) && JobsLate(s.inflight, r, anchor, t) && TailsLate(s.tails, r, anchor)
  }

  lemma BackoffsSoFar(k: nat)
    ensures k >= LONGEST ==> R.BackoffSum(k) >= 635.0
    ensures R.BackoffSum(k + 1) == R.BackoffSum(k) + Backoff(k + 1)
  {
    if k >= LONGEST {
      R.ElevenBackoffs();
      R.BackoffSumGrows(LONGEST, k);
    }
  }

  lemma RegistryPaced(s: State, e: Event, r: Id, anchor: real, t: real)
    requires Paced(s, r, anchor, t) && NotIssued([e], r) && !Accepts(s, e, r)
    ensures var reg := Next(s, e).reg;
      r in reg.vals ==> Owed(reg, r) && R.Anchor(reg.vals[r]) == anchor
  {
    OnlyIssueRemembers(s, e, r);
    assert RegOp(s, e) != R.RecordSend(r);
    hide Next, RegOp, R.Step;
    StepOnRegistry(s, e);
    R.OwedStep(s.reg, RegEvent(s, e), r);
  }

  lemma JobRemoved(jobs: seq<Job>, i: nat, r: Id, anchor: real, t: real)
    requires i < |jobs| && JobsLate(jobs, r, anchor, t)
    ensures JobsLate(RemoveAt(jobs, i), r, anchor, t)
  {
    RemoveAtIndex(jobs, i);
    hide RemoveAt, Late;
    forall j | 0 <= j < |RemoveAt(jobs, i)| ensures RemoveAt(jobs, i)[j] == jobs[if j < i then j else j + 1] { }
  }

  lemma TailRemoved(tails: seq<Tail>, i: nat, r: Id, anchor: real)
    requires i < |tails| && TailsLate(tails, r, anchor)
    ensures TailsLate(RemoveAt(tails, i), r, anchor)
  {
    RemoveAtIndex(tails, i);
    hide RemoveAt, Late;
    forall j | 0 <= j < |RemoveAt(tails, i)| ensures RemoveAt(tails, i)[j] == tails[if j < i then j else j + 1] { }
  }

  lemma LaterStill(jobs: seq<Job>, r: Id, anchor: real, t: real, now: real)
    requires JobsLate(jobs, r, anchor, t) && t <= now
    ensures JobsLate(jobs, r, anchor, now)
  {
    hide R.BackoffSum;
  }

  /** The other coroutine steps start at streak zero, or pass a streak on. */
  ghost predicate QueuesPaced(s: State, r: Id, anchor: real, t: real) {
    JobsLate(s.spawned, r, anchor, t) && JobsLate(s.inflight, r, anchor, t) && TailsLate(s.tails, r, anchor)
  }

  lemma FailurePaced(s: State, e: Event, r: Id, anchor: real)
    requires e.act.Failed? && e.act.i < |s.inflight| && anchor <= e.now
    requires QueuesPaced(s, r, anchor, e.now)
    requires r in s.reg.vals ==> Owed(s.reg, r) && R.Anchor(s.reg.vals[r]) == anchor
    ensures QueuesPaced(Next(s, e), r, anchor, e.now)
  {
    var job := s.inflight[e.act.i];
    JobRemoved(s.inflight, e.act.i, r, anchor, e.now);
    var delay := FailRetryDelay(s.reg, job.target.rhash, job.streak + 1, e.now);
    BackoffsSoFar(job.streak);
    assert job.target.rhash == r && delay.Some? ==>
      Late(job.streak + 1, anchor, e.now + delay.value);
    hide R.BackoffSum, Late, FailRetryDelay, RemoveAt;
  }

  lemma AcceptPaced(s: State, e: Event, r: Id, anchor: real)
    requires e.act.Accepted? && e.act.i < |s.inflight| && !Accepts(s, e, r)
    requires QueuesPaced(s, r, anchor, e.now)
    ensures QueuesPaced(Next(s, e), r, anchor, e.now)
  {
    JobRemoved(s.inflight, e.act.i, r, anchor, e.now);
    hide Late, NextDelay, Sent, RemoveAt;
  }

  lemma BeginPaced(s: State, e: Event, r: Id, anchor: real)
    requires e.act.Begin? || e.act.NextQueued?
    requires QueuesPaced(s, r, anchor, e.now)
    ensures QueuesPaced(Next(s, e), r, anchor, e.now)
  {
    if e.act.Begin? && e.act.i < |s.spawned| { JobRemoved(s.spawned, e.act.i, r, anchor, e.now); }
    assert Late(0, anchor, e.now);
    hide Late, Attempted, RemoveAt;
  }

  lemma WakePaced(s: State, e: Event, r: Id, anchor: real)
    requires e.act.Wake? && e.act.i < |s.tails| && s.tails[e.act.i].wakeAt <= e.now
    requires QueuesPaced(s, r, anchor, e.now)
    ensures QueuesPaced(Next(s, e), r, anchor, e.now)
  {
    TailRemoved(s.tails, e.act.i, r, anchor);
    var tail := s.tails[e.act.i];
    assert tail.target.rhash == r ==> Late(tail.streak, anchor, e.now);
    hide Late, Attempted, RemoveAt;
  }

  lemma CancelPaced(s: State, e: Event, r: Id, anchor: real)
    requires e.act.CancelTail? || e.act.CancelSpawned? || e.act.CancelInflight?
    requires QueuesPaced(s, r, anchor, e.now)
    ensures QueuesPaced(Next(s, e), r, anchor, e.now)
  {
    match e.act
    case CancelTail(i, _) => if i < |s.tails| { TailRemoved(s.tails, i, r, anchor); }
    case CancelSpawned(i) => if i < |s.spawned| { JobRemoved(s.spawned, i, r, anchor, e.now); }
    case CancelInflight(i) => if i < |s.inflight| { JobRemoved(s.inflight, i, r, anchor, e.now); }
  }

  lemma OtherPaced(s: State, e: Event, r: Id, anchor: real)
    requires e.act.Issue? || e.act.Paid? || e.act.Tick? || e.act.Session? || e.act.Restart?
    requires QueuesPaced(s, r, anchor, e.now)
    ensures QueuesPaced(Next(s, e), r, anchor, e.now)
  {
    assert Late(0, anchor, e.now);
    hide Late, Capped, Swept, TargetsDue, Marked;
  }

  lemma StepPaced(s: State, e: Event, r: Id, anchor: real, t: real)
    requires Paced(s, r, anchor, t) && t <= e.now && NotIssued([e], r) && !Accepts(s, e, r)
    ensures Paced(Next(s, e), r, anchor, e.now)
  {
    RegistryPaced(s, e, r, anchor, t);
    LaterStill(s.spawned, r, anchor, t, e.now);
    LaterStill(s.inflight, r, anchor, t, e.now);
    assert QueuesPaced(s, r, anchor, e.now);
    assert QueuesPaced(Next(s, e), r, anchor, e.now) by {
      match e.act
      case Failed(i) => if i < |s.inflight| { FailurePaced(s, e, r, anchor); }
      case Accepted(i) => if i < |s.inflight| { AcceptPaced(s, e, r, anchor); }
      case Begin(_) => BeginPaced(s, e, r, anchor);
      case NextQueued => BeginPaced(s, e, r, anchor);
      case Wake(i) => if i < |s.tails| && s.tails[i].wakeAt <= e.now { WakePaced(s, e, r, anchor); }
      case CancelTail(_, _) => CancelPaced(s, e, r, anchor);
      case CancelSpawned(_) => CancelPaced(s, e, r, anchor);
      case CancelInflight(_) => CancelPaced(s, e, r, anchor);
      case _ => OtherPaced(s, e, r, anchor);
      hide Next, JobsLate, TailsLate;
    }
    hide Next, JobsLate, TailsLate, R.Anchor;
  }

  ghost predicate NotAccepted(s: State, evs: seq<Event>, r: Id) {
    forall i :: 0 <= i < |evs| ==> !Accepts(Run(s, evs[..i]), evs[i], r)
  }

  /** The clock runs on from `t0`. */
  ghost predicate Timed(t0: real, evs: seq<Event>) {
    (forall i :: 0 <= i < |evs| ==> t0 <= evs[i].now) &&
    forall i, j :: 0 <= i < j < |evs| ==> evs[i].now <= evs[j].now
  }

  function LastReading(t0: real, evs: seq<Event>): real {
    if evs == [] then t0 else evs[|evs| - 1].now
  }

  lemma {:induction false} RunPaced(s: State, evs: seq<Event>, r: Id, anchor: real, t0: real)
    requires Paced(s, r, anchor, t0) && Timed(t0, evs) && NotIssued(evs, r) && NotAccepted(s, evs, r)
    ensures Paced(Run(s, evs), r, anchor, LastReading(t0, evs))
  {
    if evs == [] { return; }
    hide Paced, Next, Accepts;
    var init, e := evs[..|evs| - 1], evs[|evs| - 1];
    NotAcceptedPrefix(s, evs, r);
    RunPaced(s, init, r, anchor, t0);
    assert NotIssued([e], r);
    StepPaced(Run(s, init), e, r, anchor, LastReading(t0, init));
  }

  lemma NotAcceptedPrefix(s: State, evs: seq<Event>, r: Id)
    requires NotAccepted(s, evs, r) && evs != []
    ensures NotAccepted(s, evs[..|evs| - 1], r) && !Accepts(Run(s, evs[..|evs| - 1]), evs[|evs| - 1], r)
  {
    hide Run, Accepts;
    var init := evs[..|evs| - 1];
    forall i | 0 <= i < |init| ensures !Accepts(Run(s, init[..i]), init[i], r) {
      assert init[..i] == evs[..i];
    }
  }

  /** No delivery of `r` has failed yet. */
  ghost predicate FreshChains(s: State, r: Id) {
    (forall i :: 0 <= i < |s.spawned| && s.spawned[i].target.rhash == r ==> s.spawned[i].streak == 0) &&
    (forall i :: 0 <= i < |s.inflight| && s.inflight[i].target.rhash == r ==> s.inflight[i].streak == 0) &&
    (forall i :: 0 <= i < |s.tails| && s.tails[i].target.rhash == r ==> s.tails[i].streak == 0)
  }

  /** While no publish of a due receipt is accepted, no chain of failures ever schedules a twelfth
      fast retry, whatever interleaves: the streak that every retry passes on stays within eleven,
      so each chain ends and leaves the receipt to the hourly tick. */
  lemma RetryChainsEnd(s: State, evs: seq<Event>, r: Id, t0: real)
    requires Owed(s.reg, r) && R.Anchor(s.reg.vals[r]) <= t0 && FreshChains(s, r)
    requires Timed(t0, evs) && NotIssued(evs, r) && NotAccepted(s, evs, r)
    ensures var s' := Run(s, evs);
      (forall i :: 0 <= i < |s'.tails| && s'.tails[i].target.rhash == r ==> s'.tails[i].streak <= LONGEST) &&
      (forall i :: 0 <= i < |s'.inflight| && s'.inflight[i].target.rhash == r ==> s'.inflight[i].streak <= LONGEST)
  {
    hide Run, NotIssued, NotAccepted, Timed;
    RunPaced(s, evs, r, R.Anchor(s.reg.vals[r]), t0);
  }

  // ---- a guard without a tail -----------------------------------------------------------------

  /** The hash is guarded although no tail sleeps for it: a tail was cancelled before its first
      step. */
  ghost predicate Leaked(s: State, r: Id) {
    OneTailEach(s) && r in s.guard && forall i :: 0 <= i < |s.tails| ==> s.tails[i].target.rhash != r
  }

  lemma CancelLeaks(s: State, i: nat, now: real)
    requires OneTailEach(s) && i < |s.tails|
    ensures Leaked(Next(s, Event(CancelTail(i, false), now)), s.tails[i].target.rhash)
  {
    StepKeepsOneTail(s, Event(CancelTail(i, false), now));
    RemoveAtIndex(s.tails, i);
    var ts := RemoveAt(s.tails, i);
    forall j | 0 <= j < |ts| ensures ts[j] == s.tails[if j < i then j else j + 1] { }
  }

  lemma ScheduleStaysLeaked(s: State, r: Id, target: Target, delay: real, streak: nat, now: real)
    requires r in s.guard && forall i :: 0 <= i < |s.tails| ==> s.tails[i].target.rhash != r
    ensures var s' := Schedule(s, target, delay, streak, now);
      r in s'.guard && forall i :: 0 <= i < |s'.tails| ==> s'.tails[i].target.rhash != r
  {
  }

  lemma CompletionStaysLeaked(s: State, e: Event, r: Id)
    requires Leaked(s, r) && (e.act.Accepted? || e.act.Failed?) && e.act.i < |s.inflight|
    ensures Leaked(Next(s, e), r)
  {
    StepKeepsOneTail(s, e);
    hide OneTailEach, Sent, NextDelay, FailRetryDelay, Schedule;
    var job, s1 := s.inflight[e.act.i], s.(inflight := RemoveAt(s.inflight, e.act.i));
    if e.act.Accepted? {
      var delay := NextDelay(s.reg, job.target.rhash, e.now);
      if delay.Some? {
        ScheduleStaysLeaked(s1.(reg := Sent(s.reg, job.target.rhash, e.now)), r,
          job.target.(sends := job.target.sends + 1), delay.value, 0, e.now);
      }
    } else {
      var delay := FailRetryDelay(s.reg, job.target.rhash, job.streak + 1, e.now);
      if delay.Some? { ScheduleStaysLeaked(s1, r, job.target, delay.value, job.streak + 1, e.now); }
    }
  }

  lemma TailStepStaysLeaked(s: State, e: Event, r: Id)
    requires Leaked(s, r) && (e.act.Wake? || e.act.CancelTail?) && e.act.i < |s.tails|
    ensures Leaked(Next(s, e), r)
  {
    StepKeepsOneTail(s, e);
    RemoveAtIndex(s.tails, e.act.i);
    hide OneTailEach, Attempted, RemoveAt;
    var ts := RemoveAt(s.tails, e.act.i);
    forall j | 0 <= j < |ts| ensures ts[j] == s.tails[if j < e.act.i then j else j + 1] { }
  }

  lemma StepStaysLeaked(s: State, e: Event, r: Id)
    requires Leaked(s, r) && !e.act.Restart?
    ensures Leaked(Next(s, e), r)
  {
    match e.act
    case Accepted(i) => if i < |s.inflight| { CompletionStaysLeaked(s, e, r); }
    case Failed(i) => if i < |s.inflight| { CompletionStaysLeaked(s, e, r); }
    case Wake(i) => if i < |s.tails| { TailStepStaysLeaked(s, e, r); }
    case CancelTail(i, _) => if i < |s.tails| { TailStepStaysLeaked(s, e, r); }
    case _ =>
      OtherStepsLeaveTails(s, e);
      hide Next;
  }

  /** A leaked guard lasts for the session: until a restart its receipt never sleeps for another
      re-broadcast or fast retry, and is left to the hourly tick. */
  lemma {:induction false} LeakedGuardLasts(s: State, evs: seq<Event>, r: Id)
    requires Leaked(s, r) && forall i :: 0 <= i < |evs| ==> !evs[i].act.Restart?
    ensures Leaked(Run(s, evs), r)
  {
    hide Next, Leaked;
    if evs != [] {
      LeakedGuardLasts(s, evs[..|evs| - 1], r);
      StepStaysLeaked(Run(s, evs[..|evs| - 1]), evs[|evs| - 1], r);
    }
  }

  // ---- only what was due is delivered ------------------------------------------------------------

  /** The hashes that were owed at some point of the run. */
  function OnceDue(evs: seq<Event>): set<Id> {
    if evs == [] then {} else OnceDue(evs[..|evs| - 1]) + OwedSet(Run(INIT, evs).reg)
  }

  ghost predicate AllIn(s: State, due: set<Id>) {
    (forall i :: 0 <= i < |s.spawned| ==> s.spawned[i].target.rhash in due) &&
    (forall i :: 0 <= i < |s.inflight| ==> s.inflight[i].target.rhash in due) &&
    (forall i :: 0 <= i < |s.tails| ==> s.tails[i].target.rhash in due) &&
    (forall i :: 0 <= i < |s.queue| ==> s.queue[i].rhash in due)
  }

  lemma RemovedFrom(jobs: seq<Job>, i: nat, due: set<Id>)
    requires i < |jobs| && forall j :: 0 <= j < |jobs| ==> jobs[j].target.rhash in due
    ensures forall j :: 0 <= j < |RemoveAt(jobs, i)| ==> RemoveAt(jobs, i)[j].target.rhash in due
  {
    RemoveAtIndex(jobs, i);
    var js := RemoveAt(jobs, i);
    hide RemoveAt;
    forall j | 0 <= j < |js| ensures js[j] == jobs[if j < i then j else j + 1] { }
  }

  lemma SpawnedIn(s: State, e: Event, due: set<Id>)
    requires AllIn(s, due) && (e.act.Begin? || e.act.CancelSpawned?)
    ensures AllIn(Next(s, e), due)
  {
    hide Attempted, RemoveAt;
    if e.act.i < |s.spawned| { RemovedFrom(s.spawned, e.act.i, due); }
  }

  lemma InflightIn(s: State, e: Event, due: set<Id>)
    requires AllIn(s, due) && (e.act.Accepted? || e.act.Failed? || e.act.CancelInflight?)
    ensures AllIn(Next(s, e), due)
  {
    hide Sent, NextDelay, FailRetryDelay, RemoveAt;
    if e.act.i < |s.inflight| { RemovedFrom(s.inflight, e.act.i, due); }
  }

  lemma TailRemovalIn(s: State, e: Event, due: set<Id>)
    requires AllIn(s, due) && (e.act.Wake? || e.act.CancelTail?)
    ensures AllIn(Next(s, e), due)
  {
    hide Attempted, RemoveAt;
    if e.act.i < |s.tails| { TailRemovedFrom(s.tails, e.act.i, due); }
  }

  lemma TailRemovedFrom(tails: seq<Tail>, i: nat, due: set<Id>)
    requires i < |tails| && forall j :: 0 <= j < |tails| ==> tails[j].target.rhash in due
    ensures forall j :: 0 <= j < |RemoveAt(tails, i)| ==> RemoveAt(tails, i)[j].target.rhash in due
  {
    RemoveAtIndex(tails, i);
    var ts := RemoveAt(tails, i);
    hide RemoveAt;
    forall j | 0 <= j < |ts| ensures ts[j] == tails[if j < i then j else j + 1] { }
  }

  lemma PaidIn(s: State, e: Event, due: set<Id>)
    requires AllIn(s, due) && e.act.Paid? && OwedSet(Next(s, e).reg) <= due
    ensures AllIn(Next(s, e), due)
  {
    var r := e.act.rhash;
    if r in Marked(s.reg, r, e.now).vals { assert r in OwedSet(Next(s, e).reg); }
  }

  lemma TickIn(s: State, e: Event, due: set<Id>)
    requires AllIn(s, due) && e.act.Tick? && OwedSet(Next(s, e).reg) <= due
    ensures AllIn(Next(s, e), due)
  {
    var s' := Next(s, e);
    hide TargetsDue, Swept;
    forall i | 0 <= i < |s'.queue| ensures s'.queue[i].rhash in due {
      assert R.Listed(s'.queue, s'.queue[i].rhash);
      R.ListedIsOwed(s'.reg, e.act.againAt, e.now, s'.queue[i].rhash);
    }
  }

  lemma StepIn(s: State, e: Event, due: set<Id>)
    requires AllIn(s, due) && OwedSet(Next(s, e).reg) <= due
    ensures AllIn(Next(s, e), due)
  {
    match e.act
    case Paid(_) => PaidIn(s, e, due);
    case Tick(_, _) => TickIn(s, e, due);
    case Begin(_) => SpawnedIn(s, e, due);
    case CancelSpawned(_) => SpawnedIn(s, e, due);
    case Accepted(_) => InflightIn(s, e, due);
    case Failed(_) => InflightIn(s, e, due);
    case CancelInflight(_) => InflightIn(s, e, due);
    case Wake(_) => TailRemovalIn(s, e, due);
    case CancelTail(_, _) => TailRemovalIn(s, e, due);
    case _ => hide Attempted, Capped, OwedSet;
  }

  /** In every run from the start, every delivery - spawned, in flight, asleep or in the tick's
      list - is for a receipt that was owed at some point of it. */
  lemma {:induction false} DeliveriesWereDue(evs: seq<Event>)
    ensures AllIn(Run(INIT, evs), OnceDue(evs))
  {
    if evs != [] {
      hide Next, AllIn, OwedSet;
      var init, e := evs[..|evs| - 1], evs[|evs| - 1];
      DeliveriesWereDue(init);
      AllInGrows(Run(INIT, init), OnceDue(init), OnceDue(evs));
      StepIn(Run(INIT, init), e, OnceDue(evs));
    }
  }

  lemma AllInGrows(s: State, a: set<Id>, b: set<Id>)
    requires AllIn(s, a) && a <= b
    ensures AllIn(s, b)
  {
  }
}
