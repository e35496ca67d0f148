/** The delivery runtime of clink/clink_plugin.py around the receipt registry: immediate
    deliveries, sleeping re-broadcast tails, the redelivery tick and restarts, in any
    interleaving. A coroutine is cut at its awaits; each piece is one step. */
module Delivery {
  import opened PyDict
  import opened Receipts
  import R = ReceiptRuns

  /** A call of `_deliver_receipt` with its failure streak. */
  datatype Job = Job(target: Target, streak: nat)

  /** A sleeping `_rebroadcast_receipt_later`. */
  datatype Tail = Tail(target: Target, wakeAt: real, streak: nat)

  /** `guard` is `_receipt_tails`; `spawned` holds deliveries not yet begun, `inflight` those
      awaiting their publish, `queue` the tick's snapshot of targets and `next` how many of
      them its loop has begun. */
  datatype State = State(
    reg: Entries, guard: set<Id>, tails: seq<Tail>,
    spawned: seq<Job>, inflight: seq<Job>, queue: seq<Target>, next: nat,
    taskgroup: bool, manager: bool)

  datatype Action =
    | Issue(rhash: Id, payer: Id, req: Id, expiresAt: real)
    | Paid(rhash: Id)                  // on_event_request_status
    | Begin(i: nat)                    // a spawned delivery runs up to its publish
    | Accepted(i: nat)                 // the publish in flight reached the relay
    | Failed(i: nat)                   // it was refused or timed out
    | Wake(i: nat)                     // a tail's sleep is over
    | CancelTail(i: nat, slept: bool)  // cancelled in its sleep, or before its first step
    | CancelSpawned(i: nat)
    | CancelInflight(i: nat)
    | Tick(sweptAt: real, againAt: real)  // sweep, then snapshot the due targets, in three readings
    | NextQueued                       // the tick's loop begins its next target
    | Session(taskgroup: bool, manager: bool)
    | Restart

  datatype Event = Event(act: Action, now: real)

  const INIT := State(Empty(), {}, [], [], [], [], 0, false, false)

  /** `s` without its element `i`. */
  function RemoveAt<T>(s: seq<T>, i: nat): (r: seq<T>)
    requires i < |s|
  {
    var init := s[..|s| - 1];
    if i == |s| - 1 then init else RemoveAt(init, i) + [s[|s| - 1]]
  }

  lemma {:induction false} RemoveAtIndex<T>(s: seq<T>, i: nat)
    requires i < |s|
    ensures |RemoveAt(s, i)| == |s| - 1
    ensures forall j :: 0 <= j < i ==> RemoveAt(s, i)[j] == s[j]
    ensures forall j :: i <= j < |s| - 1 ==> RemoveAt(s, i)[j] == s[j + 1]
  {
    var init := s[..|s| - 1];
    if i != |s| - 1 {
      RemoveAtIndex(init, i);
      forall j | i <= j < |s| - 1 ensures RemoveAt(s, i)[j] == s[j + 1] {
        if j < |s| - 2 { assert RemoveAt(init, i)[j] == init[j + 1]; }
      }
    }
  }

  /** `_schedule_receipt_rebroadcast` */
  function Schedule(s: State, target: Target, delay: real, streak: nat, now: real): State {
    if !s.taskgroup || target.rhash in s.guard then s
    else s.(guard := s.guard + {target.rhash}, tails := s.tails + [Tail(target, now + delay, streak)])
  }

  /** `_deliver_receipt` up to its await. */
  function Deliver(s: State, job: Job, now: real): State {
    var s1 := s.(reg := Attempted(s.reg, job.target.rhash, now));
    if s.manager then s1.(inflight := s1.inflight + [job]) else s1
  }

  function Accept(s: State, job: Job, now: real): State {
    var r := job.target.rhash;
    var delay := NextDelay(s.reg, r, now);
    var s1 := s.(reg := Sent(s.reg, r, now));
    if delay.Some? then Schedule(s1, job.target.(sends := job.target.sends + 1), delay.value, 0, now) else s1
  }

  function Fail(s: State, job: Job, now: real): State {
    var delay := FailRetryDelay(s.reg, job.target.rhash, job.streak + 1, now);
    if delay.Some? then Schedule(s, job.target, delay.value, job.streak + 1, now) else s
  }

  function WakeTail(s: State, i: nat, now: real): State
    requires i < |s.tails|
  {
    var tail := s.tails[i];
    var r := tail.target.rhash;
    var s1 := s.(tails := RemoveAt(s.tails, i), guard := s.guard - {r});
    if Owed(s.reg, r) then Deliver(s1, Job(tail.target, tail.streak), now) else s1
  }

  function OnPaid(s: State, r: Id, now: real): State {
    var reg := Marked(s.reg, r, now);
    if r in reg.vals then s.(reg := reg, spawned := s.spawned + [Job(TargetOf(r, reg.vals[r]), 0)]) else s
  }

  function Next(s: State, e: Event): State {
    match e.act
    case Issue(r, payer, req, exp) => s.(reg := Capped(Put(s.reg, r, Awaiting(payer, req, exp))))
    case Paid(r) => OnPaid(s, r, e.now)
    case Begin(i) =>
      if i < |s.spawned| then Deliver(s.(spawned := RemoveAt(s.spawned, i)), s.spawned[i], e.now) else s
    case Accepted(i) =>
      if i < |s.inflight| then Accept(s.(inflight := RemoveAt(s.inflight, i)), s.inflight[i], e.now) else s
    case Failed(i) =>
      if i < |s.inflight| then Fail(s.(inflight := RemoveAt(s.inflight, i)), s.inflight[i], e.now) else s
    case Wake(i) =>
      if i < |s.tails| && s.tails[i].wakeAt <= e.now then WakeTail(s, i, e.now) else s
    case CancelTail(i, slept) =>
      if i < |s.tails| then
        s.(tails := RemoveAt(s.tails, i),
           guard := if slept then s.guard - {s.tails[i].target.rhash} else s.guard)
      else s
    case CancelSpawned(i) => if i < |s.spawned| then s.(spawned := RemoveAt(s.spawned, i)) else s
    case CancelInflight(i) => if i < |s.inflight| then s.(inflight := RemoveAt(s.inflight, i)) else s
    case Tick(sweptAt, againAt) =>
      s.(reg := Swept(s.reg, sweptAt), queue := TargetsDue(Swept(s.reg, sweptAt), againAt, e.now), next := 0)
    case NextQueued =>
      if s.next < |s.queue| then Deliver(s.(next := s.next + 1), Job(s.queue[s.next], 0), e.now) else s
    case Session(tg, m) => s.(taskgroup := tg, manager := m)
    case Restart => INIT.(reg := s.reg)
  }

  function Run(s: State, evs: seq<Event>): State {
    if evs == [] then s else Next(Run(s, evs[..|evs| - 1]), evs[|evs| - 1])
  }

  // ---- the registry sees a run of its own operations ------------------------------

  /** The registry operation a step performs; `Reload` when it performs none. */
  function RegOp(s: State, e: Event): R.Op {
    match e.act
    case Issue(r, payer, req, exp) => R.Remember(r, payer, req, exp)
    case Paid(r) => R.MarkDue(r)
    case Begin(i) => if i < |s.spawned| then R.RecordAttempt(s.spawned[i].target.rhash) else R.Reload
    case Accepted(i) => if i < |s.inflight| then R.RecordSend(s.inflight[i].target.rhash) else R.Reload
    case Wake(i) =>
      if i < |s.tails| && s.tails[i].wakeAt <= e.now && Owed(s.reg, s.tails[i].target.rhash)
      then R.RecordAttempt(s.tails[i].target.rhash) else R.Reload
    case Tick(_, _) => R.Sweep
    case NextQueued => if s.next < |s.queue| then R.RecordAttempt(s.queue[s.next].rhash) else R.Reload
    case _ => R.Reload
  }

  /** That operation with the clock reading it takes. */
  function RegEvent(s: State, e: Event): R.Event {
    R.Event(RegOp(s, e), if e.act.Tick? then e.act.sweptAt else e.now)
  }

  function RegTrace(s: State, evs: seq<Event>): seq<R.Event> {
    if evs == [] then []
    else
      var init, last := evs[..|evs| - 1], evs[|evs| - 1];
      RegTrace(s, init) + [RegEvent(Run(s, init), last)]
  }

  lemma StepOnRegistry(s: State, e: Event)
    ensures Next(s, e).reg == R.Step(s.reg, RegEvent(s, e))
  {
    hide Attempted, Sent, Capped, Swept, TargetsDue, NextDelay, FailRetryDelay, NoDup, Elems;
    var op := RegOp(s, e);
    match e.act
    case Issue(r, payer, req, exp) =>
      assert op == R.Remember(r, payer, req, exp) && Next(s, e).reg == Capped(Put(s.reg, r, Awaiting(payer, req, exp)));
    case Paid(r) => assert op == R.MarkDue(r) && Next(s, e).reg == Marked(s.reg, r, e.now);
    case Begin(i) => BeginOnRegistry(s, e);
    case Accepted(i) => AcceptedOnRegistry(s, e);
    case Failed(i) => assert op == R.Reload && Next(s, e).reg == s.reg;
    case Wake(i) => WakeOnRegistry(s, e);
    case CancelTail(_, _) => assert op == R.Reload && Next(s, e).reg == s.reg;
    case CancelSpawned(_) => assert op == R.Reload && Next(s, e).reg == s.reg;
    case CancelInflight(_) => assert op == R.Reload && Next(s, e).reg == s.reg;
    case Tick(sweptAt, _) => assert op == R.Sweep && Next(s, e).reg == Swept(s.reg, sweptAt);
    case NextQueued => BeginOnRegistry(s, e);
    case Session(_, _) => assert op == R.Reload;
    case Restart => assert op == R.Reload;
  }

  lemma BeginOnRegistry(s: State, e: Event)
    requires e.act.Begin? || e.act.NextQueued?
    ensures Next(s, e).reg == R.Step(s.reg, RegEvent(s, e))
  {
    hide Attempted, Sent, Capped, Marked, Swept, TargetsDue, NextDelay, FailRetryDelay, Put, NoDup, Elems;
  }

  lemma AcceptedOnRegistry(s: State, e: Event)
    requires e.act.Accepted?
    ensures Next(s, e).reg == R.Step(s.reg, RegEvent(s, e))
  {
    hide Attempted, Sent, Capped, Marked, Swept, TargetsDue, NextDelay, FailRetryDelay, Put, NoDup, Elems;
  }

  lemma WakeOnRegistry(s: State, e: Event)
    requires e.act.Wake?
    ensures Next(s, e).reg == R.Step(s.reg, RegEvent(s, e))
  {
    hide Attempted, Sent, Capped, Marked, Swept, TargetsDue, NextDelay, FailRetryDelay, Put, NoDup, Elems;
  }

  /** Every interleaving acts on the registry as one sequence of its operations, so what
      holds over all registry runs holds under concurrent deliveries. */
  lemma {:induction false} RuntimeRefinesRegistry(s: State, evs: seq<Event>)
    ensures |RegTrace(s, evs)| == |evs|
    ensures Run(s, evs).reg == R.Run(s.reg, RegTrace(s, evs))
  {
    if evs != [] {
      var init, last := evs[..|evs| - 1], evs[|evs| - 1];
      RuntimeRefinesRegistry(s, init);
      StepOnRegistry(Run(s, init), last);
      var t := RegTrace(s, evs);
      assert t[..|t| - 1] == RegTrace(s, init);
    }
  }

  /** In any interleaving at most six sends are stored per receipt, and the cap holds. */
  lemma InterleavingsAreBounded(evs: seq<Event>)
    ensures R.WellFormed(Run(INIT, evs).reg) && R.WithinCap(Run(INIT, evs).reg)
  {
    RuntimeRefinesRegistry(INIT, evs);
    R.ReachableIsBounded(RegTrace(INIT, evs));
  }

  // ---- one tail per receipt --------------------------------------------------------

  ghost predicate OneTailEach(s: State) {
    (forall i :: 0 <= i < |s.tails| ==> s.tails[i].target.rhash in s.guard) &&
    (forall i, j :: 0 <= i < j < |s.tails| ==> s.tails[i].target.rhash != s.tails[j].target.rhash)
  }

  lemma ScheduleKeepsOneTail(s: State, target: Target, delay: real, streak: nat, now: real)
    requires OneTailEach(s)
    ensures OneTailEach(Schedule(s, target, delay, streak, now))
  {
    hide Attempted, Sent, Capped, Marked, Swept, TargetsDue, NextDelay, FailRetryDelay, Put, NoDup, Elems;
  }

  lemma RemovedTail(s: State, i: nat, slept: bool)
    requires OneTailEach(s) && i < |s.tails|
    ensures OneTailEach(s.(tails := RemoveAt(s.tails, i),
      guard := if slept then s.guard - {s.tails[i].target.rhash} else s.guard))
  {
    RemoveAtIndex(s.tails, i);
    var ts := RemoveAt(s.tails, i);
    forall j | 0 <= j < |ts| ensures ts[j] == s.tails[if j < i then j else j + 1] { }
  }

  lemma CompletionKeepsOneTail(s: State, e: Event)
    requires OneTailEach(s) && (e.act.Accepted? || e.act.Failed?) && e.act.i < |s.inflight|
    ensures OneTailEach(Next(s, e))
  {
    hide Attempted, Sent, Capped, Swept, TargetsDue, NextDelay, FailRetryDelay, Put;
    var job, s1 := s.inflight[e.act.i], s.(inflight := RemoveAt(s.inflight, e.act.i));
    if e.act.Accepted? {
      var delay := NextDelay(s.reg, job.target.rhash, e.now);
      if delay.Some? {
        ScheduleKeepsOneTail(s1.(reg := Sent(s.reg, job.target.rhash, e.now)),
          job.target.(sends := job.target.sends + 1), delay.value, 0, e.now);
      }
    } else {
      var delay := FailRetryDelay(s.reg, job.target.rhash, job.streak + 1, e.now);
      if delay.Some? { ScheduleKeepsOneTail(s1, job.target, delay.value, job.streak + 1, e.now); }
    }
  }

  lemma TailStepKeepsOneTail(s: State, e: Event)
    requires OneTailEach(s) && (e.act.Wake? || e.act.CancelTail?) && e.act.i < |s.tails|
    ensures OneTailEach(Next(s, e))
  {
    hide Attempted, Sent, Capped, Swept, TargetsDue, NextDelay, FailRetryDelay, Put;
    RemovedTail(s, e.act.i, true);
    RemovedTail(s, e.act.i, false);
  }

  lemma OtherStepsLeaveTails(s: State, e: Event)
    requires !e.act.Accepted? && !e.act.Failed? && !e.act.Wake? && !e.act.CancelTail? && !e.act.Restart?
    ensures Next(s, e).tails == s.tails && Next(s, e).guard == s.guard
  {
    hide Attempted, Sent, Capped, Swept, TargetsDue, NextDelay, FailRetryDelay, Put;
  }

  lemma StepKeepsOneTail(s: State, e: Event)
    requires OneTailEach(s)
    ensures OneTailEach(Next(s, e))
  {
    match e.act
    case Accepted(i) => if i < |s.inflight| { CompletionKeepsOneTail(s, e); }
    case Failed(i) => if i < |s.inflight| { CompletionKeepsOneTail(s, e); }
    case Wake(i) => if i < |s.tails| { TailStepKeepsOneTail(s, e); }
    case CancelTail(i, _) => if i < |s.tails| { TailStepKeepsOneTail(s, e); }
    case Restart =>
    case _ => OtherStepsLeaveTails(s, e);
  }

  /** The guard admits at most one sleeping tail per receipt, also when a tail cancelled
      before its first step leaves its guard behind. */
  lemma {:induction false} TailsNeverStack(evs: seq<Event>)
    ensures OneTailEach(Run(INIT, evs))
  {
    if evs != [] {
      TailsNeverStack(evs[..|evs| - 1]);
      StepKeepsOneTail(Run(INIT, evs[..|evs| - 1]), evs[|evs| - 1]);
    }
  }

  // ---- after the last send -----------------------------------------------------------

  /** Deliveries of `r` that have not begun their publish yet. */
  function Waiting(jobs: seq<Job>, r: Id): nat {
    if jobs == [] then 0
    else Waiting(jobs[..|jobs| - 1], r) + if jobs[|jobs| - 1].target.rhash == r then 1 else 0
  }

  /** Targets of `r` the tick's loop has not begun yet. */
  function Queued(queue: seq<Target>, next: nat, r: Id): nat
    decreases |queue| - next
  {
    if next >= |queue| then 0 else (if queue[next].rhash == r then 1 else 0) + Queued(queue, next + 1, r)
  }

  function Outstanding(s: State, r: Id): nat {
    Waiting(s.spawned, r) + Queued(s.queue, s.next, r)
  }

  /** Whether the step starts publishing the receipt of `r`. */
  predicate Publishes(s: State, e: Event, r: Id) {
    s.manager &&
    match e.act
    case Begin(i) => i < |s.spawned| && s.spawned[i].target.rhash == r
    case Wake(i) => i < |s.tails| && s.tails[i].wakeAt <= e.now && s.tails[i].target.rhash == r && Owed(s.reg, r)
    case NextQueued => s.next < |s.queue| && s.queue[s.next].rhash == r
    case _ => false
  }

  function PublishCount(s: State, evs: seq<Event>, r: Id): nat {
    if evs == [] then 0
    else
      var init, last := evs[..|evs| - 1], evs[|evs| - 1];
      PublishCount(s, init, r) + if Publishes(Run(s, init), last, r) then 1 else 0
  }

  ghost predicate NotIssued(evs: seq<Event>, r: Id) {
    forall i :: 0 <= i < |evs| ==> !(evs[i].act.Issue? && evs[i].act.rhash == r)
  }

  lemma {:induction false} WaitingRemove(jobs: seq<Job>, r: Id, i: nat)
    requires i < |jobs|
    ensures Waiting(jobs, r) == Waiting(RemoveAt(jobs, i), r) + if jobs[i].target.rhash == r then 1 else 0
  {
    var init := jobs[..|jobs| - 1];
    if i != |jobs| - 1 {
      WaitingRemove(init, r, i);
      WaitingSnoc(RemoveAt(init, i), jobs[|jobs| - 1], r);
    }
  }

  lemma WaitingSnoc(jobs: seq<Job>, job: Job, r: Id)
    ensures Waiting(jobs + [job], r) == Waiting(jobs, r) + if job.target.rhash == r then 1 else 0
  {
    assert (jobs + [job])[..|jobs|] == jobs;
  }

  lemma NotQueued(queue: seq<Target>, next: nat, r: Id)
    requires !R.Listed(queue, r)
    ensures Queued(queue, next, r) == 0
    decreases |queue| - next
  {
    if next < |queue| {
      assert queue[next].rhash != r;
      NotQueued(queue, next + 1, r);
    }
  }

  lemma TickSkipsGone(reg: Entries, sweptAt: real, againAt: real, now: real, r: Id)
    requires r !in reg.vals
    ensures Queued(TargetsDue(Swept(reg, sweptAt), againAt, now), 0, r) == 0
  {
    var left := Swept(reg, sweptAt);
    var queue := TargetsDue(left, againAt, now);
    assert r !in left.vals;
    hide TargetsDue, Swept;
    if R.Listed(queue, r) { R.ListedIsOwed(left, againAt, now, r); }
    NotQueued(queue, 0, r);
  }

  lemma OnlyIssueRemembers(s: State, e: Event, r: Id)
    requires NotIssued([e], r)
    ensures R.LeavesAlone([RegEvent(s, e)], r)
  {
    assert [e][0] == e;
    var op := RegOp(s, e);
    assert op.Remember? ==> e.act.Issue? && op.rhash == e.act.rhash;
    assert !op.Forget?;
  }

  lemma GoneFromRegistry(s: State, e: Event, r: Id)
    requires r !in s.reg.vals && NotIssued([e], r)
    ensures r !in Next(s, e).reg.vals
  {
    hide Next, RegEvent, R.Step;
    StepOnRegistry(s, e);
    OnlyIssueRemembers(s, e, r);
    R.OwedStep(s.reg, RegEvent(s, e), r);
  }

  /** A delivery in flight for a receipt the registry no longer holds: its completion
      changes nothing in the registry and schedules nothing. */
  lemma GoneCompletion(s: State, e: Event)
    requires (e.act.Accepted? || e.act.Failed?) && e.act.i < |s.inflight|
    requires s.inflight[e.act.i].target.rhash !in s.reg.vals
    ensures Next(s, e) == s.(inflight := RemoveAt(s.inflight, e.act.i))
  {
  }

  /** Each publish the step begins for `r` uses up one that was already waiting. */
  ghost predicate UsesUp(s: State, e: Event, r: Id) {
    Outstanding(Next(s, e), r) + (if Publishes(s, e, r) then 1 else 0) <= Outstanding(s, r)
  }

  lemma GoneSpawnedStep(s: State, e: Event, r: Id)
    requires (e.act.Begin? || e.act.CancelSpawned?)
    ensures UsesUp(s, e, r)
  {
    hide Attempted, Sent, Capped, Swept, TargetsDue, NextDelay, FailRetryDelay, Put;
    if e.act.i < |s.spawned| { WaitingRemove(s.spawned, r, e.act.i); }
  }

  lemma GonePaidStep(s: State, e: Event, r: Id)
    requires e.act.Paid? && r !in s.reg.vals
    ensures UsesUp(s, e, r)
  {
    var reg := Marked(s.reg, e.act.rhash, e.now);
    if e.act.rhash in reg.vals {
      WaitingSnoc(s.spawned, Job(TargetOf(e.act.rhash, reg.vals[e.act.rhash]), 0), r);
    }
  }

  lemma GoneLoopStep(s: State, e: Event, r: Id)
    requires (e.act.Tick? || e.act.NextQueued?) && r !in s.reg.vals
    ensures UsesUp(s, e, r)
  {
    if e.act.Tick? { TickSkipsGone(s.reg, e.act.sweptAt, e.act.againAt, e.now, r); }
    hide Attempted, Sent, Capped, Swept, TargetsDue, NextDelay, FailRetryDelay, Put;
  }

  lemma GoneOtherStep(s: State, e: Event, r: Id)
    requires r !in s.reg.vals
    requires !e.act.Paid? && !e.act.Begin? && !e.act.CancelSpawned? && !e.act.Tick? && !e.act.NextQueued?
    ensures UsesUp(s, e, r)
  {
    hide Attempted, Sent, Capped, Swept, TargetsDue, NextDelay, FailRetryDelay, Put;
    var s' := Next(s, e);
    assert e.act.Restart? || (s'.spawned == s.spawned && s'.queue == s.queue && s'.next == s.next);
  }

  /** While a receipt is gone, no step adds a publish of it. */
  lemma GoneStep(s: State, e: Event, r: Id)
    requires r !in s.reg.vals
    ensures UsesUp(s, e, r)
  {
    hide UsesUp;
    match e.act
    case Paid(_) => GonePaidStep(s, e, r);
    case Begin(_) => GoneSpawnedStep(s, e, r);
    case CancelSpawned(_) => GoneSpawnedStep(s, e, r);
    case Tick(_, _) => GoneLoopStep(s, e, r);
    case NextQueued => GoneLoopStep(s, e, r);
    case _ => GoneOtherStep(s, e, r);
  }

  /** Once a receipt has left the registry, by its seventh send or by abandonment, it stays
      out, and at most the deliveries that were already waiting are still published. */
  lemma {:induction false} GoneForGood(s: State, evs: seq<Event>, r: Id)
    requires r !in s.reg.vals && NotIssued(evs, r)
    ensures r !in Run(s, evs).reg.vals
    ensures PublishCount(s, evs, r) + Outstanding(Run(s, evs), r) <= Outstanding(s, r)
  {
    if evs != [] {
      var init, last := evs[..|evs| - 1], evs[|evs| - 1];
      GoneForGood(s, init, r);
      assert NotIssued([last], r);
      GoneFromRegistry(Run(s, init), last, r);
      GoneStep(Run(s, init), last, r);
    }
  }

  /** The seventh recorded send completes the receipt: it leaves the registry, and the
      runtime owes at most the publishes it had already lined up. */
  lemma SeventhSendCompletes(s: State, i: nat, now: real, evs: seq<Event>)
    requires i < |s.inflight| && s.inflight[i].target.rhash in s.reg.vals
    requires s.reg.vals[s.inflight[i].target.rhash].sends == |RESEND_OFFSETS_SEC|
    requires NotIssued(evs, s.inflight[i].target.rhash)
    ensures var r, s' := s.inflight[i].target.rhash, Next(s, Event(Accepted(i), now));
      r !in s'.reg.vals && s'.guard == s.guard && s'.tails == s.tails &&
      r !in Run(s', evs).reg.vals && PublishCount(s', evs, r) <= Outstanding(s, r)
  {
    GoneForGood(Next(s, Event(Accepted(i), now)), evs, s.inflight[i].target.rhash);
  }

  // ---- publishes are not bounded by the schedule -----------------------------------

  /** `n` settlement signals for one invoice, each begun as it arrives. */
  function Signals(r: Id, n: nat, now: real): seq<Event> {
    if n == 0 then [] else Signals(r, n - 1, now) + [Event(Paid(r), now), Event(Begin(0), now)]
  }

  /** The stored schedule bounds recorded sends, not publishes: wherever a remembered
      invoice has nothing spawned, `n` repeated settlement signals start `n` publishes,
      because `mark_due` hands the target out on every signal. */
  lemma {:induction false} PublishesExceedSchedule(s: State, r: Id, n: nat, now: real)
    requires r in s.reg.vals && s.manager && s.spawned == []
    ensures PublishCount(s, Signals(r, n, now), r) == n
    ensures var s' := Run(s, Signals(r, n, now)); r in s'.reg.vals && s'.manager && s'.spawned == []
  {
    hide Next, Publishes, Run, PublishCount, Signals;
    SignalsUnfold(s, r, n, now);
    if n == 0 { return; }
    PublishesExceedSchedule(s, r, n - 1, now);
    var init := Signals(r, n - 1, now);
    RunTwo(s, init, Event(Paid(r), now), Event(Begin(0), now), r);
    OneSignal(Run(s, init), r, now);
  }

  lemma SignalsUnfold(s: State, r: Id, n: nat, now: real)
    ensures n == 0 ==> Signals(r, n, now) == [] && Run(s, []) == s && PublishCount(s, [], r) == 0
    ensures n > 0 ==> Signals(r, n, now) == Signals(r, n - 1, now) + [Event(Paid(r), now), Event(Begin(0), now)]
  {
  }

  lemma RunTwo(s: State, evs: seq<Event>, a: Event, b: Event, r: Id)
    ensures Run(s, evs + [a, b]) == Next(Next(Run(s, evs), a), b)
    ensures PublishCount(s, evs + [a, b], r) == PublishCount(s, evs, r)
      + (if Publishes(Run(s, evs), a, r) then 1 else 0)
      + (if Publishes(Next(Run(s, evs), a), b, r) then 1 else 0)
  {
    hide Next, Publishes;
    assert (evs + [a, b])[..|evs| + 1] == evs + [a];
    assert (evs + [a])[..|evs|] == evs;
  }

  lemma OneSignal(s: State, r: Id, now: real)
    requires r in s.reg.vals && s.manager && s.spawned == []
    ensures var pay, begin := Event(Paid(r), now), Event(Begin(0), now);
      var s1 := Next(s, pay);
      var s2 := Next(s1, begin);
      !Publishes(s, pay, r) && Publishes(s1, begin, r) &&
      r in s2.reg.vals && s2.manager && s2.spawned == []
  {
    var s1 := Next(s, Event(Paid(r), now));
    assert s1.spawned == [Job(TargetOf(r, s1.reg.vals[r]), 0)];
    assert RemoveAt(s1.spawned, 0) == [];
  }

  // ---- the runtime object --------------------------------------------------------------

  /** The delivery side of `ClinkServer`: each method is one piece of a coroutine between
      two awaits, acting on the registry object in place. */
  class ReceiptRuntime {
    const receipts: ReceiptRegistry
    var guard: set<Id>
    var tails: seq<Tail>
    var spawned: seq<Job>
    var inflight: seq<Job>
    var queue: seq<Target>
    var next: nat
    var taskgroup: bool
    var manager: bool

    constructor (receipts: ReceiptRegistry)
      ensures this.receipts == receipts && View() == INIT.(reg := receipts.entries)
    {
      this.receipts := receipts;
      guard, tails, spawned, inflight, queue, next := {}, [], [], [], [], 0;
      taskgroup, manager := false, false;
    }

    function View(): State
      reads this, receipts
    {
      State(receipts.entries, guard, tails, spawned, inflight, queue, next, taskgroup, manager)
    }

    method ScheduleRebroadcast(target: Target, delay: real, streak: nat, now: real)
      modifies this
      ensures View() == Schedule(old(View()), target, delay, streak, now)
    {
      if !taskgroup || target.rhash in guard {
        return;
      }
      guard := guard + {target.rhash};
      tails := tails + [Tail(target, now + delay, streak)];
    }

    method BeginDelivery(job: Job, now: real)
      requires receipts.Valid()
      modifies this, receipts
      ensures receipts.Valid() && View() == Deliver(old(View()), job, now)
    {
      receipts.RecordAttempt(job.target.rhash, now);
      if !manager {
        return;
      }
      inflight := inflight + [job];
    }

    method OnRequestPaid(rhash: Id, now: real)
      requires receipts.Valid()
      modifies this, receipts
      ensures receipts.Valid() && View() == Next(old(View()), Event(Paid(rhash), now))
    {
      var target := receipts.MarkDue(rhash, now);
      if target.Some? {
        spawned := spawned + [Job(target.value, 0)];
      }
    }

    method OnPublished(i: nat, now: real)
      requires receipts.Valid() && i < |inflight|
      modifies this, receipts
      ensures receipts.Valid() && View() == Next(old(View()), Event(Accepted(i), now))
    {
      var job := inflight[i];
      inflight := RemoveAt(inflight, i);
      var nextDelay := receipts.RecordSend(job.target.rhash, now);
      if nextDelay.Some? {
        ScheduleRebroadcast(job.target.(sends := job.target.sends + 1), nextDelay.value, 0, now);
      }
    }

    method OnPublishFailed(i: nat, now: real)
      requires receipts.Valid() && i < |inflight|
      modifies this
      ensures receipts.Valid() && View() == Next(old(View()), Event(Failed(i), now))
    {
      var job := inflight[i];
      inflight := RemoveAt(inflight, i);
      var retryDelay := FailRetryDelay(receipts.entries, job.target.rhash, job.streak + 1, now);
      if retryDelay.Some? {
        ScheduleRebroadcast(job.target, retryDelay.value, job.streak + 1, now);
      }
    }

    method OnTailAwake(i: nat, now: real)
      requires receipts.Valid() && i < |tails| && tails[i].wakeAt <= now
      modifies this, receipts
      ensures receipts.Valid() && View() == Next(old(View()), Event(Wake(i), now))
    {
      var tail := tails[i];
      tails := RemoveAt(tails, i);
      guard := guard - {tail.target.rhash};
      if !Owed(receipts.entries, tail.target.rhash) {
        return;
      }
      BeginDelivery(Job(tail.target, tail.streak), now);
    }

    /** The tick up to its first delivery; returns the hashes to garbage-collect. */
    method RedeliverTick(sweptAt: real, againAt: real, now: real) returns (stale: seq<Id>)
      requires receipts.Valid()
      modifies this, receipts
      ensures receipts.Valid() && View() == Next(old(View()), Event(Tick(sweptAt, againAt), now))
      ensures stale == Filter(old(receipts.entries).keys, ExpiredSet(old(receipts.entries), sweptAt))
    {
      stale := receipts.Sweep(sweptAt);
      queue := receipts.DueTargets(againAt, now);
      next := 0;
    }

    method DeliverNextQueued(now: real)
      requires receipts.Valid() && next < |queue|
      modifies this, receipts
      ensures receipts.Valid() && View() == Next(old(View()), Event(NextQueued, now))
    {
      var target := queue[next];
      next := next + 1;
      BeginDelivery(Job(target, 0), now);
    }
  }
}
