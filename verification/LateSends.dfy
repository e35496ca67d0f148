/** How often the receipt of one invoice reaches its relay: the publishes that are accepted,
    which are the recorded sends while the registry holds the receipt, and afterwards exactly
    the deliveries that were lined up when it left. */
module LateSends {
  import opened PyDict
  import opened Receipts
  import opened Delivery
  import R = ReceiptRuns

  /** Whether the step is an accepted publish of the receipt of `r`. */
  predicate Accepts(s: State, e: Event, r: Id) {
    e.act.Accepted? && e.act.i < |s.inflight| && s.inflight[e.act.i].target.rhash == r
  }

  function AcceptCount(s: State, evs: seq<Event>, r: Id): nat {
    if evs == [] then 0
    else
      var init, last := evs[..|evs| - 1], evs[|evs| - 1];
      AcceptCount(s, init, r) + if Accepts(Run(s, init), last, r) then 1 else 0
  }

  /** The deliveries of `r` lined up: awaiting their publish, spawned, or left in the tick's list. */
  function LinedUp(s: State, r: Id): nat {
    Waiting(s.inflight, r) + Outstanding(s, r)
  }

  // ---- while the registry holds the receipt -----------------------------------------------

  lemma {:induction false} AcceptsAreSends(s: State, evs: seq<Event>, r: Id)
    ensures AcceptCount(s, evs, r) == R.SendsOf(RegTrace(s, evs), r)
  {
    hide Next;
    if evs != [] {
      var init, last := evs[..|evs| - 1], evs[|evs| - 1];
      AcceptsAreSends(s, init, r);
      var t := RegTrace(s, evs);
      assert t[..|t| - 1] == RegTrace(s, init);
    }
  }

  lemma {:induction false} TraceLeavesAlone(s: State, evs: seq<Event>, r: Id)
    requires NotIssued(evs, r)
    ensures R.LeavesAlone(RegTrace(s, evs), r)
  {
    hide Next, RegOp;
    if evs != [] {
      var init, last := evs[..|evs| - 1], evs[|evs| - 1];
      TraceLeavesAlone(s, init, r);
      assert NotIssued([last], r);
      OnlyIssueRemembers(Run(s, init), last, r);
    }
  }

  /** As long as a due receipt is in the registry, its accepted publishes are the sends counted
      there, six at most. */
  lemma SendsCounted(s: State, evs: seq<Event>, r: Id)
    requires Owed(s.reg, r) && s.reg.vals[r].sends <= |RESEND_OFFSETS_SEC| && NotIssued(evs, r)
    requires r in Run(s, evs).reg.vals
    ensures Run(s, evs).reg.vals[r].sends == s.reg.vals[r].sends + AcceptCount(s, evs, r) <= |RESEND_OFFSETS_SEC|
  {
    hide Run, RegTrace, AcceptCount;
    RuntimeRefinesRegistry(s, evs);
    AcceptsAreSends(s, evs, r);
    TraceLeavesAlone(s, evs, r);
    R.OwedExactlyUntil(s.reg, RegTrace(s, evs), r);
  }

  // ---- after it has left ---------------------------------------------------------------------

  /** A step takes from the publishes in flight what it accepts, and adds what it begins. */
  ghost predicate InflightBalance(s: State, e: Event, r: Id) {
    Waiting(Next(s, e).inflight, r) + (if Accepts(s, e, r) then 1 else 0) <=
      Waiting(s.inflight, r) + (if Publishes(s, e, r) then 1 else 0)
  }

  lemma CompletionBalance(s: State, e: Event, r: Id)
    requires e.act.Accepted? || e.act.Failed? || e.act.CancelInflight?
    ensures InflightBalance(s, e, r)
  {
    hide Attempted, Sent, Capped, Swept, TargetsDue, NextDelay, FailRetryDelay, Put, Waiting, RemoveAt, Marked;
    if e.act.i < |s.inflight| { WaitingRemove(s.inflight, r, e.act.i); }
  }

  lemma BeginBalance(s: State, e: Event, r: Id)
    requires e.act.Begin? || e.act.NextQueued?
    ensures InflightBalance(s, e, r)
  {
    hide Attempted, Sent, Capped, Swept, TargetsDue, NextDelay, FailRetryDelay, Put;
    if e.act.Begin? && e.act.i < |s.spawned| {
      WaitingSnoc(s.inflight, s.spawned[e.act.i], r);
    }
    if e.act.NextQueued? && s.next < |s.queue| {
      WaitingSnoc(s.inflight, Job(s.queue[s.next], 0), r);
    }
  }

  lemma WakeBalance(s: State, e: Event, r: Id)
    requires e.act.Wake?
    ensures InflightBalance(s, e, r)
  {
    hide Attempted, Sent, Capped, Swept, TargetsDue, NextDelay, FailRetryDelay, Put;
    if e.act.i < |s.tails| {
      WaitingSnoc(s.inflight, Job(s.tails[e.act.i].target, s.tails[e.act.i].streak), r);
    }
  }

  lemma StepBalance(s: State, e: Event, r: Id)
    ensures InflightBalance(s, e, r)
  {
    match e.act
    case Accepted(_) => CompletionBalance(s, e, r);
    case Failed(_) => CompletionBalance(s, e, r);
    case CancelInflight(_) => CompletionBalance(s, e, r);
    case Begin(_) => BeginBalance(s, e, r);
    case NextQueued => BeginBalance(s, e, r);
    case Wake(_) => WakeBalance(s, e, r);
    case _ =>
      hide Attempted, Sent, Capped, Swept, TargetsDue, NextDelay, FailRetryDelay, Put;
      assert e.act.Restart? || Next(s, e).inflight == s.inflight;
  }

  /** Once a receipt has left the registry, no run makes more accepted publishes of it than were
      lined up. */
  lemma {:induction false} AtMostLinedUp(s: State, evs: seq<Event>, r: Id)
    requires r !in s.reg.vals && NotIssued(evs, r)
    ensures AcceptCount(s, evs, r) + LinedUp(Run(s, evs), r) <= LinedUp(s, r)
  {
    hide Next, Publishes, Outstanding, Accepts;
    if evs != [] {
      var init, last := evs[..|evs| - 1], evs[|evs| - 1];
      AtMostLinedUp(s, init, r);
      GoneForGood(s, init, r);
      GoneStep(Run(s, init), last, r);
      StepBalance(Run(s, init), last, r);
    }
  }

  // ---- and some run makes them all -------------------------------------------------------------

  lemma {:induction false} FindJob(jobs: seq<Job>, r: Id) returns (i: nat)
    requires Waiting(jobs, r) > 0
    ensures i < |jobs| && jobs[i].target.rhash == r
  {
    if jobs[|jobs| - 1].target.rhash == r {
      i := |jobs| - 1;
    } else {
      i := FindJob(jobs[..|jobs| - 1], r);
    }
  }

  /** What is left to do, in the order in which `Move` does it. */
  ghost predicate Closer(s: State, s': State, r: Id) {
    Outstanding(s', r) < Outstanding(s, r) ||
    (Outstanding(s', r) == Outstanding(s, r) && (Waiting(s'.inflight, r) < Waiting(s.inflight, r) ||
      (Waiting(s'.inflight, r) == Waiting(s.inflight, r) && (Left(s') < Left(s)))))
  }

  /** How far the tick's loop and the session are from where they let deliveries through. */
  function Left(s: State): nat {
    (if s.next < |s.queue| then |s.queue| - s.next else 0) + (if s.manager then 0 else 1)
  }

  ghost predicate GoodMove(s: State, e: Event, r: Id) {
    !e.act.Issue? && r !in Next(s, e).reg.vals && Closer(s, Next(s, e), r) &&
    LinedUp(Next(s, e), r) + (if Accepts(s, e, r) then 1 else 0) == LinedUp(s, r)
  }

  lemma AcceptMove(s: State, r: Id, t: real) returns (e: Event)
    requires r !in s.reg.vals && Waiting(s.inflight, r) > 0
    ensures GoodMove(s, e, r) && e.now == t
  {
    var i := FindJob(s.inflight, r);
    e := Event(Accepted(i), t);
    GoneCompletion(s, e);
    WaitingRemove(s.inflight, r, i);
    hide Next;
  }

  lemma SessionMove(s: State, r: Id, t: real) returns (e: Event)
    requires r !in s.reg.vals && !s.manager
    ensures GoodMove(s, e, r) && e.now == t
  {
    e := Event(Session(s.taskgroup, true), t);
  }

  lemma BeginMove(s: State, r: Id, t: real) returns (e: Event)
    requires r !in s.reg.vals && s.manager && Waiting(s.spawned, r) > 0
    ensures GoodMove(s, e, r) && e.now == t
  {
    var i := FindJob(s.spawned, r);
    e := Event(Begin(i), t);
    WaitingRemove(s.spawned, r, i);
    WaitingSnoc(s.inflight, s.spawned[i], r);
    assert Attempted(s.reg, r, t) == s.reg;
    hide Attempted, Waiting, Queued;
  }

  lemma QueueMove(s: State, r: Id, t: real) returns (e: Event)
    requires r !in s.reg.vals && s.manager && s.next < |s.queue|
    ensures GoodMove(s, e, r) && e.now == t
  {
    hide Waiting, Queued, Attempted;
    e := Event(NextQueued, t);
    WaitingSnoc(s.inflight, Job(s.queue[s.next], 0), r);
    AttemptedKeeps(s.reg, s.queue[s.next].rhash, r, t);
    QueuedHead(s.queue, s.next, r);
  }

  lemma AttemptedKeeps(reg: Entries, x: Id, r: Id, t: real)
    requires r !in reg.vals
    ensures r !in Attempted(reg, x, t).vals
  {
  }

  lemma QueuedHead(queue: seq<Target>, next: nat, r: Id)
    requires next < |queue|
    ensures Queued(queue, next, r) == (if queue[next].rhash == r then 1 else 0) + Queued(queue, next + 1, r)
  {
  }

  lemma Move(s: State, r: Id, t: real) returns (e: Event)
    requires r !in s.reg.vals && LinedUp(s, r) > 0
    ensures GoodMove(s, e, r) && e.now == t
  {
    if Waiting(s.inflight, r) > 0 {
      e := AcceptMove(s, r, t);
    } else if !s.manager {
      e := SessionMove(s, r, t);
    } else if Waiting(s.spawned, r) > 0 {
      e := BeginMove(s, r, t);
    } else {
      e := QueueMove(s, r, t);
    }
  }

  lemma {:induction false} FirstStep(s: State, e: Event, rest: seq<Event>, r: Id)
    ensures Run(s, [e] + rest) == Run(Next(s, e), rest)
    ensures AcceptCount(s, [e] + rest, r) == (if Accepts(s, e, r) then 1 else 0) + AcceptCount(Next(s, e), rest, r)
  {
    hide Next, Accepts;
    var all := [e] + rest;
    if rest == [] {
      assert all == [e] && all[..0] == [];
    } else {
      assert all[..|all| - 1] == [e] + rest[..|rest| - 1];
      FirstStep(s, e, rest[..|rest| - 1], r);
    }
  }

  /** Every delivery that was lined up when the receipt left may still reach the relay, at any
      time `t`. */
  lemma AllLinedUpHappen(s: State, r: Id, t: real) returns (evs: seq<Event>)
    requires r !in s.reg.vals
    ensures forall i :: 0 <= i < |evs| ==> evs[i].now == t
    ensures NotIssued(evs, r) && AcceptCount(s, evs, r) == LinedUp(s, r)
    decreases Outstanding(s, r), Waiting(s.inflight, r), Left(s)
  {
    if LinedUp(s, r) == 0 { return []; }
    hide Next, Accepts, Outstanding, Waiting, Left;
    var e := Move(s, r, t);
    var rest := AllLinedUpHappen(Next(s, e), r, t);
    FirstStep(s, e, rest, r);
    evs := [e] + rest;
  }

  /** Nothing that happens without a new invoice sends the receipt of `r` again. */
  ghost predicate NeverSentAgain(s: State, r: Id) {
    forall evs: seq<Event> :: NotIssued(evs, r) ==> AcceptCount(s, evs, r) == 0
  }

  /** When the seventh send is recorded the receipt is done, exactly if that was the only delivery
      of it lined up. */
  lemma SeventhSendIsLast(s: State, i: nat, now: real)
    requires i < |s.inflight| && s.inflight[i].target.rhash in s.reg.vals
    requires s.reg.vals[s.inflight[i].target.rhash].sends == |RESEND_OFFSETS_SEC|
    ensures var r, s' := s.inflight[i].target.rhash, Next(s, Event(Accepted(i), now));
      (NeverSentAgain(s', r) <==> LinedUp(s', r) == 0) &&
      LinedUp(s, r) == LinedUp(s', r) + 1
  {
    var r, s' := s.inflight[i].target.rhash, Next(s, Event(Accepted(i), now));
    WaitingRemove(s.inflight, r, i);
    assert r !in s'.reg.vals && LinedUp(s, r) == LinedUp(s', r) + 1;
    hide Next, LinedUp;
    var evs := AllLinedUpHappen(s', r, now);
    forall more: seq<Event> | NotIssued(more, r) ensures AcceptCount(s', more, r) <= LinedUp(s', r) {
      AtMostLinedUp(s', more, r);
    }
  }

  lemma {:induction false} CountSplit(s: State, a: seq<Event>, b: seq<Event>, r: Id)
    ensures Run(s, a + b) == Run(Run(s, a), b)
    ensures AcceptCount(s, a + b, r) == AcceptCount(s, a, r) + AcceptCount(Run(s, a), b, r)
  {
    hide Next, Accepts;
    if b == [] {
      assert a + b == a;
    } else {
      assert (a + b)[..|a + b| - 1] == a + b[..|b| - 1];
      CountSplit(s, a, b[..|b| - 1], r);
    }
  }

  /** From the payment on, a receipt whose seventh send is recorded is sent seven times, and once
      more for each delivery that was then lined up and gets through: at most so often in any
      continuation, and just so often in some. */
  lemma SendsInAll(s: State, before: seq<Event>, i: nat, now: real, r: Id) returns (most: seq<Event>)
    requires Owed(s.reg, r) && s.reg.vals[r].sends == 0 && NotIssued(before, r)
    requires var m := Run(s, before);
      i < |m.inflight| && m.inflight[i].target.rhash == r &&
      r in m.reg.vals && m.reg.vals[r].sends == |RESEND_OFFSETS_SEC|
    ensures var seventh := before + [Event(Accepted(i), now)];
      AcceptCount(s, seventh, r) == 7 &&
      (forall more: seq<Event> :: NotIssued(more, r) ==>
        AcceptCount(s, seventh + more, r) <= 7 + LinedUp(Run(s, seventh), r)) &&
      (forall j :: 0 <= j < |most| ==> most[j].now == now) &&
      NotIssued(most, r) && AcceptCount(s, seventh + most, r) == 7 + LinedUp(Run(s, seventh), r)
  {
    hide Run, Next, AcceptCount, LinedUp, NotIssued, Owed;
    var m, e := Run(s, before), Event(Accepted(i), now);
    var seventh := before + [e];
    SendsCounted(s, before, r);
    OneMore(s, before, e, r);
    SeventhLeaves(m, i, now);
    most := AllLinedUpHappen(Run(s, seventh), r, now);
    CountSplit(s, seventh, most, r);
    forall more: seq<Event> | NotIssued(more, r)
      ensures AcceptCount(s, seventh + more, r) <= 7 + LinedUp(Run(s, seventh), r)
    {
      CountSplit(s, seventh, more, r);
      AtMostLinedUp(Run(s, seventh), more, r);
    }
  }

  lemma OneMore(s: State, before: seq<Event>, e: Event, r: Id)
    ensures Run(s, before + [e]) == Next(Run(s, before), e)
    ensures AcceptCount(s, before + [e], r) ==
      AcceptCount(s, before, r) + if Accepts(Run(s, before), e, r) then 1 else 0
  {
    hide Next, Accepts;
    assert (before + [e])[..|before|] == before;
  }

  lemma SeventhLeaves(s: State, i: nat, now: real)
    requires i < |s.inflight| && s.inflight[i].target.rhash in s.reg.vals
    requires s.reg.vals[s.inflight[i].target.rhash].sends == |RESEND_OFFSETS_SEC|
    ensures s.inflight[i].target.rhash !in Next(s, Event(Accepted(i), now)).reg.vals
  {
  }

  // ---- seven is not a bound -------------------------------------------------------------------

  lemma SignalInflight(s: State, r: Id, now: real)
    requires r in s.reg.vals && s.manager && s.spawned == []
    ensures var s1 := Next(s, Event(Paid(r), now));
      var s2 := Next(s1, Event(Begin(0), now));
      Waiting(s2.inflight, r) == Waiting(s.inflight, r) + 1 &&
      r in s2.reg.vals && s2.manager && s2.spawned == []
  {
    var job := Job(TargetOf(r, Marked(s.reg, r, now).vals[r]), 0);
    assert Next(s, Event(Paid(r), now)).spawned == [job];
    assert RemoveAt([job], 0) == [];
    WaitingSnoc(s.inflight, job, r);
  }

  /** Each signal puts one more publish in flight. */
  lemma {:induction false} SignalsPileUp(s: State, r: Id, n: nat, now: real)
    requires r in s.reg.vals && s.manager && s.spawned == []
    ensures var s' := Run(s, Signals(r, n, now));
      Waiting(s'.inflight, r) == Waiting(s.inflight, r) + n && r in s'.reg.vals && s'.manager && s'.spawned == []
    ensures NotIssued(Signals(r, n, now), r) && AcceptCount(s, Signals(r, n, now), r) == 0
  {
    hide Next, Run, AcceptCount, Signals, Waiting;
    SignalsUnfold(s, r, n, now);
    if n == 0 {
      NothingYet(s, r);
      return;
    }
    SignalsPileUp(s, r, n - 1, now);
    var init, a, b := Signals(r, n - 1, now), Event(Paid(r), now), Event(Begin(0), now);
    OneMore(s, init, a, r);
    OneMore(s, init + [a], b, r);
    assert init + [a, b] == init + [a] + [b];
    SignalInflight(Run(s, init), r, now);
  }

  lemma NothingYet(s: State, r: Id)
    ensures Run(s, []) == s && AcceptCount(s, [], r) == 0
  {
  }

  /** Whatever is in flight may be accepted. */
  lemma InflightAccepted(s: State, r: Id, t: real) returns (evs: seq<Event>)
    ensures NotIssued(evs, r) && AcceptCount(s, evs, r) == Waiting(s.inflight, r)
    decreases Waiting(s.inflight, r)
  {
    hide Run, Next, AcceptCount, Waiting;
    if Waiting(s.inflight, r) == 0 {
      NothingYet(s, r);
      return [];
    }
    var i := FindJob(s.inflight, r);
    AcceptedLeaves(s, i, r, t);
    var e := Event(Accepted(i), t);
    var rest := InflightAccepted(Next(s, e), r, t);
    FirstStep(s, e, rest, r);
    evs := [e] + rest;
  }

  lemma AcceptedLeaves(s: State, i: nat, r: Id, t: real)
    requires i < |s.inflight| && s.inflight[i].target.rhash == r
    ensures Waiting(Next(s, Event(Accepted(i), t)).inflight, r) + 1 == Waiting(s.inflight, r)
  {
    hide Attempted, Sent, Capped, Swept, TargetsDue, NextDelay, FailRetryDelay, Put, Waiting, RemoveAt, Marked;
    WaitingRemove(s.inflight, r, i);
  }

  /** The first invoice of a session, remembered. */
  function Opening(r: Id): seq<Event> {
    [Event(Issue(r, 0, 0, 3600.0), 0.0), Event(Session(true, true), 0.0)]
  }

  lemma Opened(r: Id)
    ensures var s := Run(INIT, Opening(r));
      r in s.reg.vals && s.manager && s.spawned == [] && s.inflight == [] && AcceptCount(INIT, Opening(r), r) == 0
  {
    hide Capped, Evicted, Next;
    var a, b := Opening(r)[0], Opening(r)[1];
    assert Opening(r) == [] + [a] + [b];
    NothingYet(INIT, r);
    OneMore(INIT, [], a, r);
    OneMore(INIT, [] + [a], b, r);
    FirstIssue(r);
  }

  lemma FirstIssue(r: Id)
    ensures var s1 := Next(INIT, Opening(r)[0]);
      var s := Next(s1, Opening(r)[1]);
      r in s.reg.vals && s.manager && s.spawned == [] && s.inflight == [] && s1.inflight == []
  {
    hide Capped, Evicted, Valid;
    var d := Put(INIT.reg, r, Awaiting(0, 0, 3600.0));
    EmptyValid();
    PutValid(INIT.reg, r, Awaiting(0, 0, 3600.0));
    R.CapBoundsSize(d);
  }

  lemma EmptyValid()
    ensures Valid(INIT.reg)
  {
  }

  /** However often the wallet reports the payment of one invoice, so often its receipt may be
      sent: there is a run from the start that issues one invoice and sends its receipt `n`
      times, seven or not. */
  lemma AnyNumberOfSends(r: Id, n: nat) returns (evs: seq<Event>)
    ensures NotIssued(evs, r) && AcceptCount(INIT, Opening(r) + evs, r) == n
  {
    hide Run, Next, AcceptCount, Opening, Signals;
    var s := Run(INIT, Opening(r));
    Opened(r);
    SignalsPileUp(s, r, n, 1.0);
    var accepts := InflightAccepted(Run(s, Signals(r, n, 1.0)), r, 1.0);
    CountSplit(s, Signals(r, n, 1.0), accepts, r);
    evs := Signals(r, n, 1.0) + accepts;
    CountSplit(INIT, Opening(r), evs, r);
  }
}
