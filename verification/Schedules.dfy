/** When a receipt is sent: what each piece of the runtime schedules, and the five minutes of sends
    that one settlement sets off. */
module Schedules {
  import opened Wrappers
  import opened PyDict
  import opened Receipts
  import opened Delivery
  import opened LateSends
  import R = ReceiptRuns

  // ---- one step ------------------------------------------------------------------------

  /** The seconds from the first accepted send to the one after `k` sends. */
  function Offset(k: nat): real
    requires 1 <= k <= 6
  {
    if k == 1 then 10.0 else if k == 2 then 15.0 else if k == 3 then 30.0
    else if k == 4 then 60.0 else if k == 5 then 120.0 else 300.0
  }

  /** The first accepted send, if the one at `now` is accepted. */
  function FirstSend(e: Entry, now: real): real {
    if e.sends > 0 && e.firstSend.Some? then e.firstSend.value else now
  }

  /** An accepted publish of a receipt with fewer than six sends puts exactly one tail to sleep, for
      that receipt and its addressee, until the next offset after the first send, or for no time
      when that has passed. */
  lemma AcceptedSchedulesNext(s: State, i: nat, now: real)
    requires i < |s.inflight| && s.inflight[i].target.rhash in s.reg.vals && R.WellFormed(s.reg)
    requires s.reg.vals[s.inflight[i].target.rhash].sends < 6
    requires s.taskgroup && s.inflight[i].target.rhash !in s.guard
    ensures var target, s' := s.inflight[i].target, Next(s, Event(Accepted(i), now));
      var r := target.rhash;
      var before := s.reg.vals[r];
      |s'.tails| == |s.tails| + 1 && s'.tails[..|s.tails|] == s.tails && s'.guard == s.guard + {r} &&
      r in s'.reg.vals && s'.reg.vals[r].sends == before.sends + 1 &&
      s'.reg.vals[r].firstSend == Some(FirstSend(before, now)) &&
      (var tail := s'.tails[|s.tails|];
       tail.target.rhash == r && tail.target.payer == target.payer && tail.target.req == target.req &&
       tail.streak == 0 && tail.wakeAt == Max(now, FirstSend(before, now) + Offset(before.sends + 1)))
  {
  }

  /** The failures in a row, with this one, and the seconds until the retry. */
  function RetryAfter(failures: nat): real {
    if failures <= 1 then 5.0 else if failures == 2 then 10.0 else if failures == 3 then 20.0
    else if failures == 4 then 40.0 else 80.0
  }

  /** A failed publish of an owed receipt puts one retry to sleep, up to ten minutes after the first
      send, or after the payment when nothing has been sent; later it schedules nothing. */
  lemma FailedSchedulesRetry(s: State, i: nat, now: real)
    requires i < |s.inflight| && Owed(s.reg, s.inflight[i].target.rhash) && R.WellFormed(s.reg)
    requires s.taskgroup && s.inflight[i].target.rhash !in s.guard
    ensures var job, s' := s.inflight[i], Next(s, Event(Failed(i), now));
      var r := job.target.rhash;
      var entry := s.reg.vals[r];
      var from := if entry.sends > 0 then FirstSend(entry, now) else entry.dueSince;
      s'.reg == s.reg && s'.inflight == RemoveAt(s.inflight, i) &&
      if now < from + 600.0
      then s'.tails == s.tails + [Tail(job.target, now + RetryAfter(job.streak + 1), job.streak + 1)] &&
           s'.guard == s.guard + {r}
      else s'.tails == s.tails && s'.guard == s.guard
  {
  }

  /** A tail whose sleep is over starts the publish of its receipt if that is still owed, and is gone
      either way. */
  lemma WokenTailPublishes(s: State, i: nat, now: real)
    requires i < |s.tails| && s.tails[i].wakeAt <= now && s.manager
    ensures var tail, s' := s.tails[i], Next(s, Event(Wake(i), now));
      s'.tails == RemoveAt(s.tails, i) && s'.guard == s.guard - {tail.target.rhash} &&
      s'.inflight == s.inflight + if Owed(s.reg, tail.target.rhash) then [Job(tail.target, tail.streak)] else []
  {
  }

  /** A settlement signal for a remembered invoice marks it due and spawns one delivery of it. */
  lemma SignalSpawns(s: State, r: Id, now: real)
    ensures var s' := Next(s, Event(Paid(r), now));
      if r in s.reg.vals then
        r in s'.reg.vals && s'.reg.vals[r].due &&
        s'.reg.vals[r].dueSince == (if s.reg.vals[r].due then s.reg.vals[r].dueSince else now) &&
        |s'.spawned| == |s.spawned| + 1 && s'.spawned[..|s.spawned|] == s.spawned &&
        s'.spawned[|s.spawned|].target.rhash == r && s'.spawned[|s.spawned|].streak == 0
      else s' == s
  {
  }

  /** A spawned delivery stamps its attempt and, while there is a manager, starts its publish. */
  lemma BegunPublishes(s: State, i: nat, now: real)
    requires i < |s.spawned|
    ensures var job, s' := s.spawned[i], Next(s, Event(Begin(i), now));
      s'.spawned == RemoveAt(s.spawned, i) &&
      s'.inflight == s.inflight + (if s.manager then [job] else []) &&
      (job.target.rhash in s.reg.vals ==> (
        job.target.rhash in s'.reg.vals &&
        s'.reg.vals[job.target.rhash].attempts == s.reg.vals[job.target.rhash].attempts + 1 &&
        s'.reg.vals[job.target.rhash].lastAttempt == now))
  {
  }

  /** The loop of the tick attempts its next target, whether or not that is still owed, and starts its
      publish while there is a manager. */
  lemma QueuedPublishes(s: State, now: real)
    requires s.next < |s.queue|
    ensures var target, s' := s.queue[s.next], Next(s, Event(NextQueued, now));
      s'.next == s.next + 1 && s'.queue == s.queue &&
      s'.inflight == s.inflight + (if s.manager then [Job(target, 0)] else []) &&
      (target.rhash in s.reg.vals ==> (
        target.rhash in s'.reg.vals && s'.reg.vals[target.rhash].lastAttempt == now &&
        s'.reg.vals[target.rhash].attempts == s.reg.vals[target.rhash].attempts + 1))
  {
  }

  /** A tick queues exactly the receipts that are owed, not given up and ripe. */
  lemma TickQueuesDue(s: State, sweptAt: real, againAt: real, now: real, r: Id)
    requires Valid(s.reg)
    ensures var s' := Next(s, Event(Tick(sweptAt, againAt), now));
      s'.next == 0 && (R.Listed(s'.queue, r) <==>
        Owed(s.reg, r) && sweptAt < s.reg.vals[r].dueSince + 864000.0 && againAt < s.reg.vals[r].dueSince + 864000.0 &&
        Ripe(s.reg.vals[r], now))
  {
    var left := Swept(s.reg, sweptAt);
    RestrictValid(s.reg, KeptBySweep(s.reg, sweptAt));
    R.TargetsDueExactly(left, againAt, now);
    hide TargetsDue, R.Listed, Valid;
  }

  // ---- five minutes ------------------------------------------------------------------------

  /** The rest of the runtime is as in `base`, and one tail sleeps for `r`, which has been sent `k`
      times, from `first` on. */
  ghost predicate Asleep(s: State, base: State, r: Id, first: real, k: nat) {
    1 <= k <= 6 && Owed(s.reg, r) && s.reg.vals[r].sends == k && s.reg.vals[r].firstSend == Some(first) &&
    |s.tails| == |base.tails| + 1 && s.tails[..|base.tails|] == base.tails && r !in base.guard &&
    s.tails[|base.tails|].target.rhash == r && s.tails[|base.tails|].wakeAt == first + Offset(k) &&
    s.guard == base.guard + {r} && s.inflight == base.inflight && s.spawned == base.spawned && s.taskgroup && s.manager
  }

  lemma RemoveLast<T>(s: seq<T>, x: T)
    ensures RemoveAt(s + [x], |s|) == s
  {
    assert (s + [x])[..|s|] == s;
  }

  /** The tail wakes on time, its publish is accepted, and the next tail sleeps; the seventh send is
      the last. */
  lemma WakeAndSend(s: State, base: State, r: Id, first: real, k: nat)
    requires Asleep(s, base, r, first, k)
    ensures var t := first + Offset(k);
      var s1 := Next(s, Event(Wake(|base.tails|), t));
      var s2 := Next(s1, Event(Accepted(|base.inflight|), t));
      Accepts(s1, Event(Accepted(|base.inflight|), t), r) &&
      if k < 6 then Asleep(s2, base, r, first, k + 1)
      else r !in s2.reg.vals && s2.tails == base.tails && s2.guard == base.guard && s2.inflight == base.inflight
  {
    var t := first + Offset(k);
    var tail := s.tails[|base.tails|];
    assert s.tails == base.tails + [tail];
    RemoveLast(base.tails, tail);
    RemoveLast(base.inflight, Job(tail.target, tail.streak));
    hide RemoveAt;
  }

  /** The settlement signal, and the first publish accepted at once. */
  lemma SettleAndSend(base: State, r: Id, t: real)
    requires r in base.reg.vals && base.reg.vals[r].sends == 0 && base.taskgroup && base.manager && r !in base.guard
    ensures var s1 := Next(base, Event(Paid(r), t));
      var s2 := Next(s1, Event(Begin(|base.spawned|), t));
      var s3 := Next(s2, Event(Accepted(|base.inflight|), t));
      Accepts(s2, Event(Accepted(|base.inflight|), t), r) && Asleep(s3, base, r, t, 1)
  {
    var job := Job(TargetOf(r, Marked(base.reg, r, t).vals[r]), 0);
    RemoveLast(base.spawned, job);
    RemoveLast(base.inflight, job);
    hide RemoveAt;
  }

  /** Waking and sending with `k` sends behind, on time. */
  function SendAgain(base: State, first: real, k: nat): seq<Event>
    requires 1 <= k <= 6
  {
    [Event(Wake(|base.tails|), first + Offset(k)), Event(Accepted(|base.inflight|), first + Offset(k))]
  }

  /** One settlement signal at `t`, then nothing but tails that wake on time and publishes that are
      accepted at once, up to `k` sends. */
  function OnTime(base: State, r: Id, t: real, k: nat): seq<Event>
    requires 1 <= k <= 7
  {
    if k == 1
    then [Event(Paid(r), t), Event(Begin(|base.spawned|), t), Event(Accepted(|base.inflight|), t)]
    else OnTime(base, r, t, k - 1) + SendAgain(base, t, k - 1)
  }

  /** The times of the accepted publishes of `r`. */
  function SendTimes(s: State, evs: seq<Event>, r: Id): seq<real> {
    if evs == [] then []
    else
      var init, last := evs[..|evs| - 1], evs[|evs| - 1];
      SendTimes(s, init, r) + if Accepts(Run(s, init), last, r) then [last.now] else []
  }

  lemma SendTimesSnoc(s: State, evs: seq<Event>, e: Event, r: Id)
    ensures Run(s, evs + [e]) == Next(Run(s, evs), e)
    ensures SendTimes(s, evs + [e], r) == SendTimes(s, evs, r) + if Accepts(Run(s, evs), e, r) then [e.now] else []
  {
    hide Next, Accepts;
    assert (evs + [e])[..|evs|] == evs;
  }

  lemma OnTimeStart(base: State, r: Id, t: real)
    requires r in base.reg.vals && base.reg.vals[r].sends == 0 && base.taskgroup && base.manager && r !in base.guard
    ensures Asleep(Run(base, OnTime(base, r, t, 1)), base, r, t, 1)
    ensures SendTimes(base, OnTime(base, r, t, 1), r) == [t]
  {
    SettleAndSend(base, r, t);
    var a, b, c := Event(Paid(r), t), Event(Begin(|base.spawned|), t), Event(Accepted(|base.inflight|), t);
    assert OnTime(base, r, t, 1) == [] + [a] + [b] + [c];
    hide Next, OnTime, Asleep;
    SendTimesSnoc(base, [], a, r);
    SendTimesSnoc(base, [] + [a], b, r);
    SendTimesSnoc(base, [] + [a] + [b], c, r);
    assert !Accepts(base, a, r) && !Accepts(Next(base, a), b, r);
    assert Run(base, []) == base && SendTimes(base, [], r) == [];
  }

  lemma OnTimeStep(base: State, r: Id, t: real, k: nat)
    requires 1 <= k <= 6 && Asleep(Run(base, OnTime(base, r, t, k)), base, r, t, k)
    ensures var s := Run(base, OnTime(base, r, t, k + 1));
      if k < 6 then Asleep(s, base, r, t, k + 1)
      else r !in s.reg.vals && s.tails == base.tails && s.guard == base.guard && s.inflight == base.inflight
    ensures SendTimes(base, OnTime(base, r, t, k + 1), r) == SendTimes(base, OnTime(base, r, t, k), r) + [t + Offset(k)]
  {
    hide Next, OnTime, Asleep, Offset, Run, SendTimes;
    var init := OnTime(base, r, t, k);
    var a, b := SendAgain(base, t, k)[0], SendAgain(base, t, k)[1];
    WakeAndSend(Run(base, init), base, r, t, k);
    OnTimeUnfold(base, r, t, k);
    SendTimesSnoc(base, init, a, r);
    SendTimesSnoc(base, init + [a], b, r);
    assert !Accepts(Run(base, init), a, r);
  }

  lemma OnTimeUnfold(base: State, r: Id, t: real, k: nat)
    requires 1 <= k <= 6
    ensures OnTime(base, r, t, k + 1) ==
      OnTime(base, r, t, k) + [SendAgain(base, t, k)[0]] + [SendAgain(base, t, k)[1]]
  {
  }

  /** A settlement in a session sets off seven sends, at once and 10, 15, 30, 60, 120 and 300 seconds
      later, and then the receipt is done: nothing of it is left anywhere. */
  lemma FiveMinutesOfSends(base: State, r: Id, t: real)
    requires r in base.reg.vals && base.reg.vals[r].sends == 0 && base.taskgroup && base.manager && r !in base.guard
    ensures var evs := OnTime(base, r, t, 7);
      SendTimes(base, evs, r) == [t, t + 10.0, t + 15.0, t + 30.0, t + 60.0, t + 120.0, t + 300.0] &&
      (var s := Run(base, evs);
       r !in s.reg.vals && s.tails == base.tails && s.guard == base.guard && s.inflight == base.inflight)
  {
    hide Asleep, OnTime, Run, SendTimes;
    OnTimeStart(base, r, t);
    OnTimeStep(base, r, t, 1);
    OnTimeStep(base, r, t, 2);
    OnTimeStep(base, r, t, 3);
    OnTimeStep(base, r, t, 4);
    OnTimeStep(base, r, t, 5);
    OnTimeStep(base, r, t, 6);
  }

  // ---- nothing but failures -------------------------------------------------------------------

  /** The rest of the runtime is as in `base`; `r`, paid at `t` and never sent, has failed `k` times
      in a row, and its retry sleeps until the backoffs since then are over. */
  ghost predicate Retrying(s: State, base: State, r: Id, t: real, k: nat) {
    Owed(s.reg, r) && s.reg.vals[r].sends == 0 && s.reg.vals[r].dueSince == t &&
    |s.tails| == |base.tails| + 1 && s.tails[..|base.tails|] == base.tails && r !in base.guard &&
    s.tails[|base.tails|].target.rhash == r && s.tails[|base.tails|].streak == k &&
    s.tails[|base.tails|].wakeAt == t + R.BackoffSum(k) &&
    s.guard == base.guard + {r} && s.inflight == base.inflight && s.spawned == base.spawned && s.taskgroup && s.manager
  }

  /** Nothing of `r` is left in the runtime, which is as it was, but the receipt is still owed. */
  ghost predicate GivenToTick(s: State, base: State, r: Id) {
    Owed(s.reg, r) && s.tails == base.tails && s.guard == base.guard && s.inflight == base.inflight
  }

  /** The retry wakes on time and fails; it is followed by another up to the eleventh. */
  lemma WakeAndFail(s: State, base: State, r: Id, t: real, k: nat)
    requires Retrying(s, base, r, t, k) && 1 <= k <= 11
    ensures var now := t + R.BackoffSum(k);
      var s1 := Next(s, Event(Wake(|base.tails|), now));
      var s2 := Next(s1, Event(Failed(|base.inflight|), now));
      Publishes(s, Event(Wake(|base.tails|), now), r) &&
      if k < 11 then Retrying(s2, base, r, t, k + 1) else GivenToTick(s2, base, r)
  {
    R.ElevenBackoffs();
    if k < 11 { R.BackoffSumGrows(k, 10); }
    var tail := s.tails[|base.tails|];
    assert s.tails == base.tails + [tail];
    RemoveLast(base.tails, tail);
    RemoveLast(base.inflight, Job(tail.target, tail.streak));
    assert R.BackoffSum(k + 1) == R.BackoffSum(k) + Backoff(k + 1);
    hide RemoveAt, R.BackoffSum;
  }

  lemma SettleAndFail(base: State, r: Id, t: real)
    requires r in base.reg.vals && !base.reg.vals[r].due && base.reg.vals[r].sends == 0
    requires base.taskgroup && base.manager && r !in base.guard
    ensures var s1 := Next(base, Event(Paid(r), t));
      var s2 := Next(s1, Event(Begin(|base.spawned|), t));
      var s3 := Next(s2, Event(Failed(|base.inflight|), t));
      Publishes(s1, Event(Begin(|base.spawned|), t), r) && Retrying(s3, base, r, t, 1)
  {
    var job := Job(TargetOf(r, Marked(base.reg, r, t).vals[r]), 0);
    RemoveLast(base.spawned, job);
    RemoveLast(base.inflight, job);
    assert R.BackoffSum(1) == 5.0;
    hide RemoveAt;
  }

  /** One settlement signal, and then `k` retries that wake on time, every publish failing at once. */
  function Failing(base: State, r: Id, t: real, k: nat): seq<Event> {
    if k == 0
    then [Event(Paid(r), t), Event(Begin(|base.spawned|), t), Event(Failed(|base.inflight|), t)]
    else
      Failing(base, r, t, k - 1) +
      [Event(Wake(|base.tails|), t + R.BackoffSum(k)), Event(Failed(|base.inflight|), t + R.BackoffSum(k))]
  }

  lemma PublishSnoc(s: State, evs: seq<Event>, e: Event, r: Id)
    ensures Run(s, evs + [e]) == Next(Run(s, evs), e)
    ensures PublishCount(s, evs + [e], r) == PublishCount(s, evs, r) + if Publishes(Run(s, evs), e, r) then 1 else 0
  {
    hide Next, Publishes;
    assert (evs + [e])[..|evs|] == evs;
  }

  lemma FailingUnfold(base: State, r: Id, t: real, k: nat)
    ensures Failing(base, r, t, 0) ==
      [] + [Event(Paid(r), t)] + [Event(Begin(|base.spawned|), t)] + [Event(Failed(|base.inflight|), t)]
    ensures k > 0 ==> (
      Failing(base, r, t, k) == Failing(base, r, t, k - 1) +
        [Event(Wake(|base.tails|), t + R.BackoffSum(k))] + [Event(Failed(|base.inflight|), t + R.BackoffSum(k))])
    ensures Run(base, []) == base && PublishCount(base, [], r) == 0
  {
  }

  lemma {:induction false} FailingSteps(base: State, r: Id, t: real, k: nat)
    requires r in base.reg.vals && !base.reg.vals[r].due && base.reg.vals[r].sends == 0
    requires base.taskgroup && base.manager && r !in base.guard && k <= 11
    ensures var s := Run(base, Failing(base, r, t, k));
      if k < 11 then Retrying(s, base, r, t, k + 1) else GivenToTick(s, base, r)
    ensures PublishCount(base, Failing(base, r, t, k), r) == k + 1
  {
    hide Next, Failing, Retrying, GivenToTick, Run, PublishCount, R.BackoffSum;
    FailingUnfold(base, r, t, k);
    if k == 0 {
      SettleAndFail(base, r, t);
      var a, b, c := Event(Paid(r), t), Event(Begin(|base.spawned|), t), Event(Failed(|base.inflight|), t);
      PublishSnoc(base, [], a, r);
      PublishSnoc(base, [] + [a], b, r);
      PublishSnoc(base, [] + [a] + [b], c, r);
    } else {
      FailingSteps(base, r, t, k - 1);
      var init, now := Failing(base, r, t, k - 1), t + R.BackoffSum(k);
      WakeAndFail(Run(base, init), base, r, t, k);
      PublishSnoc(base, init, Event(Wake(|base.tails|), now), r);
      PublishSnoc(base, init + [Event(Wake(|base.tails|), now)], Event(Failed(|base.inflight|), now), r);
    }
  }

  /** When every publish fails at once, the settlement is followed by eleven retries, each after its
      backoff, and then the receipt, still owed, is left to the hourly tick. */
  lemma ElevenRetriesThenTick(base: State, r: Id, t: real)
    requires r in base.reg.vals && !base.reg.vals[r].due && base.reg.vals[r].sends == 0
    requires base.taskgroup && base.manager && r !in base.guard
    ensures var evs := Failing(base, r, t, 11);
      PublishCount(base, evs, r) == 12 && GivenToTick(Run(base, evs), base, r)
  {
    hide Failing, Run, PublishCount, GivenToTick;
    var retries := 11;
    FailingSteps(base, r, t, retries);
  }
}
