/** The stop workers, confirmed stops and the safety reset. */
module PipelineStops {
  import opened Prelude
  import Q = CommandQueue
  import S = Safety
  import opened Pipeline

  /** Facts about one `_trigger_hardware_stop` call. */
  ghost predicate CallOk(t: Stopper, epoch: nat, k: nat)
    requires k < |t.calls|
  {
    match t.calls[k]
    case Queued(le) => le <= epoch
    case Holding(le, w) =>
      le <= epoch && t.holder == Some(k) && w == |t.workers| - 1 && OwnWorker(t, k, le, w)
    case Returned(le, confirmed, ran) =>
      && le <= epoch
      && (ran.Some? ==> OwnWorker(t, k, le, ran.value))
      && (confirmed ==> ran.Some? && t.workers[ran.value].state.Succeeded?)
  }

  /** Worker `w` was started for call `k`, at or after the epoch that call's own latch created. */
  ghost predicate OwnWorker(t: Stopper, k: nat, latchEpoch: nat, w: nat) {
    w < |t.workers| && t.workers[w].owner == k && latchEpoch <= t.workers[w].startEpoch
  }

  ghost predicate StopInv(s: State) {
    var t := s.stopper;
    && (forall k :: 0 <= k < |t.calls| ==> CallOk(t, s.latch.epoch, k))
    && (t.holder.Some? ==> t.holder.value < |t.calls| && t.calls[t.holder.value].Holding?)
    && (forall w :: 0 <= w < |t.workers| - 1 ==> !t.workers[w].state.Busy?)
    && (t.status.Never? ==> t.workers == [])
    && (t.holder.Some? ==> t.status.Pending?)
    && (t.status.Confirmed? ==> t.workers != [] && t.workers[|t.workers|-1].state.Succeeded?)
  }

  lemma AcquireKeeps(s: State, k: nat)
    requires StopInv(s) && k < |s.stopper.calls| && s.stopper.calls[k].Queued? && s.stopper.holder.None?
    ensures StopInv(s.(stopper := AfterAcquire(s.stopper, k, s.latch.epoch)))
  {
    var t := s.stopper;
    var t' := AfterAcquire(t, k, s.latch.epoch);
    forall j | 0 <= j < |t'.calls| ensures CallOk(t', s.latch.epoch, j) {
      assert CallOk(t, s.latch.epoch, j);
    }
  }

  lemma PrefixKeeps(s: State, fromDeadline: bool)
    requires StopInv(s)
    ensures StopInv(AfterStopPrefix(s, fromDeadline))
  {
    var t', epoch := AfterStopPrefix(s, fromDeadline).stopper, s.latch.epoch + 1;
    forall j | 0 <= j < |t'.calls| ensures CallOk(t', epoch, j) {
      if j < |s.stopper.calls| {
        assert CallOk(s.stopper, s.latch.epoch, j);
      }
    }
  }

  lemma WorkerDoneKeeps(s: State, ok: bool)
    requires StopInv(s) && Enabled(s, StopWorkerDone(ok))
    ensures StopInv(Apply(s, StopWorkerDone(ok)))
  {
    var t' := Apply(s, StopWorkerDone(ok)).stopper;
    forall j | 0 <= j < |t'.calls| ensures CallOk(t', s.latch.epoch, j) {
      assert CallOk(s.stopper, s.latch.epoch, j);
    }
  }

  lemma ReturnKeeps(s: State, k: nat, timedOut: bool)
    requires StopInv(s) && Enabled(s, StopReturn(k, timedOut))
    ensures StopInv(Apply(s, StopReturn(k, timedOut)))
  {
    var t' := Apply(s, StopReturn(k, timedOut)).stopper;
    assert CallOk(s.stopper, s.latch.epoch, k);
    forall j | 0 <= j < |t'.calls| ensures CallOk(t', s.latch.epoch, j) {
      assert CallOk(s.stopper, s.latch.epoch, j);
    }
  }

  lemma OthersFrame(s: State, e: Event)
    requires Enabled(s, e) && !e.Stop? && !e.AcquireStopLock? && !e.StopWorkerDone? && !e.StopReturn?
    ensures Apply(s, e).stopper == s.stopper.(resets := Apply(s, e).stopper.resets)
    ensures s.latch.epoch <= Apply(s, e).latch.epoch
  {
  }

  lemma OthersKeep(s: State, e: Event)
    requires StopInv(s) && Enabled(s, e)
    requires !e.Stop? && !e.AcquireStopLock? && !e.StopWorkerDone? && !e.StopReturn?
    ensures StopInv(Apply(s, e))
  {
    OthersFrame(s, e);
    var s' := Apply(s, e);
    forall j | 0 <= j < |s'.stopper.calls| ensures CallOk(s'.stopper, s'.latch.epoch, j) {
      assert CallOk(s.stopper, s.latch.epoch, j);
    }
  }

  lemma StopStep(s: State, e: Event)
    requires StopInv(s) && Enabled(s, e)
    ensures StopInv(Apply(s, e))
  {
    match e {
      case Stop(fromDeadline) =>
        PrefixKeeps(s, fromDeadline);
        if !LockContended(s.stopper) {
          AcquireKeeps(AfterStopPrefix(s, fromDeadline), |s.stopper.calls|);
        }
      case AcquireStopLock(k) => AcquireKeeps(s, k);
      case StopWorkerDone(ok) => WorkerDoneKeeps(s, ok);
      case StopReturn(k, timedOut) => ReturnKeeps(s, k, timedOut);
      case _ => OthersKeep(s, e);
    }
  }

  lemma {:induction false} StopRun(capacity: nat, events: seq<Event>, s: State)
    requires Run(capacity, events) == Some(s)
    ensures StopInv(s)
  {
    if events != [] {
      var front := events[..|events|-1];
      StopRun(capacity, front, Run(capacity, front).value);
      StopStep(Run(capacity, front).value, events[|events|-1]);
    }
  }

  /** Main result: in every run at most one stop worker is unfinished, and it is the newest one. */
  lemma AtMostOneUnfinishedStopWorker(capacity: nat, events: seq<Event>, s: State, v: nat, w: nat)
    requires Run(capacity, events) == Some(s)
    requires v < |s.stopper.workers| && s.stopper.workers[v].state.Busy?
    requires w < |s.stopper.workers| && s.stopper.workers[w].state.Busy?
    ensures v == w == |s.stopper.workers| - 1
  {
    StopRun(capacity, events, s);
  }

  /** Main result: a stop call that returned True was confirmed by a worker of its own, started at or
      after that very call's latch and finished without error. */
  lemma TrueMeansOwnWorkerSucceeded(capacity: nat, events: seq<Event>, s: State, k: nat)
    requires Run(capacity, events) == Some(s)
    requires k < |s.stopper.calls| && s.stopper.calls[k].Returned? && s.stopper.calls[k].confirmed
    ensures exists w: nat :: OwnWorker(s.stopper, k, s.stopper.calls[k].latchEpoch, w)
                        && s.stopper.workers[w].state.Succeeded?
  {
    StopRun(capacity, events, s);
    assert CallOk(s.stopper, s.latch.epoch, k);
    assert OwnWorker(s.stopper, k, s.stopper.calls[k].latchEpoch, s.stopper.calls[k].ran.value);
  }

  /** Main result, the other side: in every run a stop call under the lock returns True exactly when it
      did not time out and its own worker succeeded, the status says which of the three it was, and
      nothing else of the calls and workers changes. */
  lemma StopReturnIsExact(capacity: nat, events: seq<Event>, s: State, k: nat, timedOut: bool)
    requires Run(capacity, events) == Some(s) && Enabled(s, StopReturn(k, timedOut))
    ensures var t, t' := s.stopper, Apply(s, StopReturn(k, timedOut)).stopper;
            var w := t.workers[t.calls[k].worker];
            && w.owner == k && t'.workers == t.workers && t'.holder.None? && |t'.calls| == |t.calls|
            && t'.calls[k].Returned? && (t'.calls[k].confirmed <==> !timedOut && w.state.Succeeded?)
            && (t'.status.Confirmed? <==> !timedOut && w.state.Succeeded?)
            && (t'.status.Failed? <==> !timedOut && w.state.Raised?)
            && (t'.status.Timeout? <==> timedOut)
            && (forall j :: 0 <= j < |t.calls| && j != k ==> t'.calls[j] == t.calls[j])
  {
    StopRun(capacity, events, s);
    assert CallOk(s.stopper, s.latch.epoch, k);
  }

  /** A stop takes effect at once: the latch is set with the current event fired, motion leaves the
      queue, and the call takes the lock unless another holds it or waits. Under the lock it fails over
      an unfinished worker, and otherwise has a worker of its own. */
  lemma StopIsExact(s: State, fromDeadline: bool)
    requires Enabled(s, Stop(fromDeadline))
    ensures var r, t := Apply(s, Stop(fromDeadline)), s.stopper;
            var k := |t.calls|;
            var contended := t.holder.Some? || exists j :: 0 <= j < k && t.calls[j].Queued?;
            var busy := t.workers != [] && t.workers[|t.workers|-1].state.Busy?;
            && r.latch.latched && r.latch.epoch == s.latch.epoch + 1
            && r.latch.event == s.latch.event && r.latch.event in r.latch.fired
            && r.latest == s.latest + 1 && r.stopMark == r.latest && r.hand == s.hand
            && r.deadline == Deadline(s.deadline.generation + 1, s.deadline.timers,
                                      s.deadline.scheduledStops - if fromDeadline then 1 else 0)
            && (forall c :: c in r.queue.pending <==> c in s.queue.pending && c.motionId.None?)
            && |r.stopper.calls| == k + 1 && r.stopper.calls[..k] == t.calls
            && (contended ==> r.stopper.calls[k] == Queued(r.latch.epoch) && r.stopper.workers == t.workers)
            && (!contended && busy ==>
                  r.stopper.calls[k] == Returned(r.latch.epoch, false, None) && r.stopper.status.Failed?)
            && (!contended && !busy ==>
                  r.stopper.calls[k] == Holding(r.latch.epoch, |t.workers|) && r.stopper.status.Pending?
                  && r.stopper.workers == t.workers + [Worker(k, r.latch.epoch, Busy)])
  {
    Q.FilterMembers(s.queue.pending);
  }

  /** The other steps of stops, resets and deadlines: a waiting call that takes the lock, a worker that
      ends, a reset that passes its guard, gives up or commits, and a deadline timer that fires. */
  lemma StopStepsAreExact(s: State, k: nat, ok: bool, timer: nat)
    ensures Enabled(s, AcquireStopLock(k)) <==>
              s.stopper.holder.None? && k < |s.stopper.calls| && s.stopper.calls[k].Queued?
    ensures Enabled(s, AcquireStopLock(k)) ==>
              var t, t' := s.stopper, Apply(s, AcquireStopLock(k)).stopper;
              && |t'.calls| == |t.calls| && (forall j :: 0 <= j < |t.calls| && j != k ==> t'.calls[j] == t.calls[j])
              && if WorkerBusy(t)
                 then t'.calls[k] == Returned(t.calls[k].latchEpoch, false, None) && t'.status.Failed?
                      && t'.workers == t.workers && t'.holder.None?
                 else t'.calls[k] == Holding(t.calls[k].latchEpoch, |t.workers|) && t'.status.Pending?
                      && t'.workers == t.workers + [Worker(k, s.latch.epoch, Busy)] && t'.holder == Some(k)
    ensures WorkerBusy(s.stopper) ==>
              var t, n := s.stopper, |s.stopper.workers| - 1;
              var ended := Worker(t.workers[n].owner, t.workers[n].startEpoch, if ok then Succeeded else Raised);
              Apply(s, StopWorkerDone(ok)) == s.(stopper := t.(workers := t.workers[..n] + [ended]))
    ensures Enabled(s, ResetGuard) ==>
              Apply(s, ResetGuard) == s.(stopper := s.stopper.(resets := s.stopper.resets + 1))
    ensures s.stopper.resets > 0 ==>
              var t := s.stopper.(resets := s.stopper.resets - 1);
              && Apply(s, ResetAbort) == s.(stopper := t)
              && Apply(s, ResetCommit)
                 == s.(stopper := t, latch := S.Latch(s.latch.epoch + 1, false, s.latch.event + 1, s.latch.fired))
    ensures timer in s.deadline.timers ==>
              var d := s.deadline;
              Apply(s, TimerFire(timer)) == s.(deadline := Deadline(
                d.generation, d.timers - {timer}, d.scheduledStops + if timer == d.generation then 1 else 0))
  {
  }

  /** What the reset guard knows: no stop worker ever ran, or the newest one succeeded. The
      `worker.done()` test in front of it adds nothing to the status test. */
  lemma ResetGuardNeedsConfirmedStop(capacity: nat, events: seq<Event>, s: State)
    requires Run(capacity, events) == Some(s)
    ensures Enabled(s, ResetGuard) <==> s.stopper.status in {Never, Confirmed}
    ensures Enabled(s, ResetGuard) ==>
              s.stopper.workers == [] || s.stopper.workers[|s.stopper.workers|-1].state.Succeeded?
  {
    StopRun(capacity, events, s);
  }

  // ---- A stop that was not confirmed stays latched ----

  /** Some state along the path has the status `confirmed`. */
  ghost predicate ConfirmedAlong(s: State, events: seq<Event>)
    decreases |events|
  {
    || s.stopper.status.Confirmed?
    || (events != [] && Enabled(s, events[0]) && ConfirmedAlong(Apply(s, events[0]), events[1..]))
  }

  /** Main result: while the last stop is pending, failed or timed out and no reset is already under
      way, the latch is only ever released after some stop has been confirmed. */
  lemma {:induction false} UnconfirmedStopStaysLatched(s: State, events: seq<Event>, t: State)
    requires s.latch.latched && s.stopper.resets == 0 && s.stopper.status !in {Never, Confirmed}
    requires Path(s, events, t) && !ConfirmedAlong(s, events)
    ensures t.latch.latched && t.stopper.resets == 0 && t.stopper.status !in {Never, Confirmed}
    decreases |events|
  {
    if events != [] {
      UnconfirmedStopStaysLatched(Apply(s, events[0]), events[1..], t);
    }
  }

  // ---- The reset is two steps ----

  /** The event starts a stop worker: a stop that takes the free lock at once, or a waiting one that
      takes it, with no earlier worker unfinished. */
  predicate StartsWorker(s: State, e: Event) {
    (e.AcquireStopLock? || (e.Stop? && !LockContended(s.stopper))) && !WorkerBusy(s.stopper)
  }

  /** The event ends a stop call: its return after the worker, or its early failure under the lock
      because an earlier worker is unfinished. */
  predicate EndsStop(s: State, e: Event) {
    || e.StopReturn?
    || ((e.AcquireStopLock? || (e.Stop? && !LockContended(s.stopper))) && WorkerBusy(s.stopper))
  }

  ghost function WorkerStarts(s: State, events: seq<Event>): nat
    decreases |events|
  {
    if events == [] || !Enabled(s, events[0]) then 0
    else WorkerStarts(Apply(s, events[0]), events[1..]) + if StartsWorker(s, events[0]) then 1 else 0
  }

  ghost function StopEnds(s: State, events: seq<Event>): nat
    decreases |events|
  {
    if events == [] || !Enabled(s, events[0]) then 0
    else StopEnds(Apply(s, events[0]), events[1..]) + if EndsStop(s, events[0]) then 1 else 0
  }

  function WorkerReports(events: seq<Event>): nat {
    if events == [] then 0
    else WorkerReports(events[1..]) + if events[0].StopWorkerDone? then 1 else 0
  }

  function StopTriggers(events: seq<Event>): nat {
    if events == [] then 0
    else StopTriggers(events[1..]) + if events[0].Stop? then 1 else 0
  }

  function BusyWorkers(t: Stopper): nat { if WorkerBusy(t) then 1 else 0 }

  /** Stop calls that were triggered and have not returned. */
  function OpenCalls(calls: seq<StopCall>): nat {
    if calls == [] then 0
    else OpenCalls(calls[..|calls|-1]) + if calls[|calls|-1].Returned? then 0 else 1
  }

  ghost predicate SomeCallOpen(t: Stopper) {
    exists k :: 0 <= k < |t.calls| && !t.calls[k].Returned?
  }

  lemma {:induction false} OpenCallsPositive(calls: seq<StopCall>)
    ensures OpenCalls(calls) > 0 <==> exists k :: 0 <= k < |calls| && !calls[k].Returned?
  {
    if calls != [] {
      var front := calls[..|calls|-1];
      OpenCallsPositive(front);
      assert forall k :: 0 <= k < |front| ==> front[k] == calls[k];
    }
  }

  lemma {:induction false} OpenCallsUpdate(calls: seq<StopCall>, k: nat, c: StopCall)
    requires k < |calls|
    ensures OpenCalls(calls[k := c])
            == OpenCalls(calls) - (if calls[k].Returned? then 0 else 1) + (if c.Returned? then 0 else 1)
  {
    var n := |calls| - 1;
    if k < n {
      OpenCallsUpdate(calls[..n], k, c);
      assert calls[k := c][..n] == calls[..n][k := c];
    } else {
      assert calls[k := c][..n] == calls[..n];
    }
  }

  lemma OpenCallsAppend(calls: seq<StopCall>, c: StopCall)
    ensures OpenCalls(calls + [c]) == OpenCalls(calls) + if c.Returned? then 0 else 1
  {
    assert (calls + [c])[..|calls|] == calls;
  }

  lemma WorkerBalanceStep(s: State, e: Event)
    requires Enabled(s, e)
    ensures BusyWorkers(Apply(s, e).stopper)
            == BusyWorkers(s.stopper) + (if StartsWorker(s, e) then 1 else 0) - (if e.StopWorkerDone? then 1 else 0)
  {
  }

  lemma AcquireOpens(t: Stopper, k: nat, epoch: nat)
    requires k < |t.calls| && t.calls[k].Queued?
    ensures OpenCalls(AfterAcquire(t, k, epoch).calls) == OpenCalls(t.calls) - if WorkerBusy(t) then 1 else 0
  {
    OpenCallsUpdate(t.calls, k, AfterAcquire(t, k, epoch).calls[k]);
    assert AfterAcquire(t, k, epoch).calls == t.calls[k := AfterAcquire(t, k, epoch).calls[k]];
  }

  lemma CallBalanceStep(s: State, e: Event)
    requires Enabled(s, e)
    ensures OpenCalls(Apply(s, e).stopper.calls)
            == OpenCalls(s.stopper.calls) + (if e.Stop? then 1 else 0) - (if EndsStop(s, e) then 1 else 0)
  {
    match e {
      case Stop(fromDeadline) => TriggerOpens(s, fromDeadline);
      case AcquireStopLock(k) => AcquireOpens(s.stopper, k, s.latch.epoch);
      case StopReturn(k, timedOut) => ReturnCloses(s.stopper, k, timedOut);
      case StopWorkerDone(ok) =>
      case _ => OthersFrame(s, e);
    }
  }

  lemma TriggerOpens(s: State, fromDeadline: bool)
    ensures OpenCalls(AfterStop(s, fromDeadline).stopper.calls)
            == OpenCalls(s.stopper.calls) + if !LockContended(s.stopper) && WorkerBusy(s.stopper) then 0 else 1
  {
    var p := AfterStopPrefix(s, fromDeadline);
    OpenCallsAppend(s.stopper.calls, Queued(p.latch.epoch));
    if !LockContended(s.stopper) {
      AcquireOpens(p.stopper, |s.stopper.calls|, p.latch.epoch);
    }
  }

  lemma ReturnCloses(t: Stopper, k: nat, timedOut: bool)
    requires k < |t.calls| && t.calls[k].Holding? && t.calls[k].worker < |t.workers|
    ensures OpenCalls(AfterStopReturn(t, k, timedOut).calls) == OpenCalls(t.calls) - 1
  {
    OpenCallsUpdate(t.calls, k, AfterStopReturn(t, k, timedOut).calls[k]);
  }

  /** Along every path, workers and stop calls are conserved. */
  lemma {:induction false} StopsBalance(s: State, events: seq<Event>, t: State)
    requires Path(s, events, t)
    ensures BusyWorkers(t.stopper) == BusyWorkers(s.stopper) + WorkerStarts(s, events) - WorkerReports(events)
    ensures OpenCalls(t.stopper.calls) == OpenCalls(s.stopper.calls) + StopTriggers(events) - StopEnds(s, events)
    decreases |events|
  {
    if events != [] {
      WorkerBalanceStep(s, events[0]);
      CallBalanceStep(s, events[0]);
      StopsBalance(Apply(s, events[0]), events[1..], t);
    }
  }

  /** Main result, both directions: a reset that passed its guard commits over an unfinished stop
      worker if and only if more workers were started than reported between guard and commit. */
  lemma ReleaseOverBusyWorkerIff(capacity: nat, before: seq<Event>, s: State, between: seq<Event>, t: State)
    requires Run(capacity, before + [ResetGuard]) == Some(s)
    requires Path(s, between, t) && Enabled(t, ResetCommit)
    ensures !Apply(t, ResetCommit).latch.latched
    ensures WorkerBusy(Apply(t, ResetCommit).stopper) <==> WorkerStarts(s, between) > WorkerReports(between)
  {
    GuardPassed(capacity, before, s);
    StopsBalance(s, between, t);
  }

  lemma GuardPassed(capacity: nat, before: seq<Event>, s: State)
    requires Run(capacity, before + [ResetGuard]) == Some(s)
    ensures StopInv(s) && !WorkerBusy(s.stopper) && s.stopper.holder.None?
  {
    assert (before + [ResetGuard])[..|before|] == before;
    StopRun(capacity, before + [ResetGuard], s);
  }

  /** Main result, both directions: the commit releases the latch over a stop that was triggered and
      has not returned if and only if the calls still waiting for the stop lock at the guard, and
      those triggered since, outnumber the calls that ended since. At the guard no call holds the
      lock, so the waiting ones are all that are open. */
  lemma ReleaseOverOpenStopIff(capacity: nat, before: seq<Event>, s: State, between: seq<Event>, t: State)
    requires Run(capacity, before + [ResetGuard]) == Some(s)
    requires Path(s, between, t) && Enabled(t, ResetCommit)
    ensures forall k :: 0 <= k < |s.stopper.calls| ==> s.stopper.calls[k].Queued? || s.stopper.calls[k].Returned?
    ensures SomeCallOpen(Apply(t, ResetCommit).stopper)
            <==> OpenCalls(s.stopper.calls) + StopTriggers(between) > StopEnds(s, between)
  {
    GuardPassed(capacity, before, s);
    forall k | 0 <= k < |s.stopper.calls| ensures !s.stopper.calls[k].Holding? {
      assert CallOk(s.stopper, s.latch.epoch, k);
    }
    StopsBalance(s, between, t);
    OpenCallsPositive(t.stopper.calls);
  }

  /** The simple sufficient condition: without a stop trigger and without a waiting stop taking the
      lock between guard and commit, no stop worker becomes unfinished. */
  lemma {:induction false} ResetWithoutInterleaving(s: State, events: seq<Event>, t: State)
    requires !WorkerBusy(s.stopper) && Path(s, events, t)
    requires forall i :: 0 <= i < |events| ==> !events[i].Stop? && !events[i].AcquireStopLock?
    ensures !WorkerBusy(t.stopper) && t.stopper.workers == s.stopper.workers
    decreases |events|
  {
    if events != [] {
      ResetWithoutInterleaving(Apply(s, events[0]), events[1..], t);
    }
  }

  // ---- Concrete runs ----

  lemma RunSnoc(capacity: nat, events: seq<Event>, e: Event)
    requires Run(capacity, events).Some? && Enabled(Run(capacity, events).value, e)
    ensures Run(capacity, events + [e]) == Some(Apply(Run(capacity, events).value, e))
  {
    assert (events + [e])[..|events|] == events;
  }

  /** A first stop, confirmed. */
  const FIRST_STOP: seq<Event> := [Stop(false)] + [StopWorkerDone(true)] + [StopReturn(0, false)]

  lemma FirstStop(capacity: nat)
    ensures Run(capacity, FIRST_STOP).Some?
    ensures var t := Run(capacity, FIRST_STOP).value.stopper;
            t.status.Confirmed? && !WorkerBusy(t) && !LockContended(t)
  {
    RunSnoc(capacity, [], Stop(false));
    RunSnoc(capacity, [Stop(false)], StopWorkerDone(true));
    RunSnoc(capacity, [Stop(false)] + [StopWorkerDone(true)], StopReturn(0, false));
  }

  /** A reset guarded before a stop and committed after it releases the latch while that stop's
      worker is still running. */
  lemma ResetCanReleaseAPendingStop(capacity: nat)
    ensures Run(capacity, FIRST_STOP).Some? && Run(capacity, FIRST_STOP).value.stopper.status.Confirmed?
    ensures var t := Run(capacity, FIRST_STOP + [ResetGuard] + [Stop(false)] + [ResetCommit]);
            t.Some? && !t.value.latch.latched && WorkerBusy(t.value.stopper)
  {
    FirstStop(capacity);
    RunSnoc(capacity, FIRST_STOP, ResetGuard);
    RunSnoc(capacity, FIRST_STOP + [ResetGuard], Stop(false));
    RunSnoc(capacity, FIRST_STOP + [ResetGuard] + [Stop(false)], ResetCommit);
  }

  /** Two stops; the second waits for the stop lock. The first is confirmed and gives the lock up. */
  const TWO_STOPS: seq<Event> := [Stop(false)] + [Stop(false)] + [StopWorkerDone(true)] + [StopReturn(0, false)]

  lemma TwoStops(capacity: nat)
    ensures Run(capacity, TWO_STOPS).Some?
    ensures var t := Run(capacity, TWO_STOPS).value.stopper;
            && |t.calls| == 2 && t.calls[1] == Queued(2) && t.holder.None?
            && t.status.Confirmed? && !WorkerBusy(t) && t.resets == 0
  {
    RunSnoc(capacity, [], Stop(false));
    assert LockContended(Run(capacity, [] + [Stop(false)]).value.stopper);
    RunSnoc(capacity, [Stop(false)], Stop(false));
    RunSnoc(capacity, [Stop(false)] + [Stop(false)], StopWorkerDone(true));
    RunSnoc(capacity, [Stop(false)] + [Stop(false)] + [StopWorkerDone(true)], StopReturn(0, false));
  }

  /** No stop has to be triggered between guard and commit: the guard does not see a stop that waits
      for the lock. Committed at once, the reset releases the latch over that stop, still waiting;
      committed after the stop woke, over its running worker. */
  lemma ResetPassesOverAWaitingStop(capacity: nat)
    ensures var early := Run(capacity, TWO_STOPS + [ResetGuard] + [ResetCommit]);
            early.Some? && !early.value.latch.latched
            && |early.value.stopper.calls| == 2 && early.value.stopper.calls[1] == Queued(2)
    ensures var late := Run(capacity, TWO_STOPS + [ResetGuard] + [AcquireStopLock(1)] + [ResetCommit]);
            late.Some? && !late.value.latch.latched && WorkerBusy(late.value.stopper)
  {
    TwoStops(capacity);
    RunSnoc(capacity, TWO_STOPS, ResetGuard);
    RunSnoc(capacity, TWO_STOPS + [ResetGuard], ResetCommit);
    RunSnoc(capacity, TWO_STOPS + [ResetGuard], AcquireStopLock(1));
    RunSnoc(capacity, TWO_STOPS + [ResetGuard] + [AcquireStopLock(1)], ResetCommit);
  }
}
