/** No command and no stop is ever stuck: from every reachable state the rest can still happen. */
module PipelineProgress {
  import opened Prelude
  import opened Pipeline
  import L = PipelineLifecycle
  import T = PipelineStops

  // ---- The command loop ----

  predicate AtRest(s: State) { s.hand.Idle? && s.queue.pending == [] }

  /** What loop and worker do next when the media are ready, the command is supported and nothing is
      raised. */
  function NextEvent(s: State): Event
    requires !AtRest(s)
  {
    match s.hand
    case Idle => PopCommand
    case Popped(_) => CheckQueued
    case Waiting(_) => TakePermit(true)
    case Running(_, _, Starting) => Begin(true)
    case Running(_, _, Body(_)) => Return
    case Running(_, _, Checked) => Operate(false)
    case Running(_, _, Wrote) => Recheck
    case Finished(_, _) => Emit
  }

  function Distance(h: Hand): nat {
    match h
    case Idle => 0
    case Finished(_, _) => 1
    case Running(_, _, Body(_)) => 2
    case Running(_, _, Wrote) => 3
    case Running(_, _, Checked) => 4
    case Running(_, _, Starting) => 5
    case Waiting(_) => 6
    case Popped(_) => 7
  }

  function Work(s: State): nat { 8 * |s.queue.pending| + Distance(s.hand) }

  lemma NextEventWorks(s: State)
    requires !AtRest(s)
    ensures Enabled(s, NextEvent(s))
    ensures var t := Apply(s, NextEvent(s)); Work(t) < Work(s) && t.next == s.next
  {
  }

  /** The events after `before` are those of the command loop and its worker alone. */
  ghost predicate LoopOnly(before: seq<Event>, events: seq<Event>) {
    && before <= events
    && forall i :: |before| <= i < |events| ==>
         events[i] in {PopCommand, CheckQueued, TakePermit(true), Begin(true), Return, Operate(false), Recheck, Emit}
  }

  lemma {:induction false} LoopComesToRest(capacity: nat, before: seq<Event>, s: State)
    returns (events: seq<Event>, t: State)
    requires Run(capacity, before) == Some(s)
    ensures LoopOnly(before, events) && Run(capacity, events) == Some(t) && AtRest(t) && t.next == s.next
    decreases Work(s)
  {
    if AtRest(s) {
      events, t := before, s;
    } else {
      NextEventWorks(s);
      T.RunSnoc(capacity, before, NextEvent(s));
      events, t := LoopComesToRest(capacity, before + [NextEvent(s)], Apply(s, NextEvent(s)));
      assert before <= before + [NextEvent(s)] <= events;
    }
  }

  /** Main result: from every state of every run, latched or not and wherever the worker is, the loop can
      come to rest by its own events; then every command received so far has its terminal result. */
  lemma EveryCommandCanFinish(capacity: nat, before: seq<Event>, s: State)
    returns (events: seq<Event>, t: State)
    requires 1 <= capacity && Run(capacity, before) == Some(s)
    ensures LoopOnly(before, events) && Run(capacity, events) == Some(t)
    ensures forall u: nat :: u < s.next ==> u in t.story && L.Closed(t.story[u])
  {
    events, t := LoopComesToRest(capacity, before, s);
    forall u: nat | u < s.next ensures u in t.story && L.Closed(t.story[u]) {
      L.ExactlyOnePlaceAndOneResult(capacity, events, t, u);
    }
  }

  // ---- Stops ----

  predicate StopsAtRest(t: Stopper) {
    !WorkerBusy(t) && forall k :: 0 <= k < |t.calls| ==> t.calls[k].Returned?
  }

  /** The call can still be confirmed, or was. */
  predicate Hopeful(t: Stopper, k: nat) {
    && k < |t.calls|
    && match t.calls[k]
       case Queued(_) => true
       case Holding(_, w) => w < |t.workers| && !t.workers[w].state.Raised?
       case Returned(_, confirmed, _) => confirmed
  }

  function Effort(t: Stopper): nat {
    4 * T.OpenCalls(t.calls) + (if WorkerBusy(t) then 1 else 0) + if t.holder.None? then 2 else 0
  }

  /** The worker ends well, the call that holds the lock returns in time, or a waiting call takes it. */
  predicate StopsWell(e: Event) {
    match e
    case StopWorkerDone(ok) => ok
    case StopReturn(_, timedOut) => !timedOut
    case AcquireStopLock(_) => true
    case _ => false
  }

  lemma NextStopEvent(s: State) returns (e: Event)
    requires T.StopInv(s) && !StopsAtRest(s.stopper)
    ensures Enabled(s, e) && StopsWell(e) && (e.AcquireStopLock? ==> !WorkerBusy(s.stopper))
  {
    var t := s.stopper;
    if WorkerBusy(t) {
      e := StopWorkerDone(true);
    } else if t.holder.Some? {
      e := StopReturn(t.holder.value, false);
      assert T.CallOk(t, s.latch.epoch, t.holder.value);
    } else {
      var k :| 0 <= k < |t.calls| && !t.calls[k].Returned?;
      assert T.CallOk(t, s.latch.epoch, k);
      e := AcquireStopLock(k);
    }
  }

  lemma StopEventHelps(s: State, e: Event)
    requires T.StopInv(s) && Enabled(s, e) && StopsWell(e) && (e.AcquireStopLock? ==> !WorkerBusy(s.stopper))
    ensures Effort(Apply(s, e).stopper) < Effort(s.stopper)
    ensures forall k: nat :: Hopeful(s.stopper, k) ==> Hopeful(Apply(s, e).stopper, k)
  {
    var t, r := s.stopper, Apply(s, e).stopper;
    match e {
      case StopWorkerDone(_) =>
      case StopReturn(k, _) => T.OpenCallsUpdate(t.calls, k, r.calls[k]);
      case AcquireStopLock(k) => T.OpenCallsUpdate(t.calls, k, r.calls[k]);
    }
    forall k: nat | Hopeful(t, k) ensures Hopeful(r, k) {
      assert T.CallOk(t, s.latch.epoch, k);
    }
  }

  /** Main result: from every state of every run all stop calls can still return, and each that waits for
      the lock, or whose worker has not failed, can still return True. */
  lemma {:induction false} EveryStopCanReturn(capacity: nat, before: seq<Event>, s: State)
    returns (events: seq<Event>, t: State)
    requires Run(capacity, before) == Some(s)
    ensures before <= events && Run(capacity, events) == Some(t) && StopsAtRest(t.stopper)
    ensures forall i :: |before| <= i < |events| ==> StopsWell(events[i])
    ensures forall k: nat :: Hopeful(s.stopper, k) ==> Hopeful(t.stopper, k)
    decreases Effort(s.stopper)
  {
    if StopsAtRest(s.stopper) {
      events, t := before, s;
    } else {
      T.StopRun(capacity, before, s);
      var e := NextStopEvent(s);
      StopEventHelps(s, e);
      T.RunSnoc(capacity, before, e);
      events, t := EveryStopCanReturn(capacity, before + [e], Apply(s, e));
      assert before <= before + [e] <= events;
    }
  }
}
