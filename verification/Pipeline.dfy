/**
 The hardware command pipeline as a step relation (`botparty_robot/client_commands.py`,
 `safety.py`, `hardware/base.py`, `remote_actions.py`).

 Every event is one await-free stretch of the event loop or one step of the hardware worker
 thread; the order of events is chosen by an adversary.
 */
module Pipeline {
  import opened Prelude
  import Q = CommandQueue
  import S = Safety

  type Command = Q.Command

  /** Results reported to the outcome ledger for one command. */
  datatype Outcome = Accepted | Completed | Rejected(code: string) | Superseded | CancelledByStop

  predicate Terminal(o: Outcome) { !o.Accepted? }

  /** Where the hardware worker thread is inside `BaseHardware.execute`. `Body(failed)` is
      adapter code, which may have seen a check fail and swallowed the exception. */
  datatype Phase = Starting | Body(failed: bool) | Checked | Wrote

  datatype Verdict = Done | StoppedByLatch | AdapterError

  /** The command loop's hands. */
  datatype Hand =
    | Idle
    | Popped(command: Command)
    | Waiting(command: Command)
    | Running(command: Command, permit: S.Permit, phase: Phase)
    | Finished(command: Command, verdict: Verdict)

  datatype StopStatus = Never | Pending | Failed | Timeout | Confirmed

  datatype WorkerState = Busy | Succeeded | Raised

  datatype Worker = Worker(owner: nat, startEpoch: nat, state: WorkerState)

  /** One call of `_trigger_hardware_stop`; `latchEpoch` is the epoch its own stop created. */
  datatype StopCall =
    | Queued(latchEpoch: nat)
    | Holding(latchEpoch: nat, worker: nat)
    | Returned(latchEpoch: nat, confirmed: bool, ran: Option<nat>)

  datatype Stopper = Stopper(
    calls: seq<StopCall>,
    holder: Option<nat>,
    workers: seq<Worker>,
    status: StopStatus,
    resets: nat)

  /** The motion deadline: the generation counter, the timers that may still fire, and the
      deadline stops that were scheduled but have not run. */
  datatype Deadline = Deadline(generation: nat, timers: set<nat>, scheduledStops: nat)

  datatype State = State(
    latch: S.Latch,
    queue: Q.State,
    hand: Hand,
    latest: nat,
    stopMark: nat,
    deadline: Deadline,
    stopper: Stopper,
    next: nat,
    story: map<nat, seq<Outcome>>)

  datatype Event =
    | Receive(motion: bool, supported: bool, mediaReady: bool)
    | Stop(fromDeadline: bool)
    | AcquireStopLock(call: nat)
    | StopWorkerDone(ok: bool)
    | StopReturn(call: nat, timedOut: bool)
    | ResetGuard
    | ResetAbort
    | ResetCommit
    | TimerFire(timer: nat)
    | PopCommand
    | CheckQueued
    | TakePermit(mediaReady: bool)
    | Begin(supported: bool)
    | GuardCheck
    | Operate(raises: bool)
    | Recheck
    | Sleep
    | AdapterRaise(stopped: bool)
    | Return
    | Emit

  function Init(capacity: nat): State {
    State(S.Initial(), Q.Empty(capacity), Idle, 0, 0, Deadline(0, {}, 0),
          Stopper([], None, [], Never, 0), 0, map[])
  }

  // ---- Emitting results ----

  function Tell(story: map<nat, seq<Outcome>>, ticket: nat, o: Outcome): map<nat, seq<Outcome>> {
    story[ticket := (if ticket in story then story[ticket] else []) + [o]]
  }

  function TellAll(story: map<nat, seq<Outcome>>, commands: seq<Command>, o: Outcome): map<nat, seq<Outcome>>
    decreases commands
  {
    if commands == [] then story
    else TellAll(Tell(story, commands[0].ticket, o), commands[1..], o)
  }

  // ---- The await-free stretches ----

  /** An arriving command: the latched and media refusals of `_validate_command`, then
      `_dispatch_hardware_command`, which refuses what the adapter does not support, and
      `_enqueue_hardware_command`. */
  function AfterReceive(s: State, motion: bool, supported: bool, mediaReady: bool): State {
    if motion && s.latch.latched then
      s.(next := s.next + 1, story := Tell(s.story, s.next, Rejected("safety_latched")))
    else if motion && !mediaReady then
      s.(next := s.next + 1, story := Tell(s.story, s.next, Rejected("media_not_ready")))
    else if !supported then
      s.(next := s.next + 1, story := Tell(s.story, s.next, Rejected("unsupported_command")))
    else
      AfterDispatch(s, motion)
  }

  function Armed(d: Deadline): Deadline {
    d.(generation := d.generation + 1, timers := d.timers + {d.generation + 1})
  }

  function AfterDispatch(s: State, motion: bool): State {
    var latest := if motion then s.latest + 1 else s.latest;
    var deadline := if motion then Armed(s.deadline) else s.deadline;
    var command := Q.Command(s.next, if motion then Some(latest) else None);
    var r := Q.AfterOffer(s.queue, command);
    var told := TellAll(s.story, r.superseded, Superseded);
    s.(latest := latest,
       deadline := deadline,
       queue := r.state,
       next := s.next + 1,
       story := Tell(told, s.next, if r.accepted then Accepted else Rejected("command_queue_full")))
  }

  /** The synchronous prefix of `_trigger_hardware_stop`, up to the stop lock. */
  function AfterStopPrefix(s: State, fromDeadline: bool): State {
    var latch := S.Stopped(s.latch);
    s.(latch := latch,
       latest := s.latest + 1,
       stopMark := s.latest + 1,
       queue := Q.AfterCancel(s.queue),
       story := TellAll(s.story, Q.Motion(s.queue.pending), CancelledByStop),
       deadline := s.deadline.(
         generation := s.deadline.generation + 1,
         scheduledStops := if fromDeadline && s.deadline.scheduledStops > 0
                           then s.deadline.scheduledStops - 1 else s.deadline.scheduledStops),
       stopper := s.stopper.(calls := s.stopper.calls + [Queued(latch.epoch)]))
  }

  predicate WorkerBusy(t: Stopper) {
    t.workers != [] && t.workers[|t.workers|-1].state.Busy?
  }

  predicate LockContended(t: Stopper) {
    t.holder.Some? || exists k | 0 <= k < |t.calls| :: t.calls[k].Queued?
  }

  /** The stretch from taking the stop lock to waiting for the worker, or to the early failure. */
  function AfterAcquire(t: Stopper, call: nat, epoch: nat): Stopper
    requires call < |t.calls|
  {
    var c := t.calls[call];
    if WorkerBusy(t) then
      t.(calls := t.calls[call := Returned(c.latchEpoch, false, None)], status := Failed, holder := None)
    else
      t.(calls := t.calls[call := Holding(c.latchEpoch, |t.workers|)],
         workers := t.workers + [Worker(call, epoch, Busy)],
         status := Pending,
         holder := Some(call))
  }

  function AfterStop(s: State, fromDeadline: bool): State {
    var p := AfterStopPrefix(s, fromDeadline);
    if LockContended(s.stopper) then p
    else p.(stopper := AfterAcquire(p.stopper, |s.stopper.calls|, p.latch.epoch))
  }

  function AfterStopReturn(t: Stopper, call: nat, timedOut: bool): Stopper
    requires call < |t.calls| && t.calls[call].Holding? && t.calls[call].worker < |t.workers|
  {
    var c := t.calls[call];
    var ok := !timedOut && t.workers[c.worker].state.Succeeded?;
    t.(calls := t.calls[call := Returned(c.latchEpoch, ok, Some(c.worker))],
       holder := None,
       status := if timedOut then Timeout else if ok then Confirmed else Failed)
  }

  /** The first id check, outside the hardware lock. */
  predicate Stale(s: State, c: Command) {
    c.motionId.Some? && c.motionId.value < s.latest
  }

  function Report(s: State, c: Command, o: Outcome): State {
    s.(hand := Idle, story := Tell(s.story, c.ticket, o))
  }

  /** The stretch under the hardware lock from the second id check to `issue_permit`. */
  function AfterTakePermit(s: State, mediaReady: bool): State
    requires s.hand.Waiting?
  {
    var c := s.hand.command;
    if Stale(s, c) then Report(s, c, Superseded)
    else if c.motionId.Some? && !mediaReady then Report(s, c, Rejected("media_not_ready"))
    else
      match S.Issue(s.latch)
      case None => Report(s, c, Rejected("safety_latched"))
      case Some(permit) => s.(hand := Running(c, permit, Starting))
  }

  function VerdictOutcome(v: Verdict): Outcome {
    match v
    case Done => Completed
    case StoppedByLatch => Rejected("cancelled_by_stop")
    case AdapterError => Rejected("hardware_error")
  }

  // ---- The worker thread ----

  predicate Active(s: State)
    requires s.hand.Running?
  {
    S.PermitActive(s.latch, s.hand.permit)
  }

  /** The start of `execute`, up to the adapter's `on_command`. */
  function AfterBegin(s: State, supported: bool): State
    requires s.hand.Running?
  {
    if !Active(s) then s.(hand := Finished(s.hand.command, StoppedByLatch))
    else if !supported then s.(hand := Finished(s.hand.command, AdapterError))
    else s.(hand := s.hand.(phase := Body(false)))
  }

  /** The check before a guarded write looks at the latch and the epoch, not at the event. */
  function AfterGuardCheck(s: State): State
    requires s.hand.Running?
  {
    s.(hand := s.hand.(phase := if S.EpochActive(s.latch, s.hand.permit.epoch) then Checked else Body(true)))
  }

  /** The second check of a guarded write. */
  function AfterRecheck(s: State): State
    requires s.hand.Running?
  {
    s.(hand := s.hand.(phase := Body(!S.EpochActive(s.latch, s.hand.permit.epoch))))
  }

  function AfterSleep(s: State): State
    requires s.hand.Running? && s.hand.phase.Body?
  {
    s.(hand := s.hand.(phase := Body(s.hand.phase.failed || !Active(s))))
  }

  /** The final check of `execute`, after `on_command` returned. */
  function AfterReturn(s: State): State
    requires s.hand.Running?
  {
    s.(hand := Finished(s.hand.command, if Active(s) then Done else StoppedByLatch))
  }

  // ---- Which events can happen, and what they do ----

  predicate InPhase(s: State, phase: Phase) {
    s.hand.Running? && s.hand.phase == phase
  }

  predicate InBody(s: State) {
    s.hand.Running? && s.hand.phase.Body?
  }

  predicate Enabled(s: State, e: Event) {
    match e
    case Receive(_, _, _) => true
    case Stop(fromDeadline) => fromDeadline ==> s.deadline.scheduledStops > 0
    case AcquireStopLock(k) =>
      s.stopper.holder.None? && k < |s.stopper.calls| && s.stopper.calls[k].Queued?
    case StopWorkerDone(_) => WorkerBusy(s.stopper)
    case StopReturn(k, timedOut) =>
      && s.stopper.holder == Some(k)
      && k < |s.stopper.calls| && s.stopper.calls[k].Holding?
      && s.stopper.calls[k].worker < |s.stopper.workers|
      && (timedOut || !s.stopper.workers[s.stopper.calls[k].worker].state.Busy?)
    case ResetGuard => !WorkerBusy(s.stopper) && s.stopper.status in {Never, Confirmed}
    case ResetAbort => s.stopper.resets > 0
    case ResetCommit => s.stopper.resets > 0
    case TimerFire(g) => g in s.deadline.timers
    case PopCommand => s.hand.Idle? && s.queue.pending != []
    case CheckQueued => s.hand.Popped?
    case TakePermit(_) => s.hand.Waiting?
    case Begin(_) => InPhase(s, Starting)
    case GuardCheck => InBody(s)
    case Operate(_) => InPhase(s, Checked)
    case Recheck => InPhase(s, Wrote)
    case Sleep => InBody(s)
    case AdapterRaise(stopped) => InBody(s) && (stopped ==> s.hand.phase.failed)
    case Return => InBody(s)
    case Emit => s.hand.Finished?
  }

  function Apply(s: State, e: Event): State
    requires Enabled(s, e)
  {
    match e
    case Receive(motion, supported, mediaReady) => AfterReceive(s, motion, supported, mediaReady)
    case Stop(fromDeadline) => AfterStop(s, fromDeadline)
    case AcquireStopLock(k) => s.(stopper := AfterAcquire(s.stopper, k, s.latch.epoch))
    case StopWorkerDone(ok) =>
      var n := |s.stopper.workers| - 1;
      var w := s.stopper.workers[n].(state := if ok then Succeeded else Raised);
      s.(stopper := s.stopper.(workers := s.stopper.workers[n := w]))
    case StopReturn(k, timedOut) => s.(stopper := AfterStopReturn(s.stopper, k, timedOut))
    case ResetGuard => s.(stopper := s.stopper.(resets := s.stopper.resets + 1))
    case ResetAbort => s.(stopper := s.stopper.(resets := s.stopper.resets - 1))
    case ResetCommit =>
      s.(latch := S.Unlatched(s.latch), stopper := s.stopper.(resets := s.stopper.resets - 1))
    case TimerFire(g) =>
      var d := s.deadline.(timers := s.deadline.timers - {g});
      s.(deadline := if g == d.generation then d.(scheduledStops := d.scheduledStops + 1) else d)
    case PopCommand =>
      s.(queue := Q.AfterPop(s.queue).0, hand := Popped(s.queue.pending[0]))
    case CheckQueued =>
      var c := s.hand.command;
      if Stale(s, c) then Report(s, c, Superseded) else s.(hand := Waiting(c))
    case TakePermit(mediaReady) => AfterTakePermit(s, mediaReady)
    case Begin(supported) => AfterBegin(s, supported)
    case GuardCheck => AfterGuardCheck(s)
    case Operate(raises) => s.(hand := s.hand.(phase := if raises then Body(false) else Wrote))
    case Recheck => AfterRecheck(s)
    case Sleep => AfterSleep(s)
    case AdapterRaise(stopped) =>
      s.(hand := Finished(s.hand.command, if stopped then StoppedByLatch else AdapterError))
    case Return => AfterReturn(s)
    case Emit =>
      Report(s, s.hand.command, VerdictOutcome(s.hand.verdict))
  }

  /** The state after a sequence of events, or None if some event was not possible. */
  ghost function Run(capacity: nat, events: seq<Event>): Option<State> {
    if events == [] then Some(Init(capacity))
    else
      match Run(capacity, events[..|events|-1])
      case None => None
      case Some(s) =>
        if Enabled(s, events[|events|-1]) then Some(Apply(s, events[|events|-1])) else None
  }

  /** `t` can be reached from `s` by `events`. */
  ghost predicate Path(s: State, events: seq<Event>, t: State)
    decreases |events|
  {
    if events == [] then s == t
    else Enabled(s, events[0]) && Path(Apply(s, events[0]), events[1..], t)
  }

  lemma PathCons(s: State, e: Event, rest: seq<Event>, t: State)
    ensures Path(s, [e] + rest, t) <==> Enabled(s, e) && Path(Apply(s, e), rest, t)
  {
    assert ([e] + rest)[1..] == rest;
  }
}
