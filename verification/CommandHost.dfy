/**
 The mutable host behind `ClientCommandsComponent` (`botparty_robot/client_commands.py`). Each method
 is one await-free stretch of the source and is proved to be the corresponding event of `Pipeline`.
 */
module CommandHost {
  import opened Prelude
  import Q = CommandQueue
  import S = Safety
  import opened Pipeline
  import opened QuietCommand

  lemma DispatchFields(s: State, motion: bool, t: State)
    requires t.latch == s.latch && t.hand == s.hand && t.stopMark == s.stopMark && t.stopper == s.stopper
    requires t.latest == s.latest + (if motion then 1 else 0)
    requires t.deadline == if motion then Armed(s.deadline) else s.deadline
    requires t.next == s.next + 1
    requires var r := Q.AfterOffer(s.queue, Q.Command(s.next, if motion then Some(t.latest) else None));
             && t.queue == r.state
             && t.story == Tell(TellAll(s.story, r.superseded, Superseded), s.next,
                                if r.accepted then Accepted else Rejected("command_queue_full"))
    ensures t == AfterDispatch(s, motion)
  {
  }

  class Host {
    const safety: S.SafetyController
    const hardwareCommands: Q.HardwareCommandQueue
    var latestMotionCommandId: nat
    var motionDeadlineGeneration: nat
    var scheduledDeadlineStops: nat
    var lastStopStatus: StopStatus
    var stopWorker: Option<WorkerState>
    var resetsUnderWay: nat
    var nextTicket: nat
    var story: map<nat, seq<Outcome>>

    // Where the command loop's task is, which timers may still fire, the value of the counter at
    // the last stop, and the history of stop calls and workers.
    ghost var hand: Hand
    ghost var timers: set<nat>
    ghost var stopMark: nat
    ghost var stopper: Stopper

    ghost predicate Valid()
      reads this, safety, safety.events, hardwareCommands
    {
      && safety.Valid()
      && Q.Inv(hardwareCommands.View())
      && stopper.status == lastStopStatus
      && stopper.resets == resetsUnderWay
      && (forall g :: g in timers ==> g <= motionDeadlineGeneration)
      && stopWorker == (if stopper.workers == [] then None else Some(stopper.workers[|stopper.workers|-1].state))
    }

    ghost function View(): State
      requires safety.events != []
      reads this, safety, hardwareCommands
    {
      State(safety.View(), hardwareCommands.View(), hand, latestMotionCommandId, stopMark,
            Deadline(motionDeadlineGeneration, timers, scheduledDeadlineStops), stopper, nextTicket, story)
    }

    constructor (queueSize: nat)
      requires 1 <= queueSize
      ensures Valid() && View() == Init(queueSize)
    {
      safety := new S.SafetyController();
      hardwareCommands := new Q.HardwareCommandQueue(queueSize);
      latestMotionCommandId, motionDeadlineGeneration, scheduledDeadlineStops := 0, 0, 0;
      lastStopStatus, stopWorker, resetsUnderWay := Never, None, 0;
      nextTicket, story := 0, map[];
      hand, timers, stopMark := Idle, {}, 0;
      stopper := Stopper([], None, [], Never, 0);
    }

    method EmitCommandResult(ticket: nat, o: Outcome)
      modifies this`story
      ensures story == Tell(old(story), ticket, o)
    {
      story := story[ticket := (if ticket in story then story[ticket] else []) + [o]];
    }

    /** The `for command in ...` loops over superseded and cancelled commands. */
    method EmitForEach(commands: seq<Command>, o: Outcome)
      modifies this`story
      ensures story == TellAll(old(story), commands, o)
    {
      var i := 0;
      while i < |commands|
        invariant 0 <= i <= |commands|
        invariant TellAll(story, commands[i..], o) == TellAll(old(story), commands, o)
      {
        assert commands[i..][1..] == commands[i+1..];
        EmitCommandResult(commands[i].ticket, o);
        i := i + 1;
      }
      assert commands[i..] == [];
    }

    method ArmMotionDeadline()
      modifies this`motionDeadlineGeneration, this`timers
      ensures motionDeadlineGeneration == old(motionDeadlineGeneration) + 1
      ensures timers == old(timers) + {motionDeadlineGeneration}
    {
      motionDeadlineGeneration := motionDeadlineGeneration + 1;
      timers := timers + {motionDeadlineGeneration};
    }

    /** Outstanding timers stay in the set: a cancelled handle is not needed for safety. */
    method ClearMotionDeadline(fromDeadline: bool)
      requires Valid() && (fromDeadline ==> scheduledDeadlineStops > 0)
      modifies this`motionDeadlineGeneration, this`scheduledDeadlineStops
      ensures Valid() && forall g :: g in timers ==> g < motionDeadlineGeneration
      ensures motionDeadlineGeneration == old(motionDeadlineGeneration) + 1
      ensures scheduledDeadlineStops == old(scheduledDeadlineStops) - if fromDeadline then 1 else 0
    {
      motionDeadlineGeneration := motionDeadlineGeneration + 1;
      if fromDeadline {
        scheduledDeadlineStops := scheduledDeadlineStops - 1;
      }
    }

    /** The timer callback `_expire`. */
    method ExpireMotionDeadline(generation: nat)
      requires Valid() && Enabled(View(), TimerFire(generation))
      modifies this
      ensures Valid() && View() == Apply(old(View()), TimerFire(generation))
      ensures scheduledDeadlineStops
              == old(scheduledDeadlineStops) + if generation == motionDeadlineGeneration then 1 else 0
    {
      timers := timers - {generation};
      if generation != motionDeadlineGeneration {
        return;
      }
      scheduledDeadlineStops := scheduledDeadlineStops + 1;
    }

    method EnqueueHardwareCommand(queued: Command) returns (accepted: bool)
      requires Valid()
      modifies this`story, hardwareCommands
      ensures Valid()
      ensures var r := Q.AfterOffer(old(hardwareCommands.View()), queued);
              var told := TellAll(old(story), r.superseded, Superseded);
              && accepted == r.accepted && hardwareCommands.View() == r.state
              && story == if accepted then told else Tell(told, queued.ticket, Rejected("command_queue_full"))
    {
      var superseded;
      accepted, superseded := hardwareCommands.Offer(queued);
      EmitForEach(superseded, Superseded);
      if !accepted {
        EmitCommandResult(queued.ticket, Rejected("command_queue_full"));
      }
    }

    /** The tail of `_dispatch_hardware_command`: queue the command and report its admission. */
    method Admit(queued: Command)
      requires Valid()
      modifies this`story, hardwareCommands
      ensures Valid()
      ensures var r := Q.AfterOffer(old(hardwareCommands.View()), queued);
              && hardwareCommands.View() == r.state
              && story == Tell(TellAll(old(story), r.superseded, Superseded), queued.ticket,
                               if r.accepted then Accepted else Rejected("command_queue_full"))
    {
      var accepted := EnqueueHardwareCommand(queued);
      if accepted {
        EmitCommandResult(queued.ticket, Accepted);
      }
    }

    /** The head of `_dispatch_hardware_command`: number motion and arm its deadline. */
    method NumberCommand(motion: bool) returns (queued: Command)
      requires Valid()
      modifies this`latestMotionCommandId, this`motionDeadlineGeneration, this`timers, this`nextTicket
      ensures Valid() && nextTicket == old(nextTicket) + 1
      ensures latestMotionCommandId == old(latestMotionCommandId) + (if motion then 1 else 0)
      ensures View().deadline == if motion then Armed(old(View().deadline)) else old(View().deadline)
      ensures queued == Q.Command(old(nextTicket), if motion then Some(latestMotionCommandId) else None)
    {
      var motionCommandId: Option<nat> := None;
      if motion {
        latestMotionCommandId := latestMotionCommandId + 1;
        motionCommandId := Some(latestMotionCommandId);
        ArmMotionDeadline();
      }
      queued := Q.Command(nextTicket, motionCommandId);
      nextTicket := nextTicket + 1;
    }

    method DispatchHardwareCommand(motion: bool, supported: bool)
      requires Valid()
      modifies this, hardwareCommands
      ensures Valid()
      ensures supported ==> View() == AfterDispatch(old(View()), motion)
      ensures !supported ==>
                View() == old(View()).(next := old(nextTicket) + 1,
                                       story := Tell(old(story), old(nextTicket), Rejected("unsupported_command")))
    {
      if !supported {
        EmitCommandResult(nextTicket, Rejected("unsupported_command"));
        nextTicket := nextTicket + 1;
        return;
      }
      ghost var before := View();
      var command := NumberCommand(motion);
      Admit(command);
      DispatchFields(before, motion, View());
    }

    method ProcessCommand(motion: bool, supported: bool, mediaReady: bool)
      requires Valid()
      modifies this, hardwareCommands
      ensures Valid() && View() == Apply(old(View()), Receive(motion, supported, mediaReady))
    {
      if motion && safety.latched {
        EmitCommandResult(nextTicket, Rejected("safety_latched"));
        nextTicket := nextTicket + 1;
      } else if motion && !mediaReady {
        EmitCommandResult(nextTicket, Rejected("media_not_ready"));
        nextTicket := nextTicket + 1;
      } else {
        DispatchHardwareCommand(motion, supported);
      }
    }

    method CancelQueuedMotion()
      requires Valid()
      modifies this`story, hardwareCommands
      ensures Valid() && hardwareCommands.View() == Q.AfterCancel(old(hardwareCommands.View()))
      ensures story == TellAll(old(story), Q.Motion(old(hardwareCommands.pending)), CancelledByStop)
    {
      var queuedMotion := hardwareCommands.CancelMotion();
      EmitForEach(queuedMotion, CancelledByStop);
    }

    /** Latch the controller, raise the motion counter and register the call. */
    method Latch()
      requires Valid()
      modifies this`latestMotionCommandId, this`stopMark, this`stopper, safety, safety.cancelled
      ensures Valid() && safety.View() == S.Stopped(old(safety.View())) && safety.events == old(safety.events)
      ensures latestMotionCommandId == stopMark == old(latestMotionCommandId) + 1
      ensures stopper == old(stopper).(calls := old(stopper.calls) + [Queued(safety.epoch)])
    {
      safety.Stop();
      latestMotionCommandId := latestMotionCommandId + 1;
      stopMark := latestMotionCommandId;
      stopper := stopper.(calls := stopper.calls + [Queued(safety.epoch)]);
    }

    /** The synchronous prefix of `_trigger_hardware_stop`. */
    method LatchAndCancel(fromDeadline: bool)
      requires Valid() && (fromDeadline ==> scheduledDeadlineStops > 0)
      modifies this, hardwareCommands, safety, safety.cancelled
      ensures Valid() && View() == AfterStopPrefix(old(View()), fromDeadline)
      ensures safety.latched && safety.epoch == old(safety.epoch) + 1
      ensures latestMotionCommandId == old(latestMotionCommandId) + 1
      ensures motionDeadlineGeneration == old(motionDeadlineGeneration) + 1
    {
      ghost var before := View();
      Latch();
      CancelQueuedMotion();
      ClearMotionDeadline(fromDeadline);
    }

    /** `_trigger_hardware_stop` up to its first suspension. `contended` is the state of the
        asyncio stop lock. */
    method TriggerHardwareStop(fromDeadline: bool, contended: bool)
      requires Valid() && (fromDeadline ==> scheduledDeadlineStops > 0)
      requires contended == LockContended(stopper)
      modifies this, hardwareCommands, safety, safety.cancelled
      ensures Valid() && View() == Apply(old(View()), Stop(fromDeadline))
    {
      ghost var call := |stopper.calls|;
      LatchAndCancel(fromDeadline);
      if !contended {
        StopUnderLock(call);
      }
    }

    /** The stretch of `_trigger_hardware_stop` from taking the stop lock on. */
    method StopUnderLock(ghost call: nat)
      requires Valid() && call < |stopper.calls|
      modifies this`stopper, this`stopWorker, this`lastStopStatus
      ensures Valid() && stopper == AfterAcquire(old(stopper), call, safety.epoch)
      // An unfinished worker of an earlier call fails this one; otherwise it starts its own.
      ensures stopWorker == Some(Busy)
      ensures lastStopStatus == if old(stopWorker) == Some(Busy) then Failed else Pending
    {
      lastStopStatus := Pending;
      stopper := AfterAcquire(stopper, call, safety.epoch);
      if stopWorker.Some? && stopWorker.value.Busy? {
        lastStopStatus := Failed;
        return;
      }
      stopWorker := Some(Busy);
    }

    method ResumeWaitingStop(ghost call: nat)
      requires Valid() && Enabled(View(), AcquireStopLock(call))
      modifies this`stopper, this`stopWorker, this`lastStopStatus
      ensures Valid() && View() == Apply(old(View()), AcquireStopLock(call))
    {
      StopUnderLock(call);
    }

    method FinishStopWorker(ok: bool)
      requires Valid() && Enabled(View(), StopWorkerDone(ok))
      modifies this`stopper, this`stopWorker
      ensures Valid() && View() == Apply(old(View()), StopWorkerDone(ok))
    {
      stopper := Apply(View(), StopWorkerDone(ok)).stopper;
      stopWorker := Some(if ok then Succeeded else Raised);
    }

    /** The rest of `_trigger_hardware_stop`, after the shielded wait ended. */
    method FinishHardwareStop(ghost call: nat, timedOut: bool) returns (confirmed: bool)
      requires Valid() && Enabled(View(), StopReturn(call, timedOut))
      requires stopper.calls[call].worker == |stopper.workers| - 1
      modifies this`stopper, this`lastStopStatus
      ensures Valid() && View() == Apply(old(View()), StopReturn(call, timedOut))
      ensures stopper.calls[call].Returned? && stopper.calls[call].confirmed == confirmed
      ensures confirmed <==> !timedOut && old(stopWorker) == Some(Succeeded)
      ensures lastStopStatus
              == if timedOut then Timeout else if old(stopWorker) == Some(Succeeded) then Confirmed else Failed
    {
      stopper := AfterStopReturn(stopper, call, timedOut);
      if timedOut {
        lastStopStatus := Timeout;
        return false;
      }
      if stopWorker.value.Raised? {
        lastStopStatus := Failed;
        return false;
      }
      lastStopStatus := Confirmed;
      confirmed := true;
    }

    /** The refusals of `_reset_hardware_stop`; False is its RuntimeError. */
    method GuardReset() returns (allowed: bool)
      requires Valid()
      modifies this`stopper, this`resetsUnderWay
      ensures Valid() && allowed == Enabled(old(View()), ResetGuard)
      ensures View() == if allowed then Apply(old(View()), ResetGuard) else old(View())
      ensures allowed <==>
                old(stopWorker) != Some(Busy) && (old(lastStopStatus) == Never || old(lastStopStatus) == Confirmed)
    {
      if stopWorker.Some? && stopWorker.value.Busy? {
        return false;
      }
      if lastStopStatus != Never && lastStopStatus != Confirmed {
        return false;
      }
      resetsUnderWay := resetsUnderWay + 1;
      stopper := stopper.(resets := stopper.resets + 1);
      allowed := true;
    }

    /** The step of `_reset_hardware_stop` after the adapter hook returned. */
    method CommitReset()
      requires Valid() && Enabled(View(), ResetCommit)
      modifies this`stopper, this`resetsUnderWay, safety
      ensures Valid() && View() == Apply(old(View()), ResetCommit)
      ensures !safety.latched && safety.epoch == old(safety.epoch) + 1
    {
      safety.Reset();
      resetsUnderWay := resetsUnderWay - 1;
      stopper := stopper.(resets := stopper.resets - 1);
    }

    /** One turn of `_hardware_command_loop`; None means it goes on to wait for the event. */
    method PopQueued() returns (queued: Option<Command>)
      requires Valid() && hand.Idle?
      modifies this`hand, hardwareCommands
      ensures Valid()
      ensures queued.Some? <==> Enabled(old(View()), PopCommand)
      ensures queued.Some? ==> View() == Apply(old(View()), PopCommand) && hand == Popped(queued.value)
      ensures queued.None? ==> hand.Idle? && hardwareCommands.pending == []
    {
      queued := hardwareCommands.PopNowait();
      if queued.Some? {
        hand := Popped(queued.value);
      }
    }

    /** The first id check of `_run_hardware_command`. */
    method CheckBeforeLock(command: Command) returns (superseded: bool)
      requires Valid() && hand == Popped(command)
      modifies this`hand, this`story
      ensures Valid() && View() == Apply(old(View()), CheckQueued)
      ensures superseded <==> hand.Idle?
      ensures superseded <==> command.motionId.Some? && command.motionId.value < latestMotionCommandId
    {
      if command.motionId.Some? && command.motionId.value < latestMotionCommandId {
        EmitCommandResult(command.ticket, Superseded);
        hand := Idle;
        return true;
      }
      hand := Waiting(command);
      superseded := false;
    }

    /** From the second id check to `issue_permit`, with the hardware lock held. */
    method CheckUnderLock(command: Command, mediaReady: bool) returns (permit: Option<S.CommandPermit>)
      requires Valid() && hand == Waiting(command)
      modifies this`hand, this`story
      ensures Valid() && View() == AfterTakePermit(old(View()), mediaReady)
      ensures permit.Some? <==> hand.Running?
      ensures permit.Some? <==>
                (command.motionId.Some? ==> mediaReady && latestMotionCommandId <= command.motionId.value)
                && !safety.latched
      ensures permit.Some? ==> permit.value.BelongsTo(safety) && hand == Running(command, permit.value.View(), Starting)
    {
      permit := None;
      if command.motionId.Some? && command.motionId.value < latestMotionCommandId {
        EmitCommandResult(command.ticket, Superseded);
        hand := Idle;
      } else if command.motionId.Some? && !mediaReady {
        EmitCommandResult(command.ticket, Rejected("media_not_ready"));
        hand := Idle;
      } else {
        permit := safety.IssuePermit();
        if permit.Some? {
          hand := Running(command, permit.value.View(), Starting);
        } else {
          EmitCommandResult(command.ticket, Rejected("safety_latched"));
          hand := Idle;
        }
      }
    }

    // ---- The worker thread: one method per step between two interruptions ----

    /** The permit of the worker in progress. */
    ghost predicate Holds(permit: S.CommandPermit)
      reads this, safety, safety.events
    {
      hand.Running? && permit.BelongsTo(safety) && hand.permit == permit.View()
    }

    /** What `ensure_active` tests, on the fields of permit and controller. */
    predicate PermitHolds(permit: S.CommandPermit)
      reads safety, permit.cancelled
    {
      !permit.cancelled.isSet && !safety.latched && safety.epoch == permit.epoch
    }

    /** The start of `BaseHardware.execute`; False means the adapter is not called. */
    method BeginExecute(permit: S.CommandPermit, supported: bool) returns (entered: bool)
      requires Valid() && Holds(permit) && hand.phase == Starting
      modifies this`hand
      ensures Valid() && View() == AfterBegin(old(View()), supported)
      ensures entered <==> hand.Running?
      ensures entered <==> PermitHolds(permit) && supported
    {
      var active := permit.EnsureActive();
      if !active {
        hand := Finished(hand.command, StoppedByLatch);
      } else if !supported {
        hand := Finished(hand.command, AdapterError);
      } else {
        hand := hand.(phase := Body(false));
      }
      entered := active && supported;
    }

    /** The first half of `run_if_epoch_active`; True lets the write go ahead. */
    method CheckBeforeWrite(permit: S.CommandPermit) returns (allowed: bool)
      requires Valid() && Holds(permit) && hand.phase.Body?
      modifies this`hand
      ensures Valid() && View() == AfterGuardCheck(old(View()))
      ensures allowed <==> !safety.latched && safety.epoch == permit.epoch
      ensures hand == old(hand).(phase := if allowed then Checked else Body(true))
    {
      allowed := safety.IsEpochActive(permit.epoch);
      hand := hand.(phase := if allowed then Checked else Body(true));
    }

    /** The second half of `run_if_epoch_active`; False is HardwareCommandCancelled. */
    method CheckAfterWrite(permit: S.CommandPermit) returns (current: bool)
      requires Valid() && Holds(permit) && hand.phase == Wrote
      modifies this`hand
      ensures Valid() && View() == AfterRecheck(old(View()))
      ensures current <==> !safety.latched && safety.epoch == permit.epoch
      ensures hand == old(hand).(phase := Body(!current))
    {
      current := safety.IsEpochActive(permit.epoch);
      hand := hand.(phase := Body(!current));
    }

    /** One check of `CommandPermit.wait`; False is HardwareCommandCancelled. */
    method CheckWhileSleeping(permit: S.CommandPermit) returns (current: bool)
      requires Valid() && Holds(permit) && hand.phase.Body?
      modifies this`hand
      ensures Valid() && View() == AfterSleep(old(View()))
      ensures current <==> !safety.latched && safety.epoch == permit.epoch && !permit.cancelled.isSet
      ensures hand == old(hand).(phase := Body(old(hand).phase.failed || !current))
    {
      current := permit.EnsureActive();
      hand := hand.(phase := Body(hand.phase.failed || !current));
    }

    /** The end of `BaseHardware.execute` after the adapter returned. */
    method FinishExecute(permit: S.CommandPermit) returns (verdict: Verdict)
      requires Valid() && Holds(permit) && hand.phase.Body?
      modifies this`hand
      ensures Valid() && View() == AfterReturn(old(View()))
      ensures hand == Finished(old(hand.command), verdict)
      ensures verdict == if PermitHolds(permit) then Done else StoppedByLatch
    {
      var active := permit.EnsureActive();
      verdict := if active then Done else StoppedByLatch;
      hand := Finished(hand.command, verdict);
    }

    /** The result of `_run_hardware_command` once the worker thread has returned. */
    method EmitWorkerResult(command: Command, verdict: Verdict)
      requires Valid() && hand == Finished(command, verdict)
      modifies this`hand, this`story
      ensures Valid() && View() == Report(old(View()), command, VerdictOutcome(verdict))
      ensures story == Tell(old(story), command.ticket,
                            if verdict.Done? then Completed
                            else if verdict.StoppedByLatch? then Rejected("cancelled_by_stop")
                            else Rejected("hardware_error"))
    {
      match verdict {
        case Done => EmitCommandResult(command.ticket, Completed);
        case StoppedByLatch => EmitCommandResult(command.ticket, Rejected("cancelled_by_stop"));
        case AdapterError => EmitCommandResult(command.ticket, Rejected("hardware_error"));
      }
      hand := Idle;
    }

    // ---- One command from the queue to its result ----

    /** `BaseHardware.execute` around an adapter that makes the steps of `script` and then returns or,
        if `fails`, raises; a raising write ends it. Nothing else happens meanwhile. */
    method Execute(permit: S.CommandPermit, supported: bool, script: seq<AdapterStep>, fails: bool)
      returns (verdict: Verdict)
      requires Valid() && Holds(permit) && hand.phase == Starting && Active(View())
      modifies this`hand
      ensures Valid() && hand == Finished(old(hand.command), verdict)
      ensures verdict == QuietVerdict(supported, script, fails)
    {
      var entered := BeginExecute(permit, supported);
      if !entered {
        return AdapterError;
      }
      var i := 0;
      while i < |script|
        invariant 0 <= i <= |script| && Valid() && Holds(permit)
        invariant hand == old(hand).(phase := Body(false)) && !SomeWriteRaises(script[..i])
      {
        assert script[..i+1] == script[..i] + [script[i]];
        if script[i].InterruptibleSleep? {
          var current := CheckWhileSleeping(permit);
        } else {
          var raised := RunGuardedWrite(permit, script[i].raises);
          if raised {
            hand := Finished(hand.command, AdapterError);
            return AdapterError;
          }
        }
        i := i + 1;
      }
      assert script[..i] == script;
      if fails {
        hand := Finished(hand.command, AdapterError);
        return AdapterError;
      }
      verdict := FinishExecute(permit);
    }

    /** `guarded_write`: check, operation, check. True is the operation's own exception, after which
        there is no second check. */
    method RunGuardedWrite(permit: S.CommandPermit, raises: bool) returns (raised: bool)
      requires Valid() && Holds(permit) && hand.phase == Body(false) && Active(View())
      modifies this`hand
      ensures Valid() && Holds(permit) && hand == old(hand) && raised == raises
    {
      var allowed := CheckBeforeWrite(permit);
      hand := hand.(phase := if raises then Body(false) else Wrote);
      if raises {
        return true;
      }
      var current := CheckAfterWrite(permit);
      raised := false;
    }

    /** `_run_hardware_command` with nothing else happening meanwhile: the steps above in the order of
        the source, and exactly one result told. */
    method RunHardwareCommand(
        command: Command, mediaReady: bool, supported: bool, script: seq<AdapterStep>, fails: bool)
      requires Valid() && hand == Popped(command)
      modifies this`hand, this`story
      ensures Valid() && View() == QuietEnd(old(View()), command, mediaReady, supported, script, fails)
      ensures Path(old(View()), CommandEvents(old(View()), command, mediaReady, supported, script, fails), View())
    {
      QuietCommandIsAPath(View(), command, mediaReady, supported, script, fails);
      var superseded := CheckBeforeLock(command);
      if superseded {
        return;
      }
      var permit := CheckUnderLock(command, mediaReady);
      if permit.None? {
        return;
      }
      var verdict := Execute(permit.value, supported, script, fails);
      EmitWorkerResult(command, verdict);
    }
  }
}
