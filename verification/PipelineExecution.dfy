/** What `completed` means, and how much a stale worker can still write. */
module PipelineExecution {
  import opened Prelude
  import Q = CommandQueue
  import S = Safety
  import opened Pipeline

  /** The events that change the safety epoch. */
  predicate Disturbs(e: Event) { e.Stop? || e.ResetCommit? }

  function Disturbances(events: seq<Event>): nat {
    if events == [] then 0
    else Disturbances(events[1..]) + if Disturbs(events[0]) then 1 else 0
  }

  /** The epoch counts stops and resets exactly, so equal epochs exclude any change in between. */
  lemma {:induction false} EpochCountsDisturbances(s: State, events: seq<Event>, t: State)
    requires Path(s, events, t)
    ensures t.latch.epoch == s.latch.epoch + Disturbances(events)
    decreases |events|
  {
    if events != [] {
      EpochCountsDisturbances(Apply(s, events[0]), events[1..], t);
    }
  }

  /** Apart from a committed reset, nothing releases the latch. */
  lemma {:induction false} LatchHoldsUntilReset(s: State, events: seq<Event>, t: State)
    requires Path(s, events, t) && s.latch.latched
    requires forall i :: 0 <= i < |events| ==> !events[i].ResetCommit?
    ensures t.latch.latched
    decreases |events|
  {
    if events != [] {
      LatchHoldsUntilReset(Apply(s, events[0]), events[1..], t);
    }
  }

  // ---- Permits ----

  ghost predicate PermitInv(s: State) {
    && S.Inv(s.latch)
    && (s.hand.Running? ==>
          && s.hand.permit.epoch <= s.latch.epoch
          && (s.hand.permit.epoch == s.latch.epoch ==> !s.latch.latched && s.hand.permit.event == s.latch.event))
  }

  lemma {:induction false} PermitRun(capacity: nat, events: seq<Event>, s: State)
    requires Run(capacity, events) == Some(s)
    ensures PermitInv(s)
  {
    if events != [] {
      var front := events[..|events|-1];
      PermitRun(capacity, front, Run(capacity, front).value);
      PermitStep(Run(capacity, front).value, events[|events|-1]);
    }
  }

  lemma PermitStep(s: State, e: Event)
    requires Enabled(s, e) && PermitInv(s)
    ensures PermitInv(Apply(s, e))
  {
  }

  // ---- `completed` ----

  /** In the run `events`, the event at `i` issued the permit of ticket `u`. */
  ghost predicate PermitAt(capacity: nat, events: seq<Event>, i: nat, u: nat) {
    && i < |events| && events[i].TakePermit?
    && var r := Run(capacity, events[..i+1]);
       r.Some? && r.value.hand.Running? && r.value.hand.command.ticket == u
  }

  /** In the run `events`, the event at `f` is the successful final check of ticket `u`. */
  ghost predicate FinalCheckAt(capacity: nat, events: seq<Event>, f: nat, u: nat) {
    && f < |events| && events[f].Return?
    && var r := Run(capacity, events[..f+1]);
       r.Some? && r.value.hand.Finished? && r.value.hand.command.ticket == u && r.value.hand.verdict.Done?
  }

  /** No stop and no reset strictly between positions `i` and `f`. */
  ghost predicate Undisturbed(events: seq<Event>, i: nat, f: nat) {
    forall j :: i < j < f && j < |events| ==> !Disturbs(events[j])
  }

  ghost predicate RanUndisturbed(capacity: nat, events: seq<Event>, u: nat) {
    exists i: nat, f: nat ::
      i < f && PermitAt(capacity, events, i, u) && FinalCheckAt(capacity, events, f, u) && Undisturbed(events, i, f)
  }

  /** Facts about positions of a run stay facts when the run is longer. */
  lemma RanUndisturbedGrows(capacity: nat, events: seq<Event>, e: Event, u: nat)
    requires RanUndisturbed(capacity, events, u)
    ensures RanUndisturbed(capacity, events + [e], u)
  {
    var i: nat, f: nat :|
      i < f && PermitAt(capacity, events, i, u) && FinalCheckAt(capacity, events, f, u) && Undisturbed(events, i, f);
    assert (events + [e])[..i+1] == events[..i+1] && (events + [e])[..f+1] == events[..f+1];
    assert PermitAt(capacity, events + [e], i, u) && FinalCheckAt(capacity, events + [e], f, u);
    assert Undisturbed(events + [e], i, f);
  }

  /** A worker whose permit is of the current epoch has not been disturbed since its permit. */
  lemma {:induction false} RunningUndisturbed(capacity: nat, events: seq<Event>, s: State) returns (i: nat)
    requires Run(capacity, events) == Some(s)
    requires s.hand.Running? && s.hand.permit.epoch == s.latch.epoch
    ensures PermitAt(capacity, events, i, s.hand.command.ticket) && Undisturbed(events, i, |events|)
  {
    var front, e := events[..|events|-1], events[|events|-1];
    var r := Run(capacity, front).value;
    PermitRun(capacity, front, r);
    RunningStep(r, e);
    if e.TakePermit? {
      i := |events| - 1;
      PermitAtEnd(capacity, events, s);
    } else {
      var u := s.hand.command.ticket;
      i := RunningUndisturbed(capacity, front, r);
      PermitAtGrows(capacity, front, e, i, u);
      assert front + [e] == events;
    }
  }

  lemma PermitAtEnd(capacity: nat, events: seq<Event>, s: State)
    requires Run(capacity, events) == Some(s) && events != [] && events[|events|-1].TakePermit?
    requires s.hand.Running?
    ensures PermitAt(capacity, events, |events| - 1, s.hand.command.ticket)
  {
    assert events[..|events|] == events;
  }

  lemma PermitAtGrows(capacity: nat, front: seq<Event>, e: Event, i: nat, u: nat)
    requires PermitAt(capacity, front, i, u) && Undisturbed(front, i, |front|) && !Disturbs(e)
    ensures PermitAt(capacity, front + [e], i, u) && Undisturbed(front + [e], i, |front| + 1)
  {
    assert (front + [e])[..i+1] == front[..i+1];
  }

  /** A current worker was current before the event, unless the event issued its permit. */
  lemma RunningStep(r: State, e: Event)
    requires Enabled(r, e) && PermitInv(r)
    requires Apply(r, e).hand.Running? && Apply(r, e).hand.permit.epoch == Apply(r, e).latch.epoch
    ensures !e.TakePermit? ==>
              && r.hand.Running? && r.hand.permit.epoch == r.latch.epoch
              && r.hand.command == Apply(r, e).hand.command
    ensures !Disturbs(e)
  {
  }

  lemma {:induction false} DoneRanUndisturbed(capacity: nat, events: seq<Event>, s: State)
    requires Run(capacity, events) == Some(s)
    requires s.hand.Finished? && s.hand.verdict.Done?
    ensures RanUndisturbed(capacity, events, s.hand.command.ticket)
  {
    var front, e := events[..|events|-1], events[|events|-1];
    var r := Run(capacity, front).value;
    assert events == front + [e];
    if e.Return? {
      var i := RunningUndisturbed(capacity, front, r);
      DoneAtReturn(capacity, events, s, i);
    } else {
      DoneRanUndisturbed(capacity, front, r);
      RanUndisturbedGrows(capacity, front, e, s.hand.command.ticket);
    }
  }

  lemma DoneAtReturn(capacity: nat, events: seq<Event>, s: State, i: nat)
    requires events != [] && events[|events|-1].Return? && Run(capacity, events) == Some(s)
    requires s.hand.Finished? && s.hand.verdict.Done?
    requires var front := events[..|events|-1];
             PermitAt(capacity, front, i, s.hand.command.ticket) && Undisturbed(front, i, |front|)
    ensures RanUndisturbed(capacity, events, s.hand.command.ticket)
  {
    var u, front := s.hand.command.ticket, events[..|events|-1];
    assert events[..i+1] == front[..i+1] && events[..|events|] == events;
    assert PermitAt(capacity, events, i, u) && FinalCheckAt(capacity, events, |events| - 1, u);
    assert Undisturbed(events, i, |events| - 1);
  }

  ghost predicate Told(story: map<nat, seq<Outcome>>, u: nat, o: Outcome) {
    u in story && o in story[u]
  }

  lemma {:induction false} TellAllTells(
      story: map<nat, seq<Outcome>>, commands: seq<Command>, o: Outcome, u: nat, p: Outcome)
    requires Told(TellAll(story, commands, o), u, p) && p != o
    ensures Told(story, u, p)
    decreases commands
  {
    if commands != [] {
      TellAllTells(Tell(story, commands[0].ticket, o), commands[1..], o, u, p);
    }
  }

  lemma NewCompletion(s: State, e: Event, u: nat)
    requires Enabled(s, e)
    requires Told(Apply(s, e).story, u, Completed) && !Told(s.story, u, Completed)
    ensures e.Emit? && s.hand.verdict.Done? && s.hand.command.ticket == u
  {
    match e {
      case Receive(motion, _, _) =>
        var command := Q.Command(s.next, if motion then Some(s.latest + 1) else None);
        var superseded := Q.AfterOffer(s.queue, command).superseded;
        if Told(TellAll(s.story, superseded, Superseded), u, Completed) {
          TellAllTells(s.story, superseded, Superseded, u, Completed);
        }
      case Stop(_) => TellAllTells(s.story, Q.Motion(s.queue.pending), CancelledByStop, u, Completed);
      case _ =>
    }
  }

  /**
   Main result: whenever `completed` has been reported for a command, the run contains a permit for
   it and a later successful final check with no stop and no reset anywhere in between.
   */
  lemma {:induction false} CompletedMeansUndisturbed(capacity: nat, events: seq<Event>, s: State, u: nat)
    requires Run(capacity, events) == Some(s)
    requires Told(s.story, u, Completed)
    ensures RanUndisturbed(capacity, events, u)
  {
    if events != [] {
      var front, e := events[..|events|-1], events[|events|-1];
      var r := Run(capacity, front).value;
      assert events == front + [e];
      if Told(r.story, u, Completed) {
        CompletedMeansUndisturbed(capacity, front, r, u);
      } else {
        NewCompletion(r, e, u);
        DoneRanUndisturbed(capacity, front, r);
      }
      RanUndisturbedGrows(capacity, front, e, u);
    }
  }

  // ---- The state `cancelled_by_stop` ----

  lemma {:induction false} TellAllReaches(story: map<nat, seq<Outcome>>, commands: seq<Command>, o: Outcome, u: nat)
    ensures Told(TellAll(story, commands, o), u, o) <==> Told(story, u, o) || exists c :: c in commands && c.ticket == u
    decreases commands
  {
    if commands != [] {
      TellAllReaches(Tell(story, commands[0].ticket, o), commands[1..], o, u);
      assert forall c :: c in commands <==> c == commands[0] || c in commands[1..];
    }
  }

  /** Main result, both directions: a command is told the state `cancelled_by_stop` if and only if a
      stop finds it, a motion command, in the queue. One that a stop cancels while it runs is told
      `rejected` instead, with that word as its code. */
  lemma CancelledStateIff(s: State, e: Event, u: nat)
    requires Enabled(s, e) && !Told(s.story, u, CancelledByStop)
    ensures Told(Apply(s, e).story, u, CancelledByStop)
            <==> e.Stop? && exists c :: c in s.queue.pending && c.motionId.Some? && c.ticket == u
  {
    Q.FilterMembers(s.queue.pending);
    match e {
      case Receive(motion, _, _) =>
        var command := Q.Command(s.next, if motion then Some(s.latest + 1) else None);
        var superseded := Q.AfterOffer(s.queue, command).superseded;
        if Told(TellAll(s.story, superseded, Superseded), u, CancelledByStop) {
          TellAllTells(s.story, superseded, Superseded, u, CancelledByStop);
        }
      case Stop(_) => TellAllReaches(s.story, Q.Motion(s.queue.pending), CancelledByStop, u);
      case _ =>
    }
  }

  /** While no result is emitted, the worker keeps its command and its permit. */
  lemma {:induction false} PermitIsKept(s: State, events: seq<Event>, t: State)
    requires (s.hand.Running? || s.hand.Finished?) && Path(s, events, t) && t.hand.Running?
    requires forall i :: 0 <= i < |events| ==> !events[i].Emit?
    ensures s.hand.Running? && t.hand.command == s.hand.command && t.hand.permit == s.hand.permit
    decreases |events|
  {
    if events != [] {
      PermitIsKept(Apply(s, events[0]), events[1..], t);
    }
  }

  /** The events of a run from the one that issued the permit, without a result in between. */
  ghost predicate SincePermit(
      capacity: nat, before: seq<Event>, s: State, mediaReady: bool, events: seq<Event>, t: State)
  {
    && Run(capacity, before + [TakePermit(mediaReady)]) == Some(s) && s.hand.Running?
    && Path(s, events, t) && t.hand.Running?
    && forall i :: 0 <= i < |events| ==> !events[i].Emit?
  }

  lemma ActiveIffUndisturbed(
      capacity: nat, before: seq<Event>, s: State, mediaReady: bool, events: seq<Event>, t: State)
    requires SincePermit(capacity, before, s, mediaReady, events, t)
    ensures t.hand.command == s.hand.command
    ensures Active(t) <==> Disturbances(events) == 0
    ensures S.EpochActive(t.latch, t.hand.permit.epoch) <==> Disturbances(events) == 0
  {
    assert (before + [TakePermit(mediaReady)])[..|before|] == before;
    PermitIsKept(s, events, t);
    EpochCountsDisturbances(s, events, t);
    PermitRun(capacity, before + [TakePermit(mediaReady)], s);
    PermitPath(s, events, t);
  }

  /** Main result, both directions: from the permit on, the final check of an execution succeeds if
      and only if not a single stop or reset happened in between. */
  lemma FinalCheckIsExact(
      capacity: nat, before: seq<Event>, s: State, mediaReady: bool, events: seq<Event>, t: State)
    requires SincePermit(capacity, before, s, mediaReady, events, t) && InBody(t)
    ensures Apply(t, Return).hand
            == Finished(s.hand.command, if Disturbances(events) == 0 then Done else StoppedByLatch)
  {
    ActiveIffUndisturbed(capacity, before, s, mediaReady, events, t);
  }

  /** Main result, both directions, for the checks on the way: a sleep, the check before a write and the
      check after it notice exactly whether a stop or a reset happened since the permit. */
  lemma AdapterChecksAreExact(
      capacity: nat, before: seq<Event>, s: State, mediaReady: bool, events: seq<Event>, t: State)
    requires SincePermit(capacity, before, s, mediaReady, events, t)
    ensures InBody(t) ==> InPhase(Apply(t, Sleep), Body(t.hand.phase.failed || Disturbances(events) > 0))
    ensures InBody(t) ==> InPhase(Apply(t, GuardCheck), if Disturbances(events) == 0 then Checked else Body(true))
    ensures InPhase(t, Wrote) ==> InPhase(Apply(t, Recheck), Body(Disturbances(events) > 0))
  {
    ActiveIffUndisturbed(capacity, before, s, mediaReady, events, t);
  }

  /** And for the check on entry: the adapter is entered exactly when nothing happened since the permit
      and the command is supported. */
  lemma EntryCheckIsExact(
      capacity: nat, before: seq<Event>, s: State, mediaReady: bool, events: seq<Event>, t: State, supported: bool)
    requires SincePermit(capacity, before, s, mediaReady, events, t) && InPhase(t, Starting)
    ensures var r := Apply(t, Begin(supported));
            if Disturbances(events) > 0 then r.hand == Finished(s.hand.command, StoppedByLatch)
            else if supported then InPhase(r, Body(false)) && r.hand.command == s.hand.command
            else r.hand == Finished(s.hand.command, AdapterError)
  {
    ActiveIffUndisturbed(capacity, before, s, mediaReady, events, t);
  }

  /** What the command loop does with a command before its execution, and what it tells. */
  lemma LoopStepsAreExact(s: State, mediaReady: bool)
    ensures Enabled(s, PopCommand) <==> s.hand.Idle? && s.queue.pending != []
    ensures Enabled(s, PopCommand) ==>
              var r := Apply(s, PopCommand);
              r.hand == Popped(s.queue.pending[0]) && r.queue.pending == s.queue.pending[1..] && r.story == s.story
    ensures s.hand.Popped? ==>
              var c, r := s.hand.command, Apply(s, CheckQueued);
              if c.motionId.Some? && c.motionId.value < s.latest
              then r == s.(hand := Idle, story := Tell(s.story, c.ticket, Superseded))
              else r == s.(hand := Waiting(c))
    ensures s.hand.Waiting? ==>
              var c, r := s.hand.command, Apply(s, TakePermit(mediaReady));
              if c.motionId.Some? && c.motionId.value < s.latest
              then r == s.(hand := Idle, story := Tell(s.story, c.ticket, Superseded))
              else if c.motionId.Some? && !mediaReady
              then r == s.(hand := Idle, story := Tell(s.story, c.ticket, Rejected("media_not_ready")))
              else if s.latch.latched
              then r == s.(hand := Idle, story := Tell(s.story, c.ticket, Rejected("safety_latched")))
              else r == s.(hand := Running(c, S.Permit(s.latch.epoch, s.latch.event), Starting))
  {
  }

  /** The worker's own steps: the operation, an exception of the adapter, and that no step of the worker
      touches anything but the hand. */
  lemma WorkerStepsAreExact(s: State, e: Event, stopped: bool)
    requires Enabled(s, e)
    ensures InPhase(s, Checked) ==>
              InPhase(Apply(s, Operate(true)), Body(false)) && InPhase(Apply(s, Operate(false)), Wrote)
    ensures InBody(s) && (stopped ==> s.hand.phase.failed) ==>
              Apply(s, AdapterRaise(stopped)).hand
              == Finished(s.hand.command, if stopped then StoppedByLatch else AdapterError)
    ensures e.Begin? || e.GuardCheck? || e.Operate? || e.Recheck? || e.Sleep? || e.AdapterRaise? || e.Return? ==>
              s.hand.Running? && Apply(s, e) == s.(hand := Apply(s, e).hand)
              && (Apply(s, e).hand.Running? ==>
                    Apply(s, e).hand == Running(s.hand.command, s.hand.permit, Apply(s, e).hand.phase))
  {
  }

  /** How an execution ends is what its command is told. */
  lemma EmitIsExact(s: State)
    requires Enabled(s, Emit)
    ensures var u, r := s.hand.command.ticket, Apply(s, Emit);
            && r.hand.Idle? && r.queue == s.queue && r.story.Keys == s.story.Keys + {u}
            && r.story[u] == (if u in s.story then s.story[u] else [])
                             + [if s.hand.verdict.Done? then Completed
                                else if s.hand.verdict.StoppedByLatch? then Rejected("cancelled_by_stop")
                                else Rejected("hardware_error")]
            && (forall v :: v in s.story && v != u ==> r.story[v] == s.story[v])
  {
  }

  lemma {:induction false} PermitPath(s: State, events: seq<Event>, t: State)
    requires PermitInv(s) && Path(s, events, t)
    ensures PermitInv(t)
    decreases |events|
  {
    if events != [] {
      PermitStep(s, events[0]);
      PermitPath(Apply(s, events[0]), events[1..], t);
    }
  }

  // ---- Writes after a stop ----

  function Writes(events: seq<Event>): nat {
    if events == [] then 0
    else Writes(events[1..]) + if events[0].Operate? then 1 else 0
  }

  /** The worker, if any, holds a permit of an older epoch. */
  ghost predicate StaleWorker(s: State) {
    s.hand.Running? ==> s.hand.permit.epoch < s.latch.epoch
  }

  /** One write for a worker already past its check, none for any other. */
  function WritesLeft(s: State): nat {
    if InPhase(s, Checked) then 1 else 0
  }

  lemma {:induction false} LatchedWrites(s: State, events: seq<Event>, t: State)
    requires s.latch.latched && StaleWorker(s) && Path(s, events, t)
    requires forall i :: 0 <= i < |events| ==> !events[i].ResetCommit?
    ensures Writes(events) <= WritesLeft(s)
    decreases |events|
  {
    if events != [] {
      LatchedWrites(Apply(s, events[0]), events[1..], t);
    }
  }

  /** Main result: after any stop in any run, and until a reset commits, at most one guarded write
      still happens, and only if a worker had already passed its check when the stop came. */
  lemma AtMostOneWriteAfterStop(
      capacity: nat, before: seq<Event>, s: State, fromDeadline: bool, events: seq<Event>, t: State)
    requires Run(capacity, before) == Some(s)
    requires Path(s, [Stop(fromDeadline)] + events, t)
    requires forall i :: 0 <= i < |events| ==> !events[i].ResetCommit?
    ensures Writes(events) <= WritesLeft(s) <= 1
  {
    PathCons(s, Stop(fromDeadline), events, t);
    PermitRun(capacity, before, s);
    LatchedWrites(Apply(s, Stop(fromDeadline)), events, t);
  }

  /** The adapter let another exception than the cancellation through. */
  ghost predicate AdapterFailed(events: seq<Event>) {
    exists i :: 0 <= i < |events| && events[i] == AdapterRaise(false)
  }

  lemma AdapterFailedHead(events: seq<Event>)
    requires events != []
    ensures AdapterFailed(events) <==> events[0] == AdapterRaise(false) || AdapterFailed(events[1..])
  {
    assert forall i :: 1 <= i < |events| ==> events[i] == events[1..][i-1];
  }

  /** Main result, for one execution across any number of resets: a worker whose permit is stale
      writes at most once more before its result is reported, and only if it was already past its
      check; the check after that write is cancelled; and the execution ends in `cancelled_by_stop`
      unless the adapter raised something else, never in `completed`. */
  lemma {:induction false} StaleExecution(s: State, events: seq<Event>, t: State)
    requires s.hand.Running? && StaleWorker(s) && Path(s, events, t)
    requires forall i :: 0 <= i < |events| ==> !events[i].Emit?
    ensures Writes(events) <= WritesLeft(s)
    ensures (t.hand.Running? || t.hand.Finished?) && t.hand.command == s.hand.command
    ensures InPhase(t, Wrote) ==> AfterRecheck(t).hand.phase == Body(true)
    ensures t.hand.Finished? ==> t.hand.verdict == if AdapterFailed(events) then AdapterError else StoppedByLatch
    decreases |events|
  {
    if events != [] {
      AdapterFailedHead(events);
      var r := Apply(s, events[0]);
      if r.hand.Running? {
        StaleExecution(r, events[1..], t);
      } else {
        FinishedStays(r, events[1..], t);
      }
    }
  }

  lemma {:induction false} FinishedStays(s: State, events: seq<Event>, t: State)
    requires s.hand.Finished? && Path(s, events, t)
    requires forall i :: 0 <= i < |events| ==> !events[i].Emit?
    ensures t.hand == s.hand && Writes(events) == 0 && !AdapterFailed(events)
    decreases |events|
  {
    if events != [] {
      AdapterFailedHead(events);
      FinishedStays(Apply(s, events[0]), events[1..], t);
    }
  }
}
