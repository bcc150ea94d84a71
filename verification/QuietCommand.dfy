/** One hardware command from the queue to its result while nothing else happens. */
module QuietCommand {
  import S = Safety
  import opened Pipeline

  /** What an adapter does with the permit it is given. */
  datatype AdapterStep = GuardedWrite(raises: bool) | InterruptibleSleep

  predicate SomeWriteRaises(script: seq<AdapterStep>) { GuardedWrite(true) in script }

  function QuietVerdict(supported: bool, script: seq<AdapterStep>, fails: bool): Verdict {
    if !supported || fails || SomeWriteRaises(script) then AdapterError else Done
  }

  /** The result of a command whose run nothing interrupts. */
  function QuietOutcome(s: State, command: Command, mediaReady: bool, verdict: Verdict): Outcome {
    if Stale(s, command) then Superseded
    else if command.motionId.Some? && !mediaReady then Rejected("media_not_ready")
    else if s.latch.latched then Rejected("safety_latched")
    else VerdictOutcome(verdict)
  }

  /** The events of the adapter's code: its steps in order, until a write raises or the script ends. */
  function BodyEvents(script: seq<AdapterStep>, fails: bool): seq<Event> {
    if script == [] then [if fails then AdapterRaise(false) else Return]
    else if script[0].InterruptibleSleep? then [Sleep] + BodyEvents(script[1..], fails)
    else if script[0].raises then [GuardCheck] + ([Operate(true)] + [AdapterRaise(false)])
    else [GuardCheck] + ([Operate(false)] + ([Recheck] + BodyEvents(script[1..], fails)))
  }

  function ExecuteEvents(supported: bool, script: seq<AdapterStep>, fails: bool): seq<Event> {
    [Begin(supported)] + if supported then BodyEvents(script, fails) else []
  }

  /** The events of `_run_hardware_command`, in the order of the source. */
  function CommandEvents(s: State, command: Command, mediaReady: bool, supported: bool,
                         script: seq<AdapterStep>, fails: bool): seq<Event> {
    [CheckQueued]
    + if Stale(s, command) then []
      else [TakePermit(mediaReady)]
           + if (command.motionId.Some? && !mediaReady) || s.latch.latched then []
             else ExecuteEvents(supported, script, fails) + [Emit]
  }

  lemma {:induction false} BodyPath(s: State, script: seq<AdapterStep>, fails: bool)
    requires InPhase(s, Body(false)) && Active(s)
    ensures Path(s, BodyEvents(script, fails), s.(hand := Finished(s.hand.command, QuietVerdict(true, script, fails))))
    decreases |script|
  {
    if script == [] {
      OneEvent(s, if fails then AdapterRaise(false) else Return);
    } else if script[0].InterruptibleSleep? {
      BodyPath(s, script[1..], fails);
      PathCons(s, Sleep, BodyEvents(script[1..], fails),
               s.(hand := Finished(s.hand.command, QuietVerdict(true, script, fails))));
    } else if script[0].raises {
      RaisingWritePath(s);
    } else {
      BodyPath(s, script[1..], fails);
      WritePath(s, BodyEvents(script[1..], fails),
                s.(hand := Finished(s.hand.command, QuietVerdict(true, script, fails))));
    }
  }

  lemma OneEvent(s: State, e: Event)
    requires Enabled(s, e)
    ensures Path(s, [e], Apply(s, e))
  {
    PathCons(s, e, [], Apply(s, e));
  }

  lemma RaisingWritePath(s: State)
    requires InPhase(s, Body(false)) && Active(s)
    ensures Path(s, [GuardCheck] + ([Operate(true)] + [AdapterRaise(false)]),
                 s.(hand := Finished(s.hand.command, AdapterError)))
  {
    var checked := Apply(s, GuardCheck);
    var raised := Apply(checked, Operate(true));
    OneEvent(raised, AdapterRaise(false));
    PathCons(checked, Operate(true), [AdapterRaise(false)], Apply(raised, AdapterRaise(false)));
    PathCons(s, GuardCheck, [Operate(true)] + [AdapterRaise(false)], Apply(raised, AdapterRaise(false)));
  }

  lemma WritePath(s: State, rest: seq<Event>, t: State)
    requires InPhase(s, Body(false)) && Active(s) && Path(s, rest, t)
    ensures Path(s, [GuardCheck] + ([Operate(false)] + ([Recheck] + rest)), t)
  {
    var checked := Apply(s, GuardCheck);
    var wrote := Apply(checked, Operate(false));
    PathCons(wrote, Recheck, rest, t);
    PathCons(checked, Operate(false), [Recheck] + rest, t);
    PathCons(s, GuardCheck, [Operate(false)] + ([Recheck] + rest), t);
  }

  lemma ExecutePath(s: State, supported: bool, script: seq<AdapterStep>, fails: bool)
    requires InPhase(s, Starting) && Active(s)
    ensures Path(s, ExecuteEvents(supported, script, fails),
                 s.(hand := Finished(s.hand.command, QuietVerdict(supported, script, fails))))
  {
    var t := s.(hand := Finished(s.hand.command, QuietVerdict(supported, script, fails)));
    var begun := Apply(s, Begin(supported));
    if supported {
      BodyPath(begun, script, fails);
    }
    PathCons(s, Begin(supported), if supported then BodyEvents(script, fails) else [], t);
  }

  lemma {:induction false} PathJoin(s: State, first: seq<Event>, t: State, second: seq<Event>, u: State)
    requires Path(s, first, t) && Path(t, second, u)
    ensures Path(s, first + second, u)
    decreases |first|
  {
    if first == [] {
      assert first + second == second;
    } else {
      PathJoin(Apply(s, first[0]), first[1..], t, second, u);
      assert (first + second)[1..] == first[1..] + second;
    }
  }

  function QuietEnd(
      s: State, command: Command, mediaReady: bool, supported: bool, script: seq<AdapterStep>, fails: bool): State
  {
    Report(s, command, QuietOutcome(s, command, mediaReady, QuietVerdict(supported, script, fails)))
  }

  lemma PermittedPath(
      s: State, command: Command, mediaReady: bool, supported: bool, script: seq<AdapterStep>, fails: bool)
    requires s.hand == Waiting(command) && S.Inv(s.latch)
    requires !Stale(s, command) && (command.motionId.Some? ==> mediaReady) && !s.latch.latched
    ensures Path(s, [TakePermit(mediaReady)] + (ExecuteEvents(supported, script, fails) + [Emit]),
                 Report(s, command, VerdictOutcome(QuietVerdict(supported, script, fails))))
  {
    var running := Apply(s, TakePermit(mediaReady));
    var finished := running.(hand := Finished(command, QuietVerdict(supported, script, fails)));
    ExecutePath(running, supported, script, fails);
    OneEvent(finished, Emit);
    PathJoin(running, ExecuteEvents(supported, script, fails), finished, [Emit], Apply(finished, Emit));
    PathCons(s, TakePermit(mediaReady), ExecuteEvents(supported, script, fails) + [Emit], Apply(finished, Emit));
  }

  /** Main result: taken in the order of the source and with nothing in between, the steps of one
      command are a path of the pipeline that tells it exactly one result: `completed` if and only if
      it is not outdated, has the media it needs, meets no latch, is supported, and its adapter
      succeeds. */
  lemma QuietCommandIsAPath(
      s: State, command: Command, mediaReady: bool, supported: bool, script: seq<AdapterStep>, fails: bool)
    requires s.hand == Popped(command) && S.Inv(s.latch)
    ensures Path(s, CommandEvents(s, command, mediaReady, supported, script, fails),
                 QuietEnd(s, command, mediaReady, supported, script, fails))
  {
    var t, end := Apply(s, CheckQueued), QuietEnd(s, command, mediaReady, supported, script, fails);
    if Stale(s, command) {
      PathCons(s, CheckQueued, [], end);
    } else if (command.motionId.Some? && !mediaReady) || s.latch.latched {
      PathCons(t, TakePermit(mediaReady), [], end);
      PathCons(s, CheckQueued, [TakePermit(mediaReady)] + [], end);
    } else {
      PermittedPath(t, command, mediaReady, supported, script, fails);
      PathCons(s, CheckQueued, [TakePermit(mediaReady)] + (ExecuteEvents(supported, script, fails) + [Emit]), end);
    }
  }
}
