/** Motion safety of the pipeline: stops and newer motion outlive every older motion command,
    and hardware never moves without a live deadline. */
module PipelineMotion {
  import opened Prelude
  import Q = CommandQueue
  import opened Pipeline

  /** Queued commands were queued before, or are the one this event received. */
  lemma QueueGrowsByOne(s: State, e: Event)
    requires Enabled(s, e)
    ensures forall c :: c in Apply(s, e).queue.pending ==>
              || c in s.queue.pending
              || (e.Receive? && c == Q.Command(s.next, if e.motion then Some(s.latest + 1) else None)
                  && (e.motion ==> Apply(s, e).latest == s.latest + 1))
    ensures forall c :: c in Apply(s, e).queue.pending && Q.IsMotion(c) ==> !e.Stop?
    ensures s.latest <= Apply(s, e).latest && s.next <= Apply(s, e).next
  {
    Q.FilterMembers(s.queue.pending);
  }

  /** A command not yet permitted: in the queue or in the loop's hands before `issue_permit`. */
  ghost predicate Ahead(s: State, c: Command) {
    c in s.queue.pending || s.hand == Popped(c) || s.hand == Waiting(c)
  }

  lemma AheadStep(s: State, e: Event, c: Command)
    requires Enabled(s, e) && Ahead(Apply(s, e), c)
    ensures || Ahead(s, c)
            || (e.Receive? && c == Q.Command(s.next, if e.motion then Some(s.latest + 1) else None)
                && (e.motion ==> Apply(s, e).latest == s.latest + 1))
  {
    QueueGrowsByOne(s, e);
  }

  // ---- A superseded or stopped motion command never gets a permit ----

  ghost predicate TicketsKnown(s: State) {
    forall c :: Ahead(s, c) ==> c.ticket < s.next
  }

  lemma {:induction false} TicketsKnownRun(capacity: nat, events: seq<Event>, s: State)
    requires Run(capacity, events) == Some(s)
    ensures TicketsKnown(s)
  {
    if events != [] {
      var front, e := events[..|events|-1], events[|events|-1];
      var r := Run(capacity, front).value;
      TicketsKnownRun(capacity, front, r);
      forall c | Ahead(s, c) ensures c.ticket < s.next {
        AheadStep(r, e, c);
        QueueGrowsByOne(r, e);
      }
    }
  }

  /** Wherever ticket `u` still waits for a permit it is a motion command numbered at most `bound`. */
  ghost predicate MotionUpTo(s: State, u: nat, bound: nat) {
    && u < s.next
    && forall c :: Ahead(s, c) && c.ticket == u ==> c.motionId.Some? && c.motionId.value <= bound
  }

  lemma MotionUpToStep(s: State, e: Event, u: nat, bound: nat)
    requires MotionUpTo(s, u, bound) && Enabled(s, e)
    ensures MotionUpTo(Apply(s, e), u, bound) && s.latest <= Apply(s, e).latest
  {
    var r := Apply(s, e);
    QueueGrowsByOne(s, e);
    forall c | Ahead(r, c) && c.ticket == u ensures c.motionId.Some? && c.motionId.value <= bound {
      AheadStep(s, e, c);
    }
  }

  lemma {:induction false} MotionUpToPath(s: State, events: seq<Event>, t: State, u: nat, bound: nat)
    requires MotionUpTo(s, u, bound) && Path(s, events, t)
    ensures MotionUpTo(t, u, bound) && s.latest <= t.latest
    decreases |events|
  {
    if events != [] {
      MotionUpToStep(s, events[0], u, bound);
      MotionUpToPath(Apply(s, events[0]), events[1..], t, u, bound);
    }
  }

  /** Event `e` issues a permit for ticket `u`. */
  ghost predicate GivesPermit(s: State, e: Event, u: nat) {
    && e.TakePermit? && Enabled(s, e)
    && s.hand.command.ticket == u
    && Apply(s, e).hand.Running?
  }

  lemma OldMotionIsRefused(s: State, e: Event, u: nat, bound: nat)
    requires MotionUpTo(s, u, bound) && bound < s.latest
    ensures !GivesPermit(s, e, u)
  {
    if GivesPermit(s, e, u) {
      assert Ahead(s, s.hand.command);
    }
  }

  /** A motion command, once received, is numbered at most the counter. */
  lemma ReceivedMotion(capacity: nat, before: seq<Event>, s: State, supported: bool, mediaReady: bool)
    requires Run(capacity, before) == Some(s)
    ensures var s1 := Apply(s, Receive(true, supported, mediaReady)); MotionUpTo(s1, s.next, s1.latest)
  {
    var received := Receive(true, supported, mediaReady);
    var s1 := Apply(s, received);
    TicketsKnownRun(capacity, before, s);
    forall c | Ahead(s1, c) && c.ticket == s.next ensures c.motionId.Some? && c.motionId.value <= s1.latest {
      AheadStep(s, received, c);
    }
  }

  /** The events that outdate every earlier motion command: a stop, or a motion command that is not
      refused on arrival. */
  predicate Outdates(s: State, e: Event) {
    e.Stop? || (e.Receive? && e.motion && !s.latch.latched && e.mediaReady && e.supported)
  }

  lemma StopsAndMotionRaiseTheCounter(s: State, e: Event)
    requires Enabled(s, e)
    ensures s.latest < Apply(s, e).latest <==> Outdates(s, e)
  {
  }

  /**
   Main result. A motion command is received (ticket `s.next`); anything happens; then a stop, or a
   newer motion command, outdates it; then anything happens, resets included. From
   there on the older command can never be issued a permit, whether it was queued, popped or
   waiting for the hardware lock.
   */
  lemma NoPermitAfterLaterStopOrMotion(
      capacity: nat, before: seq<Event>, s: State, supported: bool, mediaReady: bool,
      between: seq<Event>, s2: State, bump: Event,
      after: seq<Event>, s3: State, e: Event)
    requires Run(capacity, before) == Some(s)
    requires Path(s, [Receive(true, supported, mediaReady)] + between, s2)
    requires Outdates(s2, bump)
    requires Path(s2, [bump] + after, s3)
    ensures !GivesPermit(s3, e, s.next)
  {
    var s1 := Apply(s, Receive(true, supported, mediaReady));
    PathCons(s, Receive(true, supported, mediaReady), between, s2);
    PathCons(s2, bump, after, s3);
    ReceivedMotion(capacity, before, s, supported, mediaReady);
    MotionUpToPath(s1, between, s2, s.next, s1.latest);
    MotionUpToStep(s2, bump, s.next, s1.latest);
    MotionUpToPath(Apply(s2, bump), after, s3, s.next, s1.latest);
    OldMotionIsRefused(s3, e, s.next, s1.latest);
  }

  // ---- No motion without a live deadline ----

  /** A deadline timer that will act when it fires, or a deadline stop already scheduled. */
  predicate DeadlineLive(d: Deadline) {
    d.generation in d.timers || d.scheduledStops > 0
  }

  /** `c` is a motion command that can still reach the hardware: queued, about to be permitted and
      not superseded, or running under a permit of the current epoch. */
  ghost predicate CanMove(s: State, c: Command) {
    && c.motionId.Some?
    && ( || c in s.queue.pending
         || ((s.hand == Popped(c) || s.hand == Waiting(c)) && !Stale(s, c))
         || (s.hand.Running? && s.hand.command == c && s.hand.permit.epoch == s.latch.epoch))
  }

  ghost predicate DeadlineInv(s: State) {
    && s.stopMark <= s.latest
    && (s.stopMark < s.latest ==> DeadlineLive(s.deadline))
    && (forall c :: c in s.queue.pending && c.motionId.Some? ==> s.stopMark < c.motionId.value <= s.latest)
    && (s.hand.Popped? || s.hand.Waiting? ==>
          s.hand.command.motionId.Some? ==>
            s.hand.command.motionId.value != s.stopMark && s.hand.command.motionId.value <= s.latest)
    && (s.hand.Running? && s.hand.permit.epoch == s.latch.epoch && s.hand.command.motionId.Some? ==>
          s.stopMark < s.hand.command.motionId.value <= s.latest)
    && (s.hand.Running? ==> s.hand.permit.epoch <= s.latch.epoch)
  }

  lemma DeadlineStep(s: State, e: Event)
    requires Enabled(s, e) && DeadlineInv(s)
    ensures DeadlineInv(Apply(s, e))
  {
    if e.Receive? || e.Stop? {
      DeadlineQueueStep(s, e);
    }
  }

  lemma DeadlineQueueStep(s: State, e: Event)
    requires Enabled(s, e) && DeadlineInv(s) && (e.Receive? || e.Stop?)
    ensures DeadlineInv(Apply(s, e))
  {
    QueueGrowsByOne(s, e);
  }

  lemma {:induction false} DeadlineRun(capacity: nat, events: seq<Event>, s: State)
    requires Run(capacity, events) == Some(s)
    ensures DeadlineInv(s)
  {
    if events != [] {
      var front := events[..|events|-1];
      DeadlineRun(capacity, front, Run(capacity, front).value);
      DeadlineStep(Run(capacity, front).value, events[|events|-1]);
    }
  }

  /** Main result: in every run, while any motion command can still reach the hardware, a deadline
      timer of the current generation is armed or a deadline stop is already scheduled. */
  lemma MotionIsAlwaysUnderADeadline(capacity: nat, events: seq<Event>, s: State, c: Command)
    requires Run(capacity, events) == Some(s)
    requires CanMove(s, c)
    ensures DeadlineLive(s.deadline)
  {
    DeadlineRun(capacity, events, s);
  }

  // ---- Stale timers ----

  ghost predicate TimersKnown(d: Deadline) {
    forall g :: g in d.timers ==> g <= d.generation
  }

  lemma {:induction false} TimersKnownRun(capacity: nat, events: seq<Event>, s: State)
    requires Run(capacity, events) == Some(s)
    ensures TimersKnown(s.deadline)
  {
    if events != [] {
      TimersKnownRun(capacity, events[..|events|-1], Run(capacity, events[..|events|-1]).value);
    }
  }

  lemma {:induction false} GenerationsOnlyGrow(s: State, events: seq<Event>, t: State)
    requires Path(s, events, t)
    ensures s.deadline.generation <= t.deadline.generation
    decreases |events|
  {
    if events != [] {
      GenerationsOnlyGrow(Apply(s, events[0]), events[1..], t);
    }
  }

  /** Main result: a deadline timer armed before a stop, or before a newer motion command, can fire
      at any later time and changes nothing but the set of timers. Every armed timer is such a timer
      as soon as one of the two happens. */
  lemma StaleTimersAreHarmless(
      capacity: nat, before: seq<Event>, s: State, g: nat, bump: Event, after: seq<Event>, t: State)
    requires Run(capacity, before) == Some(s) && g in s.deadline.timers
    requires Path(s, [bump] + after, t) && Outdates(s, bump)
    requires g in t.deadline.timers
    ensures Apply(t, TimerFire(g)) == t.(deadline := t.deadline.(timers := t.deadline.timers - {g}))
  {
    PathCons(s, bump, after, t);
    TimersKnownRun(capacity, before, s);
    GenerationsOnlyGrow(Apply(s, bump), after, t);
  }
}
