/** Every hardware command is in exactly one place and gets exactly one terminal result. */
module PipelineLifecycle {
  import opened Prelude
  import Q = CommandQueue
  import opened Pipeline

  type Story = map<nat, seq<Outcome>>

  ghost predicate HasTicket(q: seq<Command>, u: nat) {
    exists c :: c in q && c.ticket == u
  }

  ghost predicate Distinct(q: seq<Command>) {
    forall i, j :: 0 <= i < j < |q| ==> q[i].ticket != q[j].ticket
  }

  ghost predicate InHand(s: State, u: nat) {
    !s.hand.Idle? && s.hand.command.ticket == u
  }

  /** The results of a finished command: refused on arrival, or accepted and then one terminal result. */
  predicate Closed(results: seq<Outcome>) {
    || (|results| == 1 && results[0].Rejected?)
    || (|results| == 2 && results[0].Accepted? && Terminal(results[1]))
  }

  /** Tickets in `q` are accepted and open. */
  ghost predicate AllOpen(q: seq<Command>, story: Story) {
    forall c :: c in q ==> c.ticket in story && story[c.ticket] == [Accepted]
  }

  ghost predicate LifeInv(s: State) {
    && (forall u: nat :: u in s.story <==> u < s.next)
    && Distinct(s.queue.pending)
    && AllOpen(s.queue.pending, s.story)
    && (!s.hand.Idle? ==>
          && !HasTicket(s.queue.pending, s.hand.command.ticket)
          && s.hand.command.ticket in s.story && s.story[s.hand.command.ticket] == [Accepted])
    && (forall u: nat :: u in s.story && !HasTicket(s.queue.pending, u) && !InHand(s, u) ==> Closed(s.story[u]))
  }

  // ---- Filters and emissions ----

  lemma {:induction false} FiltersStayDistinct(q: seq<Command>)
    requires Distinct(q)
    ensures Distinct(Q.Motion(q)) && Distinct(Q.NonMotion(q))
  {
    if q != [] {
      FiltersStayDistinct(q[1..]);
      Q.FilterMembers(q[1..]);
      assert forall c :: c in q[1..] ==> c.ticket != q[0].ticket;
    }
  }

  /** In a queue of distinct tickets, a ticket is on exactly one side of the filter. */
  lemma FilterTickets(q: seq<Command>, u: nat)
    requires Distinct(q)
    ensures HasTicket(q, u) <==> HasTicket(Q.Motion(q), u) || HasTicket(Q.NonMotion(q), u)
    ensures !(HasTicket(Q.Motion(q), u) && HasTicket(Q.NonMotion(q), u))
  {
    Q.FilterMembers(q);
  }

  lemma {:induction false} TellAllEffect(story: Story, q: seq<Command>, o: Outcome)
    requires Distinct(q) && forall c :: c in q ==> c.ticket in story
    ensures TellAll(story, q, o).Keys == story.Keys
    ensures forall u: nat :: u in story ==>
              TellAll(story, q, o)[u] == if HasTicket(q, u) then story[u] + [o] else story[u]
    decreases q
  {
    if q != [] {
      var rest := Tell(story, q[0].ticket, o);
      assert forall c :: c in q[1..] ==> c in q && c.ticket != q[0].ticket;
      TellAllEffect(rest, q[1..], o);
      assert !HasTicket(q[1..], q[0].ticket);
      assert forall u: nat :: HasTicket(q, u) <==> u == q[0].ticket || HasTicket(q[1..], u) by {
        assert q[0] in q;
        assert forall c :: c in q <==> c == q[0] || c in q[1..];
      }
    }
  }

  /** Closing a set of open commands with a terminal result. */
  lemma CloseAll(story: Story, q: seq<Command>, o: Outcome)
    requires Distinct(q) && AllOpen(q, story) && Terminal(o)
    ensures var told := TellAll(story, q, o);
            && told.Keys == story.Keys
            && (forall u: nat :: u in story && HasTicket(q, u) ==> Closed(told[u]))
            && (forall u: nat :: u in story && !HasTicket(q, u) ==> told[u] == story[u])
  {
    TellAllEffect(story, q, o);
  }

  // ---- Each event keeps the invariant ----

  /** Removing the queued motion commands and closing them. */
  lemma DropMotion(s: State, o: Outcome)
    requires LifeInv(s) && Terminal(o)
    ensures LifeInv(s.(queue := s.queue.(pending := Q.NonMotion(s.queue.pending)),
                       story := TellAll(s.story, Q.Motion(s.queue.pending), o)))
  {
    var q := s.queue.pending;
    FiltersStayDistinct(q);
    Q.FilterMembers(q);
    CloseAll(s.story, Q.Motion(q), o);
    forall u: nat ensures HasTicket(q, u) <==> HasTicket(Q.Motion(q), u) || HasTicket(Q.NonMotion(q), u) {
      FilterTickets(q, u);
    }
    forall u: nat | HasTicket(Q.NonMotion(q), u) ensures !HasTicket(Q.Motion(q), u) {
      FilterTickets(q, u);
    }
  }

  /** Appending a new accepted command. */
  lemma AppendAccepted(s: State, c: Command)
    requires LifeInv(s) && c.ticket == s.next
    ensures LifeInv(s.(queue := s.queue.(pending := s.queue.pending + [c]),
                       next := s.next + 1,
                       story := Tell(s.story, s.next, Accepted)))
  {
    var q := s.queue.pending;
    forall u: nat ensures HasTicket(q + [c], u) <==> HasTicket(q, u) || u == s.next {
      assert c in q + [c];
      if HasTicket(q, u) {
        var d :| d in q && d.ticket == u;
        assert d in q + [c];
      }
    }
  }

  lemma RefuseNew(s: State, code: string)
    requires LifeInv(s)
    ensures LifeInv(s.(next := s.next + 1, story := Tell(s.story, s.next, Rejected(code))))
  {
  }

  lemma FrameLife(s: State, t: State)
    requires LifeInv(s)
    requires t.queue.pending == s.queue.pending && t.hand == s.hand && t.next == s.next && t.story == s.story
    ensures LifeInv(t)
  {
  }

  lemma AcceptStep(s: State, c: Command)
    requires LifeInv(s) && c.ticket == s.next
    ensures var kept := Q.NonMotion(s.queue.pending);
            LifeInv(s.(queue := s.queue.(pending := kept + [c]),
                       next := s.next + 1,
                       story := Tell(TellAll(s.story, Q.Motion(s.queue.pending), Superseded), s.next, Accepted)))
  {
    DropMotion(s, Superseded);
    AppendAccepted(s.(queue := s.queue.(pending := Q.NonMotion(s.queue.pending)),
                      story := TellAll(s.story, Q.Motion(s.queue.pending), Superseded)), c);
  }

  function Received(s: State, motion: bool): Command {
    Q.Command(s.next, if motion then Some(s.latest + 1) else None)
  }

  lemma RefusedStep(s: State, motion: bool)
    requires LifeInv(s) && Q.Inv(s.queue) && !Q.AfterOffer(s.queue, Received(s, motion)).accepted
    ensures LifeInv(AfterDispatch(s, motion))
  {
    Q.OfferKeepsInv(s.queue, Received(s, motion));
    RefuseNew(s, "command_queue_full");
    FrameLife(s.(next := s.next + 1, story := Tell(s.story, s.next, Rejected("command_queue_full"))),
              AfterDispatch(s, motion));
  }

  lemma AcceptedStep(s: State, motion: bool)
    requires LifeInv(s) && Q.Inv(s.queue) && Q.AfterOffer(s.queue, Received(s, motion)).accepted
    ensures LifeInv(AfterDispatch(s, motion))
  {
    var q, c := s.queue.pending, Received(s, motion);
    Q.OfferKeepsInv(s.queue, c);
    if motion {
      AcceptStep(s, c);
      FrameLife(s.(queue := s.queue.(pending := Q.NonMotion(q) + [c]), next := s.next + 1,
                   story := Tell(TellAll(s.story, Q.Motion(q), Superseded), s.next, Accepted)),
                AfterDispatch(s, motion));
    } else {
      AppendAccepted(s, c);
      FrameLife(s.(queue := s.queue.(pending := q + [c]), next := s.next + 1, story := Tell(s.story, s.next, Accepted)),
                AfterDispatch(s, motion));
    }
  }

  lemma StopStep(s: State, fromDeadline: bool)
    requires LifeInv(s)
    ensures LifeInv(AfterStop(s, fromDeadline))
  {
    DropMotion(s, CancelledByStop);
    FrameLife(s.(queue := s.queue.(pending := Q.NonMotion(s.queue.pending)),
                 story := TellAll(s.story, Q.Motion(s.queue.pending), CancelledByStop)),
              AfterStop(s, fromDeadline));
  }

  lemma PopStep(s: State)
    requires LifeInv(s) && Enabled(s, PopCommand)
    ensures LifeInv(Apply(s, PopCommand))
  {
    var q := s.queue.pending;
    assert forall c :: c in q <==> c == q[0] || c in q[1..];
    assert forall c :: c in q[1..] ==> c.ticket != q[0].ticket;
    forall u: nat ensures HasTicket(q, u) <==> u == q[0].ticket || HasTicket(q[1..], u) {
      assert q[0] in q;
    }
  }

  lemma ReportStep(s: State, o: Outcome)
    requires LifeInv(s) && !s.hand.Idle? && Terminal(o)
    ensures LifeInv(Report(s, s.hand.command, o))
  {
  }

  lemma LifeStep(s: State, e: Event)
    requires Enabled(s, e) && LifeInv(s) && Q.Inv(s.queue)
    ensures LifeInv(Apply(s, e))
  {
    match e {
      case Receive(motion, supported, mediaReady) =>
        if motion && s.latch.latched { RefuseNew(s, "safety_latched"); }
        else if motion && !mediaReady { RefuseNew(s, "media_not_ready"); }
        else if !supported { RefuseNew(s, "unsupported_command"); }
        else if Q.AfterOffer(s.queue, Received(s, motion)).accepted { AcceptedStep(s, motion); }
        else { RefusedStep(s, motion); }
      case Stop(fromDeadline) => StopStep(s, fromDeadline);
      case PopCommand => PopStep(s);
      case CheckQueued => ReportStep(s, Superseded); HandKept(s, e);
      case TakePermit(mediaReady) => TakePermitStep(s, mediaReady);
      case Emit => ReportStep(s, VerdictOutcome(s.hand.verdict));
      case _ => HandKept(s, e);
    }
  }

  lemma TakePermitStep(s: State, mediaReady: bool)
    requires Enabled(s, TakePermit(mediaReady)) && LifeInv(s)
    ensures LifeInv(Apply(s, TakePermit(mediaReady)))
  {
    ReportStep(s, Superseded);
    ReportStep(s, Rejected("media_not_ready"));
    ReportStep(s, Rejected("safety_latched"));
  }

  /** Events that leave queue, story and the command in the loop's hands alone. */
  lemma HandKept(s: State, e: Event)
    requires Enabled(s, e) && LifeInv(s)
    requires !e.Receive? && !e.Stop? && !e.PopCommand? && !e.TakePermit? && !e.Emit?
    requires e.CheckQueued? ==> LifeInv(Report(s, s.hand.command, Superseded))
    ensures LifeInv(Apply(s, e))
  {
  }

  lemma QueueInvStep(s: State, e: Event)
    requires Enabled(s, e) && Q.Inv(s.queue)
    ensures Q.Inv(Apply(s, e).queue)
  {
    match e {
      case Receive(motion, _, _) =>
        Q.OfferKeepsInv(s.queue, Q.Command(s.next, if motion then Some(s.latest + 1) else None));
      case Stop(_) => Q.CancelKeepsInv(s.queue);
      case PopCommand => Q.PopKeepsInv(s.queue);
      case _ =>
    }
  }

  lemma {:induction false} LifeRun(capacity: nat, events: seq<Event>, s: State)
    requires 1 <= capacity && Run(capacity, events) == Some(s)
    ensures LifeInv(s) && Q.Inv(s.queue)
  {
    if events != [] {
      var front := events[..|events|-1];
      var r := Run(capacity, front).value;
      LifeRun(capacity, front, r);
      LifeStep(r, events[|events|-1]);
      QueueInvStep(r, events[|events|-1]);
    }
  }

  /** How many times ticket `u` occurs in the queue. */
  ghost function Occurrences(q: seq<Command>, u: nat): nat {
    if q == [] then 0 else Occurrences(q[1..], u) + if q[0].ticket == u then 1 else 0
  }

  lemma {:induction false} OccurrencesOfDistinct(q: seq<Command>, u: nat)
    requires Distinct(q)
    ensures Occurrences(q, u) == if HasTicket(q, u) then 1 else 0
  {
    if q != [] {
      OccurrencesOfDistinct(q[1..], u);
      assert forall c :: c in q <==> c == q[0] || c in q[1..];
    }
  }

  /**
   Main result: in every run each received command is in exactly one of three places: once in the
   queue, in the command loop's hands, or finished. One that is not finished has been told
   `accepted` and nothing else; a finished one has been told exactly one terminal result, after
   `accepted` unless it was refused on arrival.
   */
  lemma ExactlyOnePlaceAndOneResult(capacity: nat, events: seq<Event>, s: State, u: nat)
    requires 1 <= capacity && Run(capacity, events) == Some(s) && u < s.next
    ensures u in s.story
    ensures Occurrences(s.queue.pending, u)
            + (if InHand(s, u) then 1 else 0) + (if Closed(s.story[u]) then 1 else 0) == 1
    ensures Occurrences(s.queue.pending, u) == 1 || InHand(s, u) ==> s.story[u] == [Accepted]
  {
    LifeRun(capacity, events, s);
    OccurrencesOfDistinct(s.queue.pending, u);
  }

  /** An offer to the queue is in vain: it is full, and the command displaces nothing. */
  predicate NoRoom(s: State, motion: bool) {
    |s.queue.pending| >= s.queue.capacity && !(motion && exists c :: c in s.queue.pending && c.motionId.Some?)
  }

  lemma {:induction false} NoMotionFound(q: seq<Command>)
    ensures Q.Motion(q) == [] <==> forall c :: c in q ==> c.motionId.None?
  {
    Q.FilterMembers(q);
    if Q.Motion(q) != [] { assert Q.Motion(q)[0] in Q.Motion(q); }
  }

  /** The latch, media and support tests let the command through. */
  predicate Admissible(s: State, motion: bool, supported: bool, mediaReady: bool) {
    (motion ==> !s.latch.latched && mediaReady) && supported
  }

  lemma FirstAnswer(s: State, motion: bool, supported: bool, mediaReady: bool)
    requires LifeInv(s) && Q.Inv(s.queue)
    ensures var t := Apply(s, Receive(motion, supported, mediaReady));
            && t.next == s.next + 1 && s.next !in s.story && s.next in t.story
            && t.story[s.next] == [
                 if motion && s.latch.latched then Rejected("safety_latched")
                 else if motion && !mediaReady then Rejected("media_not_ready")
                 else if !supported then Rejected("unsupported_command")
                 else if NoRoom(s, motion) then Rejected("command_queue_full")
                 else Accepted]
  {
    NoMotionFound(s.queue.pending);
    Q.FilterFacts(s.queue.pending);
    DropMotion(s, Superseded);
  }

  /** Main result: in every run each arriving command gets the next ticket and at once exactly one
      result, and each of the five is given exactly under its own condition. */
  lemma EveryArrivalIsAnswered(
      capacity: nat, events: seq<Event>, s: State, motion: bool, supported: bool, mediaReady: bool)
    requires 1 <= capacity && Run(capacity, events) == Some(s)
    ensures var t := Apply(s, Receive(motion, supported, mediaReady));
            && t.next == s.next + 1 && s.next !in s.story && s.next in t.story && |t.story[s.next]| == 1
            && (t.story[s.next][0] == Rejected("safety_latched") <==> motion && s.latch.latched)
            && (t.story[s.next][0] == Rejected("media_not_ready") <==> motion && !s.latch.latched && !mediaReady)
            && (t.story[s.next][0] == Rejected("unsupported_command") <==>
                  (motion ==> !s.latch.latched && mediaReady) && !supported)
            && (t.story[s.next][0] == Rejected("command_queue_full") <==>
                  Admissible(s, motion, supported, mediaReady) && NoRoom(s, motion))
            && (t.story[s.next][0] == Accepted <==>
                  Admissible(s, motion, supported, mediaReady) && !NoRoom(s, motion))
  {
    LifeRun(capacity, events, s);
    FirstAnswer(s, motion, supported, mediaReady);
  }

  lemma FirstPlace(s: State, motion: bool, supported: bool, mediaReady: bool)
    requires Q.Inv(s.queue)
    ensures var t, numbered := Apply(s, Receive(motion, supported, mediaReady)),
                               motion && Admissible(s, motion, supported, mediaReady);
            && t.latest == s.latest + (if numbered then 1 else 0)
            && t.deadline.generation == s.deadline.generation + (if numbered then 1 else 0)
            && (numbered ==> t.deadline.generation in t.deadline.timers)
            && t.hand == s.hand && t.latch == s.latch && t.stopper == s.stopper
            && t.queue.pending ==
                 if !Admissible(s, motion, supported, mediaReady) || NoRoom(s, motion) then s.queue.pending
                 else (if motion then Q.NonMotion(s.queue.pending) else s.queue.pending)
                      + [Q.Command(s.next, if motion then Some(s.latest + 1) else None)]
  {
    NoMotionFound(s.queue.pending);
    Q.FilterFacts(s.queue.pending);
    Q.OfferKeepsInv(s.queue, Received(s, motion));
  }

  /** Main result: an accepted command is last in the queue, with its ticket and number, behind everything
      it did not displace; a refused one leaves the queue as it was. Motion that got as far as the queue
      raises the counter and arms its deadline. */
  lemma EveryArrivalIsQueued(
      capacity: nat, events: seq<Event>, s: State, motion: bool, supported: bool, mediaReady: bool)
    requires 1 <= capacity && Run(capacity, events) == Some(s)
    ensures var t, numbered := Apply(s, Receive(motion, supported, mediaReady)),
                               motion && Admissible(s, motion, supported, mediaReady);
            && t.latest == s.latest + (if numbered then 1 else 0)
            && t.deadline.generation == s.deadline.generation + (if numbered then 1 else 0)
            && (numbered ==> t.deadline.generation in t.deadline.timers)
            && t.hand == s.hand && t.latch == s.latch && t.stopper == s.stopper
            && t.queue.pending ==
                 if !Admissible(s, motion, supported, mediaReady) || NoRoom(s, motion) then s.queue.pending
                 else (if motion then Q.NonMotion(s.queue.pending) else s.queue.pending)
                      + [Q.Command(s.next, if motion then Some(s.latest + 1) else None)]
  {
    LifeRun(capacity, events, s);
    FirstPlace(s, motion, supported, mediaReady);
  }

  /** Nothing is told about commands that were never received. */
  lemma NothingIsInvented(capacity: nat, events: seq<Event>, s: State, u: nat)
    requires 1 <= capacity && Run(capacity, events) == Some(s) && s.next <= u
    ensures u !in s.story && !HasTicket(s.queue.pending, u) && !InHand(s, u)
  {
    LifeRun(capacity, events, s);
  }

  // ---- Results never change ----

  /** Once closed, the results of a command never change again. */
  lemma {:induction false} ClosedIsFinal(
      capacity: nat, before: seq<Event>, s: State, events: seq<Event>, t: State, u: nat)
    requires 1 <= capacity && Run(capacity, before) == Some(s)
    requires u in s.story && Closed(s.story[u]) && Path(s, events, t)
    ensures u in t.story && t.story[u] == s.story[u]
    decreases |events|
  {
    if events != [] {
      var e, r := events[0], Apply(s, events[0]);
      assert (before + [e])[..|before|] == before;
      assert Run(capacity, before + [e]) == Some(r);
      LifeRun(capacity, before, s);
      ClosedStep(s, e, u);
      ClosedIsFinal(capacity, before + [e], r, events[1..], t, u);
    }
  }

  lemma ClosedStep(s: State, e: Event, u: nat)
    requires Enabled(s, e) && LifeInv(s)
    requires u in s.story && Closed(s.story[u])
    ensures u in Apply(s, e).story && Apply(s, e).story[u] == s.story[u]
  {
    if e.Receive? || e.Stop? {
      ClosedAtQueueEvents(s, e, u);
    }
  }

  lemma ClosedAtQueueEvents(s: State, e: Event, u: nat)
    requires Enabled(s, e) && LifeInv(s) && (e.Receive? || e.Stop?)
    requires u in s.story && Closed(s.story[u])
    ensures u in Apply(s, e).story && Apply(s, e).story[u] == s.story[u]
  {
    var q := s.queue.pending;
    assert !HasTicket(q, u);
    Q.FilterMembers(q);
    if e.Stop? {
      TellAllSkips(s.story, Q.Motion(q), CancelledByStop, u);
    } else {
      TellAllSkips(s.story, Q.AfterOffer(s.queue, Received(s, e.motion)).superseded, Superseded, u);
    }
  }

  lemma {:induction false} TellAllSkips(story: Story, q: seq<Command>, o: Outcome, u: nat)
    requires u in story && forall c :: c in q ==> c.ticket != u
    ensures u in TellAll(story, q, o) && TellAll(story, q, o)[u] == story[u]
    decreases q
  {
    if q != [] {
      TellAllSkips(Tell(story, q[0].ticket, o), q[1..], o, u);
    }
  }
}
