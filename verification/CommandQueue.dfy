/** The bounded latest-wins hardware queue (`botparty_robot/command_queue.py`). */
module CommandQueue {
  import opened Prelude

  /** One queued command. `ticket` stands for the command text, value and metadata;
      only motion commands carry a motion id. */
  datatype Command = Command(ticket: nat, motionId: Option<nat>)

  predicate IsMotion(c: Command) { c.motionId.Some? }

  function Motion(q: seq<Command>): seq<Command> {
    if q == [] then []
    else if IsMotion(q[0]) then [q[0]] + Motion(q[1..])
    else Motion(q[1..])
  }

  function NonMotion(q: seq<Command>): seq<Command> {
    if q == [] then []
    else if IsMotion(q[0]) then NonMotion(q[1..])
    else [q[0]] + NonMotion(q[1..])
  }

  /** `deque.append` on a deque with a maximum length drops the head of a full deque. */
  function Append(q: seq<Command>, c: Command, capacity: nat): seq<Command> {
    if |q| < capacity then q + [c] else if q == [] then [] else q[1..] + [c]
  }

  datatype State = State(
    capacity: nat,
    pending: seq<Command>,
    available: bool,
    highWatermark: nat,
    dropped: nat)

  function Empty(capacity: nat): State { State(capacity, [], false, 0, 0) }

  ghost predicate Inv(s: State) {
    && 1 <= s.capacity
    && |s.pending| <= s.capacity
    && |Motion(s.pending)| <= 1
    && (s.pending != [] ==> s.available)
    && |s.pending| <= s.highWatermark <= s.capacity
  }

  datatype OfferResult = OfferResult(state: State, accepted: bool, superseded: seq<Command>)

  function AfterOffer(s: State, c: Command): OfferResult {
    var superseded := if IsMotion(c) then Motion(s.pending) else [];
    var kept := if superseded == [] then s.pending else NonMotion(s.pending);
    var dropped := s.dropped + |superseded|;
    if |kept| >= s.capacity then
      OfferResult(s.(pending := kept, dropped := dropped + 1), false, superseded)
    else
      var pending := Append(kept, c, s.capacity);
      OfferResult(
        s.(pending := pending, available := true, dropped := dropped,
           highWatermark := if |pending| > s.highWatermark then |pending| else s.highWatermark),
        true, superseded)
  }

  function AfterCancel(s: State): State {
    s.(pending := NonMotion(s.pending), dropped := s.dropped + |Motion(s.pending)|)
  }

  function AfterPop(s: State): (State, Option<Command>) {
    if s.pending == [] then (s.(available := false), None)
    else
      (s.(pending := s.pending[1..], available := s.available && s.pending[1..] != []),
       Some(s.pending[0]))
  }

  /** The mutable queue of the source. */
  class HardwareCommandQueue {
    const capacity: nat
    var pending: seq<Command>
    var available: bool
    var highWatermark: nat
    var dropped: nat

    function View(): State
      reads this
    {
      State(capacity, pending, available, highWatermark, dropped)
    }

    /** A capacity below one is a ValueError in the source. */
    constructor (capacity: nat)
      requires 1 <= capacity
      ensures View() == Empty(capacity) && Inv(View())
    {
      this.capacity := capacity;
      pending, available, highWatermark, dropped := [], false, 0, 0;
    }

    method Offer(command: Command) returns (accepted: bool, superseded: seq<Command>)
      requires Inv(View())
      modifies this
      ensures OfferResult(View(), accepted, superseded) == AfterOffer(old(View()), command)
      ensures Inv(View())
      // Refused exactly when full, unless the command is motion and displaces an older motion command.
      ensures accepted <==> |old(pending)| < capacity || (command.motionId.Some? && Motion(old(pending)) != [])
      // The new command is never lost silently, and nobody is displaced by a refusal.
      ensures accepted ==> available && superseded == (if command.motionId.Some? then Motion(old(pending)) else [])
      ensures accepted ==>
                pending == (if command.motionId.Some? then NonMotion(old(pending)) else old(pending)) + [command]
      ensures !accepted ==> superseded == [] && pending == old(pending) && available == old(available)
      ensures dropped == old(dropped) + |superseded| + if accepted then 0 else 1
      ensures highWatermark == if |pending| > old(highWatermark) then |pending| else old(highWatermark)
    {
      OfferKeepsInv(View(), command);
      FilterFacts(pending);
      superseded := [];
      if IsMotion(command) {
        superseded := Motion(pending);
        if superseded != [] {
          pending := NonMotion(pending);
          dropped := dropped + |superseded|;
        }
      }
      if |pending| >= capacity {
        dropped := dropped + 1;
        return false, superseded;
      }
      pending := Append(pending, command, capacity);
      highWatermark := if |pending| > highWatermark then |pending| else highWatermark;
      available := true;
      accepted := true;
    }

    method CancelMotion() returns (cancelled: seq<Command>)
      requires Inv(View())
      modifies this
      ensures View() == AfterCancel(old(View())) && cancelled == Motion(old(pending))
      ensures Inv(View()) && Motion(pending) == [] && pending == NonMotion(old(pending))
      ensures dropped == old(dropped) + |cancelled| && available == old(available)
    {
      CancelKeepsInv(View());
      FilterFacts(pending);
      cancelled := Motion(pending);
      if cancelled != [] {
        pending := NonMotion(pending);
        dropped := dropped + |cancelled|;
      }
    }

    method PopNowait() returns (item: Option<Command>)
      requires Inv(View())
      modifies this
      ensures (View(), item) == AfterPop(old(View()))
      ensures Inv(View())
      ensures old(pending) == [] ==> item.None? && pending == []
      ensures old(pending) != [] ==> item == Some(old(pending)[0]) && pending == old(pending)[1..]
      // The event is cleared exactly when nothing is left.
      ensures available == (old(available) && pending != [])
      ensures dropped == old(dropped) && highWatermark == old(highWatermark)
    {
      PopKeepsInv(View());
      if pending == [] {
        available := false;
        return None;
      }
      item := Some(pending[0]);
      pending := pending[1..];
      if pending == [] {
        available := false;
      }
    }

    method Wake()
      requires Inv(View())
      modifies this
      ensures View() == old(View()).(available := true) && Inv(View())
    {
      available := true;
    }
  }

  // ---- Filters ----

  lemma {:induction false} FilterFacts(q: seq<Command>)
    ensures |Motion(q)| + |NonMotion(q)| == |q|
    ensures Motion(NonMotion(q)) == [] && NonMotion(Motion(q)) == []
    ensures Motion(q) == [] ==> NonMotion(q) == q
  {
    if q != [] {
      FilterFacts(q[1..]);
      assert q == [q[0]] + q[1..];
      if IsMotion(q[0]) {
        assert Motion(q)[1..] == Motion(q[1..]);
      } else {
        assert NonMotion(q)[1..] == NonMotion(q[1..]);
      }
    }
  }

  lemma {:induction false} FilterMultiset(q: seq<Command>)
    ensures multiset(Motion(q)) + multiset(NonMotion(q)) == multiset(q)
  {
    if q != [] {
      FilterMultiset(q[1..]);
      assert q == [q[0]] + q[1..];
    }
  }

  lemma {:induction false} FilterSubseq(q: seq<Command>)
    ensures Subseq(NonMotion(q), q)
  {
    if q != [] {
      FilterSubseq(q[1..]);
      assert q == [q[0]] + q[1..];
      if IsMotion(q[0]) {
        SubseqDropHead(q);
        SubseqTrans(NonMotion(q), q[1..], q);
      } else {
        SubseqPrefix([q[0]], NonMotion(q[1..]), q[1..]);
      }
    }
  }

  lemma {:induction false} FilterMembers(q: seq<Command>)
    ensures forall c :: c in NonMotion(q) <==> c in q && !IsMotion(c)
    ensures forall c :: c in Motion(q) <==> c in q && IsMotion(c)
  {
    if q != [] {
      FilterMembers(q[1..]);
      assert q == [q[0]] + q[1..];
    }
  }

  lemma {:induction false} SubseqDropHead(q: seq<Command>)
    requires q != []
    ensures Subseq(q[1..], q)
  {
    if |q| > 1 {
      SubseqDropHead(q[..|q|-1]);
      assert q[..|q|-1][1..] == q[1..][..|q[1..]|-1];
    }
  }

  lemma {:induction false} MotionConcat(p: seq<Command>, q: seq<Command>)
    ensures Motion(p + q) == Motion(p) + Motion(q)
    ensures NonMotion(p + q) == NonMotion(p) + NonMotion(q)
  {
    if p == [] {
      assert p + q == q;
    } else {
      assert (p + q)[1..] == p[1..] + q;
      MotionConcat(p[1..], q);
    }
  }

  // ---- Every call keeps the queue invariant ----

  lemma OfferKeepsInv(s: State, c: Command)
    requires Inv(s)
    ensures var r := AfterOffer(s, c);
            && Inv(r.state)
            && (r.accepted ==> r.state.pending == (if IsMotion(c) then NonMotion(s.pending) else s.pending) + [c])
            && (!r.accepted ==> r.superseded == [] && r.state.pending == s.pending && |s.pending| == s.capacity)
  {
    FilterFacts(s.pending);
    MotionConcat(s.pending, [c]);
    MotionConcat(NonMotion(s.pending), [c]);
    assert Motion([c]) == if IsMotion(c) then [c] else [];
  }

  lemma CancelKeepsInv(s: State)
    requires Inv(s)
    ensures Inv(AfterCancel(s)) && Motion(AfterCancel(s).pending) == []
  {
    FilterFacts(s.pending);
  }

  lemma PopKeepsInv(s: State)
    requires Inv(s)
    ensures Inv(AfterPop(s).0)
    ensures s.pending != [] ==> |Motion(AfterPop(s).0.pending)| <= |Motion(s.pending)|
  {
  }

  // ---- Runs: any sequence of calls against an independent ledger ----

  datatype Call = OfferCall(command: Command) | CancelCall | PopCall | WakeCall

  /** What an outside observer of the calls would write down. */
  datatype Ledger = Ledger(
    accepted: seq<Command>,
    popped: seq<Command>,
    superseded: seq<Command>,
    cancelled: seq<Command>,
    rejected: seq<Command>)

  function Step(s: State, l: Ledger, call: Call): (State, Ledger) {
    match call
    case OfferCall(c) =>
      var r := AfterOffer(s, c);
      var l1 := l.(superseded := l.superseded + r.superseded);
      (r.state, if r.accepted then l1.(accepted := l.accepted + [c]) else l1.(rejected := l.rejected + [c]))
    case CancelCall =>
      (AfterCancel(s), l.(cancelled := l.cancelled + Motion(s.pending)))
    case PopCall =>
      var (s', item) := AfterPop(s);
      (s', if item.Some? then l.(popped := l.popped + [item.value]) else l)
    case WakeCall =>
      (s.(available := true), l)
  }

  function Run(capacity: nat, calls: seq<Call>): (State, Ledger) {
    if calls == [] then (Empty(capacity), Ledger([], [], [], [], []))
    else
      var (s, l) := Run(capacity, calls[..|calls|-1]);
      Step(s, l, calls[|calls|-1])
  }

  /** Commands leave in the order they were accepted, and the pending ones come after those. */
  ghost predicate InOrder(popped: seq<Command>, pending: seq<Command>, accepted: seq<Command>) {
    Subseq(popped + pending, accepted)
  }

  /** Nothing accepted is lost or duplicated. */
  ghost predicate Conserved(s: State, l: Ledger) {
    multiset(l.accepted)
    == multiset(l.popped) + multiset(s.pending) + multiset(l.superseded) + multiset(l.cancelled)
  }

  /** A pending motion command is the newest accepted motion command. */
  ghost predicate Newest(pending: seq<Command>, accepted: seq<Command>) {
    Motion(pending) != [] ==>
      Motion(accepted) != [] && Motion(pending) == [Motion(accepted)[|Motion(accepted)|-1]]
  }

  /** The latest-wins contract, stated about the calls' ledger and the pending commands only. */
  ghost predicate LatestWins(s: State, l: Ledger) {
    && InOrder(l.popped, s.pending, l.accepted)
    && Conserved(s, l)
    && Newest(s.pending, l.accepted)
    && s.dropped == |l.superseded| + |l.cancelled| + |l.rejected|
    // Only motion commands are ever superseded or cancelled.
    && NonMotion(l.superseded) == [] && NonMotion(l.cancelled) == []
  }

  /** Main result: over every sequence of calls the queue keeps its bound, its wake-up event and
      the latest-wins contract. */
  lemma {:induction false} RunRefinesLatestWins(capacity: nat, calls: seq<Call>)
    requires 1 <= capacity
    ensures var (s, l) := Run(capacity, calls); s.capacity == capacity && Inv(s) && LatestWins(s, l)
  {
    if calls != [] {
      var front := calls[..|calls|-1];
      RunRefinesLatestWins(capacity, front);
      var (s, l) := Run(capacity, front);
      match calls[|calls|-1] {
        case OfferCall(c) => OfferStep(s, l, c);
        case CancelCall => CancelStep(s, l);
        case PopCall => PopStep(s, l);
        case WakeCall =>
      }
    }
  }

  lemma InOrderSnoc(popped: seq<Command>, pending: seq<Command>, accepted: seq<Command>, c: Command)
    requires InOrder(popped, pending, accepted)
    ensures InOrder(popped, pending + [c], accepted + [c])
  {
    assert popped + (pending + [c]) == (popped + pending) + [c];
    SubseqSnoc(popped + pending, accepted, c);
  }

  lemma InOrderDropMotion(popped: seq<Command>, pending: seq<Command>, accepted: seq<Command>)
    requires InOrder(popped, pending, accepted)
    ensures InOrder(popped, NonMotion(pending), accepted)
  {
    FilterSubseq(pending);
    SubseqPrefix(popped, NonMotion(pending), pending);
    SubseqTrans(popped + NonMotion(pending), popped + pending, accepted);
  }

  lemma NewestSnoc(pending: seq<Command>, accepted: seq<Command>, c: Command)
    requires Newest(pending, accepted)
    requires IsMotion(c) ==> Motion(pending) == []
    ensures Newest(pending + [c], accepted + [c])
  {
    MotionConcat(pending, [c]);
    MotionConcat(accepted, [c]);
    assert Motion([c]) == if IsMotion(c) then [c] else [];
  }

  lemma OfferOrdered(s: State, l: Ledger, c: Command)
    requires Inv(s) && InOrder(l.popped, s.pending, l.accepted) && Newest(s.pending, l.accepted)
    ensures var (s', l') := Step(s, l, OfferCall(c));
            InOrder(l'.popped, s'.pending, l'.accepted) && Newest(s'.pending, l'.accepted)
  {
    OfferKeepsInv(s, c);
    FilterFacts(s.pending);
    if AfterOffer(s, c).accepted {
      var kept := if IsMotion(c) then NonMotion(s.pending) else s.pending;
      InOrderDropMotion(l.popped, s.pending, l.accepted);
      InOrderSnoc(l.popped, kept, l.accepted, c);
      NewestSnoc(kept, l.accepted, c);
    }
  }

  lemma OfferAccounted(s: State, l: Ledger, c: Command)
    requires Inv(s) && Conserved(s, l)
    ensures var (s', l') := Step(s, l, OfferCall(c)); Conserved(s', l')
  {
    OfferKeepsInv(s, c);
    FilterFacts(s.pending);
    FilterMultiset(s.pending);
  }

  lemma OfferStep(s: State, l: Ledger, c: Command)
    requires Inv(s) && LatestWins(s, l)
    ensures var (s', l') := Step(s, l, OfferCall(c)); Inv(s') && LatestWins(s', l')
  {
    OfferKeepsInv(s, c);
    OfferOrdered(s, l, c);
    OfferAccounted(s, l, c);
    FilterFacts(s.pending);
    MotionConcat(l.superseded, AfterOffer(s, c).superseded);
  }

  lemma CancelStep(s: State, l: Ledger)
    requires Inv(s) && LatestWins(s, l)
    ensures var (s', l') := Step(s, l, CancelCall); Inv(s') && LatestWins(s', l')
  {
    FilterFacts(s.pending);
    FilterMultiset(s.pending);
    MotionConcat(l.cancelled, Motion(s.pending));
    InOrderDropMotion(l.popped, s.pending, l.accepted);
  }

  lemma PopStep(s: State, l: Ledger)
    requires Inv(s) && LatestWins(s, l)
    ensures var (s', l') := Step(s, l, PopCall); Inv(s') && LatestWins(s', l')
  {
    var q := s.pending;
    if q != [] {
      assert q == [q[0]] + q[1..];
      assert (l.popped + [q[0]]) + q[1..] == l.popped + q;
      MotionConcat([q[0]], q[1..]);
    }
  }
}
