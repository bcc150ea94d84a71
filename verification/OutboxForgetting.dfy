/**
 Runs in which the server is sent two different terminal states of one subject: the first is sent
 and acknowledged, 2048 other subjects finish, and the subject, by then forgotten, comes again.
 */
module OutboxForgetting {
  import opened Prelude
  import opened OrderedDict
  import opened Outbox
  import opened OutboxReload
  import opened OutboxRuns
  import opened OutboxEviction

  /** Nothing is pending. */
  ghost predicate Quiet(w: World) {
    w.memory.pending == [] && w.memory.attempted == {}
  }

  /** Every subject is known as finished, nothing is pending, and the oldest result was sent. */
  ghost predicate Settled(w: World, kind: string, subjects: seq<string>, state: string) {
    && Quiet(w) && Shape(w.memory.states, kind, subjects, state)
    && (subjects != [] ==> OutcomeId(kind, subjects[0], state) in w.sent)
  }

  /** A run ends in such a world. */
  ghost predicate EndsSettled(
      actions: seq<Action>, worlds: seq<World>, kind: string, subjects: seq<string>, state: string)
  {
    IsTrace(actions, worlds) && Settled(worlds[|actions|], kind, subjects, state)
  }

  /** The run `more` goes on from a quiet world by recording `q`, sending it and acknowledging it. */
  ghost predicate Delivers(w: World, q: Request, more: seq<Action>, longer: seq<World>) {
    && IsTrace(more, longer) && Quiet(longer[|more|])
    && longer[|more|].sent == w.sent + {MakeRecord(q).id}
    && longer[|more|].memory.states == WithOutcome(w.memory, q).states
  }

  lemma Deliver(actions: seq<Action>, worlds: seq<World>, q: Request)
    returns (more: seq<Action>, longer: seq<World>)
    requires IsTrace(actions, worlds) && Quiet(worlds[|actions|]) && Refusal(worlds[|actions|].memory, q).None?
    ensures Delivers(worlds[|actions|], q, more, longer)
  {
    var r := MakeRecord(q);
    var enqueue, acknowledge := Enqueue(q, Persisted, 0), Acknowledge(r.id, Persisted, 0);
    var recorded := OutboxRuns.Apply(worlds[|actions|], enqueue);
    assert recorded.memory.pending == [r] && r == recorded.memory.pending[0];
    ReadySnoc([], r, {});
    assert [] + [r] == [r];
    var draining := OutboxRuns.Apply(recorded, StartDrain);
    var sent := OutboxRuns.Apply(draining, Send);
    var done := OutboxRuns.Apply(sent, acknowledge);
    assert {r.id} - {r.id} == {};
    TraceSnoc(actions, worlds, enqueue, recorded);
    TraceSnoc(actions + [enqueue], worlds + [recorded], StartDrain, draining);
    TraceSnoc(actions + [enqueue] + [StartDrain], worlds + [recorded] + [draining], Send, sent);
    more := actions + [enqueue] + [StartDrain] + [Send];
    longer := worlds + [recorded] + [draining] + [sent];
    TraceSnoc(more, longer, acknowledge, done);
    more, longer := more + [acknowledge], longer + [done];
  }

  /** Each subject finishes in turn; its result is sent and acknowledged. */
  lemma {:induction false} AllFinish(kind: string, subjects: seq<string>, state: string)
    returns (actions: seq<Action>, worlds: seq<World>)
    requires NoDup(subjects) && |subjects| <= MAX_OUTBOX_ENTRIES && IsTerminal(state)
    ensures EndsSettled(actions, worlds, kind, subjects, state)
  {
    if subjects == [] {
      actions, worlds := [], [Init()];
    } else {
      var front, last := subjects[..|subjects|-1], subjects[|subjects|-1];
      actions, worlds := AllFinish(kind, front, state);
      actions, worlds := OneMoreFinishes(actions, worlds, kind, front, last, state);
      assert front + [last] == subjects;
    }
  }

  lemma OneMoreFinishes(
      actions: seq<Action>, worlds: seq<World>, kind: string, subjects: seq<string>, subject: string, state: string)
    returns (more: seq<Action>, longer: seq<World>)
    requires EndsSettled(actions, worlds, kind, subjects, state) && subject !in subjects
    requires |subjects| < MAX_OUTBOX_ENTRIES && IsTerminal(state)
    ensures EndsSettled(more, longer, kind, subjects + [subject], state)
  {
    var q := Outcome(kind, subject, state);
    ShapePut(worlds[|actions|].memory.states, kind, subjects, subject, state);
    UnknownSubject(worlds[|actions|].memory, q);
    RoomyEnqueue(worlds[|actions|].memory, q);
    more, longer := Deliver(actions, worlds, q);
  }

  /** One subject more evicts the oldest. */
  lemma OldestForgotten(w: World, kind: string, subjects: seq<string>, newest: string, state: string)
    requires Settled(w, kind, subjects, state) && |subjects| == MAX_OUTBOX_ENTRIES && newest !in subjects
    requires IsTerminal(state)
    ensures Refusal(w.memory, Outcome(kind, newest, "accepted")).None?
    ensures Key(kind, subjects[0]) !in WithOutcome(w.memory, Outcome(kind, newest, "accepted")).states.vals
  {
    var q := Outcome(kind, newest, "accepted");
    var states := Put(w.memory.states, Key(kind, newest), "accepted");
    ShapePut(w.memory.states, kind, subjects, newest, state);
    UnknownSubject(w.memory, q);
    NewestEvictsOldest(w.memory.states, Key(kind, newest));
    EvictedFacts(states);
    PopAllFacts(states, Evicted(states));
  }

  /** Main result, the failing runs: for every 2048 distinct subjects, one subject more, a terminal state
      and any other, there is a run in which the server is sent the first state of the first subject,
      acknowledges it, and is later sent the second: another terminal state, or `accepted` after it. The
      exemption of trimmed subjects is needed. */
  lemma ForgottenSubjectIsSentTwice(
      kind: string, subjects: seq<string>, newest: string, first: string, second: string)
    returns (actions: seq<Action>, w: World)
    requires NoDup(subjects) && |subjects| == MAX_OUTBOX_ENTRIES && newest !in subjects
    requires IsTerminal(first) && IsState(second)
    ensures Reachable(actions, w)
    ensures OutcomeId(kind, subjects[0], first) in w.sent && OutcomeId(kind, subjects[0], second) in w.sent
  {
    var again := Outcome(kind, subjects[0], second);
    var worlds;
    actions, worlds := AllFinish(kind, subjects, first);
    OldestForgotten(worlds[|actions|], kind, subjects, newest, first);
    actions, worlds := Deliver(actions, worlds, Outcome(kind, newest, "accepted"));
    UnknownSubject(worlds[|actions|].memory, again);
    actions, worlds := Deliver(actions, worlds, again);
    TraceIsRun(actions, worlds);
    w := worlds[|actions|];
  }

  /** Two terminal states of one subject. */
  predicate Contradict(a: OutcomeId, b: OutcomeId) {
    a.kind == b.kind && a.subject == b.subject && a.state != b.state && IsTerminal(a.state) && IsTerminal(b.state)
  }

  /** Without its exemption `NeverTwoTerminalStates` is false. */
  lemma SomeServerIsToldBoth() returns (actions: seq<Action>, w: World)
    ensures Reachable(actions, w) && exists a, b :: a in w.sent && b in w.sent && Contradict(a, b)
  {
    var subjects, newest := ManySubjects(MAX_OUTBOX_ENTRIES);
    actions, w := ForgottenSubjectIsSentTwice("command", subjects, newest, "completed", "rejected");
    assert Contradict(OutcomeId("command", subjects[0], "completed"), OutcomeId("command", subjects[0], "rejected"));
  }
}
