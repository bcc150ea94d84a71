/**
 Runs that end with a ledger the next process cannot load: 2048 subjects finish, all results but the
 oldest are acknowledged, and one more command arrives.
 */
module OutboxEviction {
  import opened Prelude
  import opened OrderedDict
  import opened Outbox
  import opened OutboxReload
  import opened OutboxRuns

  function Outcome(kind: string, subject: string, state: string): Request {
    Request(kind, subject, state, "control:ack", "{}", 2, 0)
  }

  lemma KeyInjective(kind: string, a: string, b: string)
    requires Key(kind, a) == Key(kind, b)
    ensures a == b
  {
    assert Key(kind, a)[|kind| + 1..] == a && Key(kind, b)[|kind| + 1..] == b;
  }

  ghost predicate IsKey(kind: string, subjects: seq<string>, k: string) {
    exists i :: 0 <= i < |subjects| && k == Key(kind, subjects[i])
  }

  ghost predicate Shape(d: Dict<string, string>, kind: string, subjects: seq<string>, state: string) {
    && ValidDict(d) && |d.order| == |subjects|
    && (forall k :: k in d.vals ==> d.vals[k] == state && HasColon(k) && IsKey(kind, subjects, k))
    && (subjects != [] ==> d.order[0] == Key(kind, subjects[0]) && d.order[0] in d.vals)
  }

  lemma NewKey(kind: string, subjects: seq<string>, subject: string)
    requires subject !in subjects
    ensures !IsKey(kind, subjects, Key(kind, subject))
  {
    if IsKey(kind, subjects, Key(kind, subject)) {
      var i :| 0 <= i < |subjects| && Key(kind, subject) == Key(kind, subjects[i]);
      KeyInjective(kind, subject, subjects[i]);
    }
  }

  lemma ShapePut(d: Dict<string, string>, kind: string, subjects: seq<string>, subject: string, state: string)
    requires Shape(d, kind, subjects, state) && subject !in subjects
    ensures Key(kind, subject) !in d.vals
    ensures Shape(Put(d, Key(kind, subject), state), kind, subjects + [subject], state)
  {
    var more := subjects + [subject];
    NewKey(kind, subjects, subject);
    KeyHasColon(kind, subject);
    assert forall i :: 0 <= i < |subjects| ==> more[i] == subjects[i];
    assert more[|subjects|] == subject;
  }

  // ---- A run that fills the ledger ----

  /** Every subject is known as finished; only the oldest result is pending, and it is promised. */
  ghost predicate Full(w: World, kind: string, subjects: seq<string>, state: string) {
    && Shape(w.memory.states, kind, subjects, state) && w.memory.attempted == {}
    && (if subjects == [] then w.memory.pending == []
        else w.memory.pending == [MakeRecord(Outcome(kind, subjects[0], state))]
             && MakeRecord(Outcome(kind, subjects[0], state)).id in w.promised)
  }

  /** The worlds a run passes through. */
  ghost predicate IsTrace(actions: seq<Action>, worlds: seq<World>) {
    && |worlds| == |actions| + 1 && worlds[0] == Init()
    && forall i :: 0 <= i < |actions| ==> IsStep(worlds[i], actions[i], worlds[i+1])
  }

  ghost predicate IsStep(w: World, a: Action, v: World) {
    OutboxRuns.Enabled(w, a) && v == OutboxRuns.Apply(w, a)
  }

  lemma TraceSnoc(actions: seq<Action>, worlds: seq<World>, a: Action, v: World)
    requires IsTrace(actions, worlds) && IsStep(worlds[|actions|], a, v)
    ensures IsTrace(actions + [a], worlds + [v])
  {
  }

  lemma {:induction false} TraceIsRun(actions: seq<Action>, worlds: seq<World>)
    requires IsTrace(actions, worlds)
    ensures Reachable(actions, worlds[|actions|])
  {
    if actions != [] {
      var n := |actions| - 1;
      TraceIsRun(actions[..n], worlds[..n+1]);
      RunSnoc(actions[..n], worlds[n], actions[n], worlds[n+1]);
      assert actions[..n] + [actions[n]] == actions;
    }
  }

  lemma RunSnoc(actions: seq<Action>, w: World, a: Action, v: World)
    requires Reachable(actions, w) && IsStep(w, a, v)
    ensures Reachable(actions + [a], v)
  {
    var more := actions + [a];
    assert more[..|more|-1] == actions;
    assert Reachable(more[..|more|-1], w) && OutboxRuns.Enabled(w, more[|more|-1]);
  }

  /** An unknown subject is refused only for its state or its size. */
  lemma UnknownSubject(m: Memory, q: Request)
    requires Key(q.kind, q.subject) !in m.states.vals && IsState(q.state) && q.size <= MAX_OUTCOME_BYTES
    ensures Refusal(m, q).None?
  {
  }

  /** A new outcome that evicts nobody. */
  lemma RoomyEnqueue(m: Memory, q: Request)
    requires !HasId(m.pending, MakeRecord(q).id)
    requires |Put(m.states, Key(q.kind, q.subject), q.state).order| <= MAX_OUTBOX_ENTRIES
    ensures WithOutcome(m, q)
            == m.(states := Put(m.states, Key(q.kind, q.subject), q.state), pending := m.pending + [MakeRecord(q)])
  {
    PutRecordFacts(m.pending, MakeRecord(q));
  }

  /** One more subject finishes. */
  lemma FinishOne(w: World, kind: string, subjects: seq<string>, subject: string, state: string) returns (v: World)
    requires Full(w, kind, subjects, state) && subject !in subjects
    requires |subjects| < MAX_OUTBOX_ENTRIES && IsTerminal(state)
    ensures IsStep(w, Enqueue(Outcome(kind, subject, state), Persisted, 0), v)
    ensures v.memory == Memory(Put(w.memory.states, Key(kind, subject), state),
                               w.memory.pending + [MakeRecord(Outcome(kind, subject, state))], {})
    ensures v.promised == w.promised + {MakeRecord(Outcome(kind, subject, state)).id}
  {
    ShapePut(w.memory.states, kind, subjects, subject, state);
    UnknownSubject(w.memory, Outcome(kind, subject, state));
    RoomyEnqueue(w.memory, Outcome(kind, subject, state));
    v := OutboxRuns.Apply(w, Enqueue(Outcome(kind, subject, state), Persisted, 0));
  }

  lemma AcknowledgedNewest(m: Memory, file: Option<File>, oldest: Record, newest: Record)
    requires m.pending == [oldest, newest] && oldest.id != newest.id && m.attempted == {}
    ensures AfterConfirm(m, file, newest.id, Persisted, 0).0 == m.(pending := [oldest])
  {
    assert FindRecord(m.pending[1..], newest.id) == Some(newest);
    assert RemoveRecord(m.pending[1..], newest.id) == [];
  }

  /** All results but the oldest are acknowledged. */
  lemma AcknowledgeOne(w: World, kind: string, subjects: seq<string>, subject: string, state: string, v: World)
    returns (u: World)
    requires Full(w, kind, subjects, state) && subjects != [] && subject !in subjects
    requires v.memory == Memory(Put(w.memory.states, Key(kind, subject), state),
                                w.memory.pending + [MakeRecord(Outcome(kind, subject, state))], {})
    requires v.promised == w.promised + {MakeRecord(Outcome(kind, subject, state)).id}
    ensures IsStep(v, Acknowledge(MakeRecord(Outcome(kind, subject, state)).id, Persisted, 0), u)
    ensures Full(u, kind, subjects + [subject], state)
  {
    var newest := MakeRecord(Outcome(kind, subject, state));
    ShapePut(w.memory.states, kind, subjects, subject, state);
    AcknowledgedNewest(v.memory, v.file, w.memory.pending[0], newest);
    u := OutboxRuns.Apply(v, Acknowledge(newest.id, Persisted, 0));
  }

  lemma OneMore(
      actions: seq<Action>, worlds: seq<World>, kind: string, subjects: seq<string>, subject: string, state: string)
    returns (more: seq<Action>, longer: seq<World>)
    requires IsTrace(actions, worlds) && Full(worlds[|actions|], kind, subjects, state) && subject !in subjects
    requires |subjects| < MAX_OUTBOX_ENTRIES && IsTerminal(state)
    ensures IsTrace(more, longer) && Full(longer[|more|], kind, subjects + [subject], state)
  {
    var w := worlds[|actions|];
    var v := FinishOne(w, kind, subjects, subject, state);
    more, longer := actions + [Enqueue(Outcome(kind, subject, state), Persisted, 0)], worlds + [v];
    TraceSnoc(actions, worlds, Enqueue(Outcome(kind, subject, state), Persisted, 0), v);
    if subjects == [] {
      ShapePut(w.memory.states, kind, subjects, subject, state);
    } else {
      var acknowledge := Acknowledge(MakeRecord(Outcome(kind, subject, state)).id, Persisted, 0);
      var u := AcknowledgeOne(w, kind, subjects, subject, state, v);
      TraceSnoc(more, longer, acknowledge, u);
      more, longer := more + [acknowledge], longer + [u];
    }
  }

  /** Each subject finishes in turn. */
  lemma {:induction false} FullRun(kind: string, subjects: seq<string>, state: string)
    returns (actions: seq<Action>, worlds: seq<World>)
    requires NoDup(subjects) && |subjects| <= MAX_OUTBOX_ENTRIES && IsTerminal(state)
    ensures IsTrace(actions, worlds) && Full(worlds[|actions|], kind, subjects, state)
  {
    if subjects == [] {
      actions, worlds := [], [Init()];
    } else {
      var front, last := subjects[..|subjects|-1], subjects[|subjects|-1];
      actions, worlds := FullRun(kind, front, state);
      actions, worlds := OneMore(actions, worlds, kind, front, last, state);
      assert front + [last] == subjects;
    }
  }

  // ---- The trim that hits the pending result ----

  lemma {:induction false} AllTerminal(order: seq<string>, states: map<string, string>)
    requires forall k :: k in order ==> k in states && IsTerminal(states[k])
    ensures TerminalKeys(order, states) == order
  {
    if order != [] {
      AllTerminal(order[1..], states);
      assert order == [order[0]] + order[1..];
    }
  }

  lemma {:induction false} TerminalSnoc(order: seq<string>, key: string, states: map<string, string>)
    requires key in states && !IsTerminal(states[key])
    ensures TerminalKeys(order + [key], states) == TerminalKeys(order, states)
  {
    if order == [] {
      assert [key][1..] == [];
    } else {
      assert (order + [key])[1..] == order[1..] + [key];
      TerminalSnoc(order[1..], key, states);
    }
  }

  lemma NewestEvictsOldest(d: Dict<string, string>, key: string)
    requires ValidDict(d) && |d.order| == MAX_OUTBOX_ENTRIES && key !in d.vals
    requires forall k :: k in d.vals ==> IsTerminal(d.vals[k])
    ensures d.order[0] in Evicted(Put(d, key, "accepted"))
  {
    var states := Put(d, key, "accepted");
    AllTerminal(d.order, states.vals);
    TerminalSnoc(d.order, key, states.vals);
    assert Evicted(states)[0] == d.order[0];
  }

  lemma FullLedgerOk(w: World, kind: string, subjects: seq<string>, state: string)
    requires Full(w, kind, subjects, state) && subjects != [] && IsTerminal(state) && kind != "" && subjects[0] != ""
    ensures MemoryOk(w.memory) && AllConsistent(w.memory)
  {
  }

  /** Main result, the failing runs: for every 2049 distinct subjects there is a run whose last enqueue
      succeeds and returns its record, whose oldest result is still promised, and whose file no later
      start accepts. */
  lemma EvictionBlocksTheNextStart(kind: string, subjects: seq<string>, newest: string, state: string, size: nat)
    returns (actions: seq<Action>, w: World)
    requires NoDup(subjects) && |subjects| == MAX_OUTBOX_ENTRIES && newest !in subjects
    requires kind != "" && subjects[0] != "" && newest != "" && IsTerminal(state) && size <= MAX_FILE_BYTES
    ensures Reachable(actions, w)
    ensures MakeRecord(Outcome(kind, subjects[0], state)).id in w.promised
    ensures MakeRecord(Outcome(kind, newest, "accepted")).id in w.promised
    ensures forall order :: !OutboxRuns.Enabled(w, CrashAndReload(order))
  {
    var front, worlds := FullRun(kind, subjects, state);
    w := BlockingEnqueue(worlds[|front|], kind, subjects, newest, state, size);
    actions := front + [Enqueue(Outcome(kind, newest, "accepted"), Persisted, size)];
    TraceSnoc(front, worlds, Enqueue(Outcome(kind, newest, "accepted"), Persisted, size), w);
    TraceIsRun(actions, worlds + [w]);
  }

  lemma BlockingEnqueue(v: World, kind: string, subjects: seq<string>, newest: string, state: string, size: nat)
    returns (w: World)
    requires Full(v, kind, subjects, state) && |subjects| == MAX_OUTBOX_ENTRIES && newest !in subjects
    requires kind != "" && subjects[0] != "" && newest != "" && IsTerminal(state) && size <= MAX_FILE_BYTES
    ensures IsStep(v, Enqueue(Outcome(kind, newest, "accepted"), Persisted, size), w)
    ensures w.promised == v.promised + {MakeRecord(Outcome(kind, newest, "accepted")).id}
    ensures forall order :: !OutboxRuns.Enabled(w, CrashAndReload(order))
  {
    TrimHitsOldest(v, kind, subjects, newest, state);
    FullLedgerOk(v, kind, subjects, state);
    w := BlockedFile(v, Outcome(kind, newest, "accepted"), size);
  }

  lemma TrimHitsOldest(v: World, kind: string, subjects: seq<string>, newest: string, state: string)
    requires Full(v, kind, subjects, state) && |subjects| == MAX_OUTBOX_ENTRIES && newest !in subjects
    requires IsTerminal(state)
    ensures Refusal(v.memory, Outcome(kind, newest, "accepted")).None?
    ensures !TrimIsSafe(v.memory, Outcome(kind, newest, "accepted"))
  {
    ShapePut(v.memory.states, kind, subjects, newest, state);
    UnknownSubject(v.memory, Outcome(kind, newest, "accepted"));
    NewestEvictsOldest(v.memory.states, Key(kind, newest));
    assert KeyOf(v.memory.pending[0]) == v.memory.states.order[0];
  }

  lemma BlockedFile(v: World, q: Request, size: nat) returns (w: World)
    requires MemoryOk(v.memory) && AllConsistent(v.memory) && |v.memory.pending| == 1
    requires Refusal(v.memory, q).None? && !TrimIsSafe(v.memory, q)
    requires q.kind != "" && q.subject != "" && size <= MAX_FILE_BYTES
    ensures IsStep(v, Enqueue(q, Persisted, size), w) && w.promised == v.promised + {MakeRecord(q).id}
    ensures forall order :: !OutboxRuns.Enabled(w, CrashAndReload(order))
  {
    assert |PutRecord(v.memory.pending, MakeRecord(q))| <= 2 by {
      assert v.memory.pending[1..] == [];
    }
    ReloadableIffTrimIsSafe(v.memory, q, size);
    w := OutboxRuns.Apply(v, Enqueue(q, Persisted, size));
  }

  /** As many distinct subjects as are needed. */
  lemma ManySubjects(n: nat) returns (subjects: seq<string>, newest: string)
    ensures |subjects| == n && NoDup(subjects) && newest !in subjects && newest != ""
    ensures forall i :: 0 <= i < n ==> subjects[i] != ""
  {
    subjects := seq(n, i requires 0 <= i < n => seq(i + 1, _ => 'x'));
    newest := seq(n + 1, _ => 'x');
    assert |newest| == n + 1 && forall i :: 0 <= i < n ==> |subjects[i]| == i + 1;
  }

  /** Such subjects exist, so some ledger does block its own next start. */
  lemma SomeLedgerBlocksTheNextStart() returns (actions: seq<Action>, w: World)
    ensures Reachable(actions, w) && w.promised != {}
    ensures forall order :: !OutboxRuns.Enabled(w, CrashAndReload(order))
  {
    var subjects, newest := ManySubjects(MAX_OUTBOX_ENTRIES);
    actions, w := EvictionBlocksTheNextStart("command", subjects, newest, "completed", 0);
  }
}
