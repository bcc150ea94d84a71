/**
 Runs of the ledger against a server and a crashing process
 (`outbox.py` with the drain and acknowledgement code of `client_commands.py`).

 The adversary chooses every enqueue, send, acknowledgement, reconnect and crash, and how each
 write of the file ends. A crash loses the memory; the next start loads the file in whatever
 order its JSON text lists the subjects.
 */
module OutboxRuns {
  import opened Prelude
  import opened OrderedDict
  import opened Outbox
  import opened OutboxReload

  /** `drain` is the rest of the snapshot a drain is working through. `sent`, `trimmed` and
      `promised` are what an observer remembers: the outcomes the server was sent, the subjects
      `_trim` ever evicted from memory or file, and the outcomes `enqueue` returned a record for
      that no acknowledgement was processed for. */
  datatype World = World(
    memory: Memory,
    file: Option<File>,
    drain: seq<Record>,
    sent: set<OutcomeId>,
    trimmed: set<string>,
    promised: set<OutcomeId>)

  datatype Action =
    | Enqueue(q: Request, p: Persist, size: nat)
    | Acknowledge(id: OutcomeId, p: Persist, size: nat)
    | StartDrain
    | Send
    | CutDrain
    | Reconnect
    | CrashAndReload(order: seq<string>)

  function Init(): World { World(Memory(EmptyDict(), [], {}), None, [], {}, {}, {}) }

  ghost predicate Enabled(w: World, a: Action) {
    match a
    case Send => w.drain != []
    case CrashAndReload(order) =>
      w.file.Some? ==> Loads(w.file.value) && Enumerates(order, w.file.value.states)
    case _ => true
  }

  /** The enqueue replaces the file. */
  predicate WritesFile(m: Memory, q: Request, p: Persist) {
    Refusal(m, q).None? && |WithOutcome(m, q).pending| <= MAX_OUTBOX_ENTRIES && !p.FailedBeforeReplace?
  }

  /** Subjects this enqueue evicts from the memory or the file it writes. */
  function Trims(m: Memory, q: Request, p: Persist): set<string> {
    if !WritesFile(m, q, p) then {}
    else set k | k in Evicted(Put(m.states, Key(q.kind, q.subject), q.state))
  }

  ghost function Apply(w: World, a: Action): World
    requires Enabled(w, a)
  {
    match a
    case Enqueue(q, p, size) =>
      var r := AfterEnqueue(w.memory, w.file, q, p, size);
      w.(memory := r.memory, file := r.file,
         trimmed := w.trimmed + Trims(w.memory, q, p),
         promised := if r.reply.Recorded? then w.promised + {r.reply.record.id} else w.promised)
    case Acknowledge(id, p, size) =>
      var (m, f) := AfterConfirm(w.memory, w.file, id, p, size);
      w.(memory := m, file := f, promised := w.promised - {id})
    case StartDrain => w.(drain := Ready(w.memory.pending, w.memory.attempted))
    case Send =>
      var r := w.drain[0];
      w.(memory := AfterAttempt(w.memory, r.id), drain := w.drain[1..], sent := w.sent + {r.id})
    case CutDrain => w.(drain := [])
    case Reconnect => w.(memory := w.memory.(attempted := {}))
    case CrashAndReload(order) =>
      w.(memory := if w.file.None? then Memory(EmptyDict(), [], {}) else Loaded(w.file.value, order),
         drain := [])
  }

  ghost predicate Reachable(actions: seq<Action>, w: World)
    decreases |actions|
  {
    if actions == [] then w == Init()
    else
      var a := actions[|actions|-1];
      exists v :: Reachable(actions[..|actions|-1], v) && Enabled(v, a) && w == Apply(v, a)
  }

  // ---- The invariant ----

  /** The state map fixes terminal state `state` for subject `key`. */
  predicate Fixes(states: map<string, string>, key: string, state: string) {
    key in states && states[key] == state
  }

  /** Terminal records agree with the state map, except for trimmed subjects. */
  ghost predicate Agrees(pending: seq<Record>, states: map<string, string>, trimmed: set<string>) {
    forall r :: r in pending && IsTerminal(r.state) && KeyOf(r) !in trimmed ==> Fixes(states, KeyOf(r), r.state)
  }

  /** Terminal states of `inner` are fixed in `outer` too, except for trimmed subjects. */
  ghost predicate Carries(inner: map<string, string>, outer: map<string, string>, trimmed: set<string>) {
    forall k :: k in inner && IsTerminal(inner[k]) && k !in trimmed ==> Fixes(outer, k, inner[k])
  }

  ghost predicate SentFixed(sent: set<OutcomeId>, states: map<string, string>, trimmed: set<string>) {
    forall id :: id in sent && IsTerminal(id.state) && KeyOfId(id) !in trimmed ==> Fixes(states, KeyOfId(id), id.state)
  }

  function FileStates(w: World): map<string, string> {
    if w.file.None? then map[] else w.file.value.states
  }

  function FilePending(w: World): seq<Record> {
    if w.file.None? then [] else w.file.value.pending
  }

  ghost predicate Records(pending: seq<Record>) {
    UniqueIds(pending) && forall r :: r in pending ==> RecordOk(r)
  }

  ghost predicate Inv(w: World) {
    && ValidDict(w.memory.states)
    && Records(w.memory.pending) && Records(FilePending(w)) && (forall r :: r in w.drain ==> RecordOk(r))
    && Agrees(w.memory.pending, w.memory.states.vals, w.trimmed)
    && Agrees(FilePending(w), FileStates(w), w.trimmed)
    && Agrees(w.drain, w.memory.states.vals, w.trimmed)
    && Carries(w.memory.states.vals, FileStates(w), w.trimmed)
    && SentFixed(w.sent, w.memory.states.vals, w.trimmed)
  }

  /** After a recorded enqueue: everything terminal that was fixed stays fixed. */
  lemma EnqueueStates(m: Memory, q: Request, trimmed: set<string>)
    requires ValidDict(m.states) && Refusal(m, q).None?
    ensures var n := WithOutcome(m, q);
            var t := trimmed + set k | k in Evicted(Put(m.states, Key(q.kind, q.subject), q.state));
            && ValidDict(n.states)
            && Carries(m.states.vals, n.states.vals, t)
            && (Key(q.kind, q.subject) !in t ==> Fixes(n.states.vals, Key(q.kind, q.subject), q.state))
            && (forall k :: k in m.states.vals && IsTerminal(m.states.vals[k]) ==> k != Key(q.kind, q.subject))
  {
    var states := Put(m.states, Key(q.kind, q.subject), q.state);
    EvictedFacts(states);
    PopAllFacts(states, Evicted(states));
  }

  lemma EnqueuePending(m: Memory, q: Request, trimmed: set<string>)
    requires ValidDict(m.states) && Records(m.pending) && Refusal(m, q).None?
    requires Agrees(m.pending, m.states.vals, trimmed)
    ensures var n := WithOutcome(m, q);
            var t := trimmed + set k | k in Evicted(Put(m.states, Key(q.kind, q.subject), q.state));
            Records(n.pending) && Agrees(n.pending, n.states.vals, t)
  {
    var n := WithOutcome(m, q);
    var t := trimmed + set k | k in Evicted(Put(m.states, Key(q.kind, q.subject), q.state));
    EnqueueStates(m, q, trimmed);
    PutRecordFacts(m.pending, MakeRecord(q));
    forall r | r in n.pending && IsTerminal(r.state) && KeyOf(r) !in t ensures Fixes(n.states.vals, KeyOf(r), r.state) {
      if r != MakeRecord(q) {
        assert Fixes(m.states.vals, KeyOf(r), r.state);
      }
    }
  }

  /** What agreed with the state map, or was fixed by it, still is in a map that carries it on. */
  lemma CarriedOn(pending: seq<Record>, sent: set<OutcomeId>, inner: map<string, string>, outer: map<string, string>,
                  trimmed: set<string>, more: set<string>)
    requires Carries(inner, outer, more) && trimmed <= more
    ensures Agrees(pending, inner, trimmed) ==> Agrees(pending, outer, more)
    ensures SentFixed(sent, inner, trimmed) ==> SentFixed(sent, outer, more)
  {
    if Agrees(pending, inner, trimmed) {
      forall r | r in pending && IsTerminal(r.state) && KeyOf(r) !in more ensures Fixes(outer, KeyOf(r), r.state) {
        assert Fixes(inner, KeyOf(r), r.state);
      }
    }
    if SentFixed(sent, inner, trimmed) {
      forall id | id in sent && IsTerminal(id.state) && KeyOfId(id) !in more
        ensures Fixes(outer, KeyOfId(id), id.state)
      {
        assert Fixes(inner, KeyOfId(id), id.state);
      }
    }
  }

  /** The invariant of a world whose memory and file are both the next memory, or only the file. */
  lemma WrittenStep(w: World, q: Request, size: nat, t: set<string>, promised: set<OutcomeId>)
    requires Inv(w) && Refusal(w.memory, q).None?
    requires t == w.trimmed + set k | k in Evicted(Put(w.memory.states, Key(q.kind, q.subject), q.state))
    ensures var n := WithOutcome(w.memory, q);
            && Inv(w.(memory := n, file := Some(Serialize(n, size)), trimmed := t, promised := promised))
            && Inv(w.(file := Some(Serialize(n, size)), trimmed := t))
  {
    var m, n := w.memory, WithOutcome(w.memory, q);
    EnqueueStates(m, q, w.trimmed);
    EnqueuePending(m, q, w.trimmed);
    CarriedOn(w.drain, w.sent, m.states.vals, n.states.vals, w.trimmed, t);
  }

  lemma EnqueueStep(w: World, q: Request, p: Persist, size: nat)
    requires Inv(w)
    ensures Inv(Apply(w, Enqueue(q, p, size)))
  {
    if WritesFile(w.memory, q, p) {
      WrittenStep(w, q, size, w.trimmed + Trims(w.memory, q, p), w.promised + {MakeRecord(q).id});
    } else {
      assert Apply(w, Enqueue(q, p, size)) == w;
    }
  }

  lemma AcknowledgeStep(w: World, id: OutcomeId, p: Persist, size: nat)
    requires Inv(w)
    ensures Inv(Apply(w, Acknowledge(id, p, size)))
  {
    FindRecordFacts(w.memory.pending, id);
    RemoveRecordFacts(w.memory.pending, id);
    if FindRecord(w.memory.pending, id).Some? {
      var record := FindRecord(w.memory.pending, id).value;
      var rest := RemoveRecord(w.memory.pending, id);
      assert forall r :: r in rest + [record] <==> r in rest || r == record;
    }
  }

  lemma ReloadStep(w: World, order: seq<string>)
    requires Inv(w) && Enabled(w, CrashAndReload(order))
    ensures Inv(Apply(w, CrashAndReload(order)))
  {
    if w.file.Some? {
      PendingFromUnique(w.file.value.pending);
      SentCarried(w);
    }
  }

  /** What the server was sent is fixed in the file as well. */
  lemma SentCarried(w: World)
    requires Inv(w)
    ensures SentFixed(w.sent, FileStates(w), w.trimmed)
  {
    forall id | id in w.sent && IsTerminal(id.state) && KeyOfId(id) !in w.trimmed
      ensures Fixes(FileStates(w), KeyOfId(id), id.state)
    {
      assert Fixes(w.memory.states.vals, KeyOfId(id), id.state);
    }
  }

  lemma SendStep(w: World)
    requires Inv(w) && w.drain != []
    ensures Inv(Apply(w, Send))
  {
    var r := w.drain[0];
    assert r in w.drain && RecordOk(r);
    assert forall x :: x in w.drain[1..] ==> x in w.drain;
  }

  lemma StepKeepsInv(w: World, a: Action)
    requires Inv(w) && Enabled(w, a)
    ensures Inv(Apply(w, a))
  {
    match a {
      case Enqueue(q, p, size) => EnqueueStep(w, q, p, size);
      case Acknowledge(id, p, size) => AcknowledgeStep(w, id, p, size);
      case StartDrain => ReadyFacts(w.memory.pending, w.memory.attempted);
      case Send => SendStep(w);
      case CutDrain =>
      case Reconnect =>
      case CrashAndReload(order) =>
        ReloadStep(w, order);
        if w.file.None? { SentCarried(w); }
    }
  }

  lemma {:induction false} InvHolds(actions: seq<Action>, w: World)
    requires Reachable(actions, w)
    ensures Inv(w)
  {
    if actions != [] {
      var a := actions[|actions|-1];
      var v :| Reachable(actions[..|actions|-1], v) && Enabled(v, a) && w == Apply(v, a);
      InvHolds(actions[..|actions|-1], v);
      StepKeepsInv(v, a);
    }
  }

  /** Main result: over every run the server is never sent two different terminal states for one
      subject, as long as that subject's own state was never trimmed. */
  lemma NeverTwoTerminalStates(actions: seq<Action>, w: World, a: OutcomeId, b: OutcomeId)
    requires Reachable(actions, w)
    requires a in w.sent && b in w.sent && IsTerminal(a.state) && IsTerminal(b.state)
    requires a.kind == b.kind && a.subject == b.subject && KeyOfId(a) !in w.trimmed
    ensures a.state == b.state
  {
    InvHolds(actions, w);
    assert Fixes(w.memory.states.vals, KeyOfId(a), a.state);
    assert Fixes(w.memory.states.vals, KeyOfId(b), b.state);
  }

  // ---- Durability ----

  ghost predicate Holds(pending: seq<Record>, promised: set<OutcomeId>) {
    forall id :: id in promised ==> HasId(pending, id)
  }

  ghost predicate Durable(w: World) {
    && UniqueIds(w.memory.pending) && UniqueIds(FilePending(w))
    && Holds(w.memory.pending, w.promised)
    && Holds(FilePending(w), w.promised)
  }

  lemma RemovalHolds(pending: seq<Record>, promised: set<OutcomeId>, id: OutcomeId)
    requires UniqueIds(pending) && Holds(pending, promised)
    ensures Holds(RemoveRecord(pending, id), promised - {id})
  {
    RemoveRecordFacts(pending, id);
    forall x | x in promised - {id} ensures HasId(RemoveRecord(pending, id), x) {
      var i :| 0 <= i < |pending| && pending[i].id == x;
      assert pending[i] in RemoveRecord(pending, id);
    }
  }

  lemma PutHolds(pending: seq<Record>, promised: set<OutcomeId>, r: Record)
    requires Holds(pending, promised)
    ensures Holds(PutRecord(pending, r), promised + {r.id})
  {
    forall x | x in promised + {r.id} ensures HasId(PutRecord(pending, r), x) {
      IdStays(pending, r, x);
    }
  }

  lemma AppendHolds(pending: seq<Record>, promised: set<OutcomeId>, r: Record)
    requires Holds(pending, promised)
    ensures Holds(pending + [r], promised)
  {
    forall x | x in promised ensures HasId(pending + [r], x) {
      var i :| 0 <= i < |pending| && pending[i].id == x;
      assert (pending + [r])[i].id == x;
    }
  }

  lemma DurableEnqueue(w: World, q: Request, p: Persist, size: nat)
    requires Durable(w)
    ensures Durable(Apply(w, Enqueue(q, p, size)))
  {
    PutDurable(w.memory.pending, w.promised, MakeRecord(q));
  }

  lemma PutDurable(pending: seq<Record>, promised: set<OutcomeId>, r: Record)
    requires UniqueIds(pending) && Holds(pending, promised)
    ensures UniqueIds(PutRecord(pending, r))
    ensures Holds(PutRecord(pending, r), promised) && Holds(PutRecord(pending, r), promised + {r.id})
  {
    PutRecordFacts(pending, r);
    PutHolds(pending, promised, r);
  }

  lemma DurableAcknowledge(w: World, id: OutcomeId, p: Persist, size: nat)
    requires Durable(w)
    ensures Durable(Apply(w, Acknowledge(id, p, size)))
  {
    var m := w.memory;
    FindRecordFacts(m.pending, id);
    RemoveRecordFacts(m.pending, id);
    RemovalHolds(m.pending, w.promised, id);
    if FindRecord(m.pending, id).Some? {
      AppendHolds(RemoveRecord(m.pending, id), w.promised - {id}, FindRecord(m.pending, id).value);
    } else {
      assert w.promised - {id} <= w.promised;
    }
  }

  lemma DurableStep(w: World, a: Action)
    requires Durable(w) && Enabled(w, a)
    ensures Durable(Apply(w, a))
  {
    match a {
      case Enqueue(q, p, size) => DurableEnqueue(w, q, p, size);
      case Acknowledge(id, p, size) => DurableAcknowledge(w, id, p, size);
      case CrashAndReload(_) =>
        if w.file.Some? { PendingFromUnique(w.file.value.pending); }
      case _ =>
    }
  }

  /** Main result: every outcome for which `enqueue` returned a record and for which no
      acknowledgement was processed is pending both in memory and on disk, after every step of
      every run. */
  lemma {:induction false} PromisedOutcomesAreOnDisk(actions: seq<Action>, w: World)
    requires Reachable(actions, w)
    ensures Durable(w)
  {
    if actions != [] {
      var a := actions[|actions|-1];
      var v :| Reachable(actions[..|actions|-1], v) && Enabled(v, a) && w == Apply(v, a);
      PromisedOutcomesAreOnDisk(actions[..|actions|-1], v);
      DurableStep(v, a);
    }
  }

  // ---- The answers on the fields alone ----

  /** Main result, both directions: in every ledger in order, and so after every run, a write that
      persists records an outcome exactly when its subject is unknown, or known as `accepted` and the
      new state is a terminal one, and the state is a known one, the payload fits and the pending
      records fit. A recorded outcome is promised and pending with the request's own fields, in memory
      and on disk, and an untrimmed subject carries its state; otherwise nothing changes. */
  lemma EnqueueIsExact(w: World, q: Request, size: nat)
    requires ValidDict(w.memory.states) && UniqueIds(w.memory.pending)
    ensures var key, known, id := Key(q.kind, q.subject), w.memory.states.vals, OutcomeId(q.kind, q.subject, q.state);
            var next := Apply(w, Enqueue(q, Persisted, size));
            var fits := |w.memory.pending| + (if HasId(w.memory.pending, id) then 0 else 1) <= MAX_OUTBOX_ENTRIES;
            if (key !in known || (known[key] == "accepted" && IsTerminal(q.state)))
               && IsState(q.state) && q.size <= MAX_OUTCOME_BYTES && fits
            then
              && next.promised == w.promised + {id}
              && Record(id, q.kind, q.subject, q.state, q.event, Payload(q.body, id, q.size), q.now)
                 in next.memory.pending
              && next.file == Some(File(next.memory.states.vals, next.memory.pending, size))
              && (forall r :: r in w.memory.pending && r.id != id ==> r in next.memory.pending)
              && (forall k :: k in next.memory.states.vals && k != key ==>
                    k in known && next.memory.states.vals[k] == known[k])
              && (key !in next.trimmed ==> key in next.memory.states.vals && next.memory.states.vals[key] == q.state)
              && next.drain == w.drain && next.sent == w.sent && next.memory.attempted == w.memory.attempted
            else next == w
  {
    EnqueueAnswer(w.memory, w.file, q, Persisted, size);
    if AfterEnqueue(w.memory, w.file, q, Persisted, size).reply.Recorded? {
      EnqueueEffect(w.memory, w.file, q, Persisted, size);
      EnqueueStates(w.memory, q, w.trimmed);
    }
  }

  /** The other steps of a run, on the fields alone. */
  lemma StepsAreExact(w: World, id: OutcomeId)
    ensures Apply(w, Reconnect) == w.(memory := w.memory.(attempted := {}))
    ensures Apply(w, CutDrain) == w.(drain := [])
    ensures var d := Apply(w, StartDrain).drain;
            && Apply(w, StartDrain) == w.(drain := d) && Subseq(d, w.memory.pending)
            && forall r :: r in d <==> r in w.memory.pending && r.id !in w.memory.attempted
    ensures w.drain != [] ==>
              var r, next := w.drain[0], Apply(w, Send);
              && next.drain == w.drain[1..] && next.sent == w.sent + {r.id}
              && next == w.(memory := next.memory, drain := next.drain, sent := next.sent)
              && next.memory == w.memory.(attempted := next.memory.attempted)
              && next.memory.attempted
                 == w.memory.attempted + if HasId(w.memory.pending, r.id) then {r.id} else {}
    ensures forall p, size :: Apply(w, Acknowledge(id, p, size)).promised == w.promised - {id}
  {
    ReadyFacts(w.memory.pending, w.memory.attempted);
    ReadySubseq(w.memory.pending, w.memory.attempted);
  }

  lemma {:induction false} ReadySubseq(pending: seq<Record>, attempted: set<OutcomeId>)
    ensures Subseq(Ready(pending, attempted), pending)
  {
    if pending != [] {
      var rest := Ready(pending[1..], attempted);
      ReadySubseq(pending[1..], attempted);
      assert pending == [pending[0]] + pending[1..];
      if pending[0].id in attempted {
        SubseqCons(pending[0], rest, pending[1..]);
      } else {
        SubseqPrefix([pending[0]], rest, pending[1..]);
      }
    }
  }

  // ---- When every file of a run loads ----

  /** The source builds every outcome with a constant kind and a non-empty action id; an enqueue that
      replaces the file trims no subject that has a pending record. */
  predicate Sparing(m: Memory, a: Action) {
    a.Enqueue? && WritesFile(m, a.q, a.p) ==> a.q.kind != "" && a.q.subject != "" && SparesPending(m, a.q)
  }

  /** A run all of whose trims spared the pending records. */
  ghost predicate SparingRun(actions: seq<Action>, w: World)
    decreases |actions|
  {
    if actions == [] then w == Init()
    else
      var a := actions[|actions|-1];
      exists v :: SparingRun(actions[..|actions|-1], v) && Enabled(v, a) && Sparing(v.memory, a) && w == Apply(v, a)
  }

  lemma {:induction false} SparingRunIsRun(actions: seq<Action>, w: World)
    requires SparingRun(actions, w)
    ensures Reachable(actions, w)
  {
    if actions != [] {
      var front, a := actions[..|actions|-1], actions[|actions|-1];
      var v :| SparingRun(front, v) && Enabled(v, a) && Sparing(v.memory, a) && w == Apply(v, a);
      SparingRunIsRun(front, v);
    }
  }

  /** A run with named requests that never trimmed anything is such a run. */
  lemma {:induction false} UntrimmedRunIsSparing(actions: seq<Action>, w: World)
    requires Reachable(actions, w) && w.trimmed == {}
    requires forall i :: 0 <= i < |actions| && actions[i].Enqueue? ==>
               actions[i].q.kind != "" && actions[i].q.subject != ""
    ensures SparingRun(actions, w)
  {
    if actions != [] {
      var front, a := actions[..|actions|-1], actions[|actions|-1];
      var v :| Reachable(front, v) && Enabled(v, a) && w == Apply(v, a);
      assert v.trimmed <= w.trimmed;
      UntrimmedRunIsSparing(front, v);
      if a.Enqueue? && WritesFile(v.memory, a.q, a.p) {
        var evicted := Evicted(Put(v.memory.states, Key(a.q.kind, a.q.subject), a.q.state));
        assert forall i :: 0 <= i < |evicted| ==> evicted[i] in Trims(v.memory, a.q, a.p);
      }
    }
  }

  ghost predicate AllMatch(pending: seq<Record>, states: map<string, string>) {
    forall r :: r in pending ==> Named(r) && Consistent(states, r)
  }

  ghost predicate FileMatches(f: Option<File>) {
    f.Some? ==>
      && StatesOk(f.value.states) && Records(f.value.pending) && |f.value.pending| <= MAX_OUTBOX_ENTRIES
      && AllMatch(f.value.pending, f.value.states)
  }

  ghost predicate Matched(w: World) {
    MemoryOk(w.memory) && AllConsistent(w.memory) && FileMatches(w.file)
  }

  lemma SparingEnqueue(m: Memory, q: Request)
    requires MemoryOk(m) && AllConsistent(m) && SparesPending(m, q)
    requires Refusal(m, q).None? && q.kind != "" && q.subject != ""
    requires |WithOutcome(m, q).pending| <= MAX_OUTBOX_ENTRIES
    ensures MemoryOk(WithOutcome(m, q)) && AllConsistent(WithOutcome(m, q))
  {
    EnqueueKeepsMemoryOk(m, q);
    forall r | r in WithOutcome(m, q).pending
      ensures Named(r) && Consistent(WithOutcome(m, q).states.vals, r)
    {
      SparedRecordLoads(m, q, r);
    }
  }

  lemma SparingEnqueueStep(w: World, q: Request, p: Persist, size: nat)
    requires Matched(w) && Sparing(w.memory, Enqueue(q, p, size))
    ensures Matched(Apply(w, Enqueue(q, p, size)))
  {
    if WritesFile(w.memory, q, p) {
      SparingEnqueue(w.memory, q);
    }
  }

  lemma SparingAcknowledge(w: World, id: OutcomeId, p: Persist, size: nat)
    requires Matched(w)
    ensures Matched(Apply(w, Acknowledge(id, p, size)))
  {
    var m := w.memory;
    FindRecordFacts(m.pending, id);
    RemoveRecordFacts(m.pending, id);
    if FindRecord(m.pending, id).Some? {
      var rest := RemoveRecord(m.pending, id);
      var record := FindRecord(m.pending, id).value;
      RemovalHolds(m.pending, m.attempted, id);
      AppendHolds(rest, m.attempted - {id}, record);
      assert forall r :: r in rest + [record] <==> r in m.pending;
    }
  }

  lemma SparingStep(w: World, a: Action)
    requires Matched(w) && Enabled(w, a) && Sparing(w.memory, a)
    ensures Matched(Apply(w, a))
  {
    match a {
      case Enqueue(q, p, size) => SparingEnqueueStep(w, q, p, size);
      case Acknowledge(id, p, size) => SparingAcknowledge(w, id, p, size);
      case CrashAndReload(order) =>
        if w.file.Some? { PendingFromUnique(w.file.value.pending); }
      case _ =>
    }
  }

  lemma {:induction false} SparingHolds(actions: seq<Action>, w: World)
    requires SparingRun(actions, w)
    ensures Matched(w)
  {
    if actions != [] {
      var front, a := actions[..|actions|-1], actions[|actions|-1];
      var v :| SparingRun(front, v) && Enabled(v, a) && Sparing(v.memory, a) && w == Apply(v, a);
      SparingHolds(front, v);
      SparingStep(v, a);
    }
  }

  lemma MatchingFileLoads(f: File)
    requires FileMatches(Some(f)) && |f.states| <= MAX_OUTBOX_ENTRIES && f.size <= MAX_FILE_BYTES
    ensures Loads(f) && PendingFrom(f.pending) == f.pending
  {
    PendingFromUnique(f.pending);
    forall i | 0 <= i < |f.pending| ensures RecordLoads(f.states, f.pending[i]) {
      assert f.pending[i] in f.pending;
    }
  }

  /** Main result: in every run whose trims spared the pending records, whatever writes failed on the
      way, a file with at most 2048 subjects and 4 MiB passes every check of `_load`, and comes back
      with its own state map and pending sequence and no attempts. */
  lemma SparingFilesLoad(actions: seq<Action>, w: World, order: seq<string>)
    requires SparingRun(actions, w) && w.file.Some?
    requires |w.file.value.states| <= MAX_OUTBOX_ENTRIES && w.file.value.size <= MAX_FILE_BYTES
    requires Enumerates(order, w.file.value.states)
    ensures Enabled(w, CrashAndReload(order))
    ensures var m := Apply(w, CrashAndReload(order)).memory;
            m.states.vals == w.file.value.states && m.pending == w.file.value.pending && m.attempted == {}
    ensures MemoryOk(w.memory) && AllConsistent(w.memory)
  {
    SparingHolds(actions, w);
    MatchingFileLoads(w.file.value);
  }

  /** Main result, both directions: after such a run, an enqueue that replaces the file leaves one the
      next process can load if and only if its trim, too, spares the pending records and removes
      enough subjects. The first trim that hits a pending subject is the one that blocks the restart. */
  lemma RestartIffTrimIsSafe(actions: seq<Action>, w: World, q: Request, p: Persist, size: nat)
    requires SparingRun(actions, w) && WritesFile(w.memory, q, p)
    requires q.kind != "" && q.subject != "" && size <= MAX_FILE_BYTES
    ensures Apply(w, Enqueue(q, p, size)).file.Some?
    ensures Loads(Apply(w, Enqueue(q, p, size)).file.value) <==> TrimIsSafe(w.memory, q)
  {
    SparingHolds(actions, w);
    ReloadableIffTrimIsSafe(w.memory, q, size);
  }
}
