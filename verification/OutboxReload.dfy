/** What comes back from disk: the round trip of the ledger and exactly when it fails. */
module OutboxReload {
  import opened OrderedDict
  import opened Outbox

  /** What `enqueue` guarantees of each record it creates. */
  ghost predicate RecordOk(r: Record) {
    && r.id == OutcomeId(r.kind, r.subject, r.state)
    && r.data.outcomeId == r.id
    && IsState(r.state) && 0 <= r.createdAt && r.data.size <= MAX_OUTCOME_BYTES
  }

  ghost predicate Named(r: Record) { r.kind != "" && r.subject != "" }

  /** A pending record agrees with the state of its subject, or is the `accepted` before it. */
  ghost predicate Consistent(states: map<string, string>, r: Record) {
    && KeyOf(r) in states
    && (r.state == states[KeyOf(r)] || (r.state == "accepted" && IsTerminal(states[KeyOf(r)])))
  }

  ghost predicate StatesOk(states: map<string, string>) {
    forall k :: k in states ==> HasColon(k) && IsState(states[k])
  }

  ghost predicate MemoryOk(m: Memory) {
    && ValidDict(m.states) && StatesOk(m.states.vals)
    && UniqueIds(m.pending) && |m.pending| <= MAX_OUTBOX_ENTRIES
    && (forall r :: r in m.pending ==> RecordOk(r))
    && (forall id :: id in m.attempted ==> HasId(m.pending, id))
  }

  ghost predicate AllConsistent(m: Memory) {
    forall r :: r in m.pending ==> Named(r) && Consistent(m.states.vals, r)
  }

  ghost predicate Enumerates(order: seq<string>, states: map<string, string>) {
    NoDup(order) && forall k :: k in order <==> k in states
  }

  /** Main result: with at most 2048 subjects and a file within 4 MiB, writing the ledger and
      loading it back gives the same state map, the same pending sequence and no attempts,
      whatever order the JSON text gives the subjects. */
  lemma RoundTrip(m: Memory, size: nat, order: seq<string>)
    requires MemoryOk(m) && AllConsistent(m)
    requires |m.states.order| <= MAX_OUTBOX_ENTRIES && size <= MAX_FILE_BYTES
    requires Enumerates(order, m.states.vals)
    ensures var f := Serialize(m, size);
            && Loads(f)
            && Loaded(f, order).states.vals == m.states.vals
            && Loaded(f, order).pending == m.pending
            && Loaded(f, order).attempted == {}
            && MemoryOk(Loaded(f, order)) && AllConsistent(Loaded(f, order))
  {
    PendingFromUnique(m.pending);
    EnumerationLength(m.states.order, m.states.vals);
    forall i | 0 <= i < |m.pending| ensures RecordLoads(m.states.vals, m.pending[i]) {
      assert m.pending[i] in m.pending;
    }
  }

  // ---- The effect of a successful enqueue ----

  lemma EnqueueKeepsStates(m: Memory, q: Request)
    requires ValidDict(m.states) && StatesOk(m.states.vals) && IsState(q.state)
    ensures ValidDict(WithOutcome(m, q).states) && StatesOk(WithOutcome(m, q).states.vals)
  {
    var states := Put(m.states, Key(q.kind, q.subject), q.state);
    KeyHasColon(q.kind, q.subject);
    EvictedFacts(states);
    PopAllFacts(states, Evicted(states));
  }

  lemma EnqueueKeepsMemoryOk(m: Memory, q: Request)
    requires MemoryOk(m) && Refusal(m, q).None?
    requires |WithOutcome(m, q).pending| <= MAX_OUTBOX_ENTRIES
    ensures MemoryOk(WithOutcome(m, q))
  {
    EnqueueKeepsStates(m, q);
    PutRecordFacts(m.pending, MakeRecord(q));
    forall id | id in m.attempted ensures HasId(WithOutcome(m, q).pending, id) {
      IdStays(m.pending, MakeRecord(q), id);
    }
  }

  lemma IdStays(pending: seq<Record>, r: Record, id: OutcomeId)
    requires HasId(pending, id) || id == r.id
    ensures HasId(PutRecord(pending, r), id)
  {
    PutRecordFacts(pending, r);
    var x := if id == r.id then r else var i :| 0 <= i < |pending| && pending[i].id == id; pending[i];
    assert x in PutRecord(pending, r);
  }

  /** The trim removes no subject that has a pending record after the enqueue. */
  predicate SparesPending(m: Memory, q: Request) {
    var evicted := Evicted(Put(m.states, Key(q.kind, q.subject), q.state));
    && Key(q.kind, q.subject) !in evicted
    && forall i :: 0 <= i < |m.pending| ==> KeyOf(m.pending[i]) !in evicted
  }

  /** The trim removes enough subjects, and none that still has a pending record. A caller can
      evaluate this before the call. */
  predicate TrimIsSafe(m: Memory, q: Request) {
    var states := Put(m.states, Key(q.kind, q.subject), q.state);
    SparesPending(m, q) && |states.order| - |Evicted(states)| <= MAX_OUTBOX_ENTRIES
  }

  /** Main result: `_trim` can make the next start fail, and this is exactly when it does not. For a
      ledger in order and an accepted request, the file written by the enqueue can be loaded again
      if and only if `TrimIsSafe`. */
  lemma ReloadableIffTrimIsSafe(m: Memory, q: Request, size: nat)
    requires MemoryOk(m) && AllConsistent(m)
    requires Refusal(m, q).None? && q.kind != "" && q.subject != ""
    requires |WithOutcome(m, q).pending| <= MAX_OUTBOX_ENTRIES && size <= MAX_FILE_BYTES
    ensures Loads(Serialize(WithOutcome(m, q), size)) <==> TrimIsSafe(m, q)
  {
    TrimmedStates(m, q);
    if TrimIsSafe(m, q) {
      SafeFileLoads(m, q, size);
    } else {
      UnsafeFileDoesNotLoad(m, q, size);
    }
  }

  lemma SafeFileLoads(m: Memory, q: Request, size: nat)
    requires MemoryOk(m) && AllConsistent(m) && TrimIsSafe(m, q)
    requires Refusal(m, q).None? && q.kind != "" && q.subject != ""
    requires |WithOutcome(m, q).pending| <= MAX_OUTBOX_ENTRIES && size <= MAX_FILE_BYTES
    ensures Loads(Serialize(WithOutcome(m, q), size))
  {
    var n := WithOutcome(m, q);
    EnqueueKeepsMemoryOk(m, q);
    PendingFromUnique(n.pending);
    TrimmedStates(m, q);
    EnumerationLength(n.states.order, n.states.vals);
    forall r | r in n.pending ensures RecordLoads(n.states.vals, r) {
      SparedRecordLoads(m, q, r);
    }
  }

  lemma UnsafeFileDoesNotLoad(m: Memory, q: Request, size: nat)
    requires MemoryOk(m) && AllConsistent(m) && Refusal(m, q).None? && !TrimIsSafe(m, q)
    requires |WithOutcome(m, q).pending| <= MAX_OUTBOX_ENTRIES
    ensures !Loads(Serialize(WithOutcome(m, q), size))
  {
    var n := WithOutcome(m, q);
    EnqueueKeepsMemoryOk(m, q);
    TrimmedStates(m, q);
    EnumerationLength(n.states.order, n.states.vals);
    if |n.states.order| <= MAX_OUTBOX_ENTRIES {
      OrphanDoesNotLoad(m, q);
      PendingFromUnique(n.pending);
    }
  }

  lemma TrimmedStates(m: Memory, q: Request)
    requires MemoryOk(m)
    ensures var states := Put(m.states, Key(q.kind, q.subject), q.state);
            var n := WithOutcome(m, q).states;
            && |n.order| == |states.order| - |Evicted(states)|
            && (forall k :: k in n.vals <==> k in states.vals && k !in Evicted(states))
            && (forall k :: k in n.vals ==> n.vals[k] == states.vals[k])
  {
    var states := Put(m.states, Key(q.kind, q.subject), q.state);
    EvictedFacts(states);
    PopAllFacts(states, Evicted(states));
  }

  lemma SparedRecordLoads(m: Memory, q: Request, r: Record)
    requires MemoryOk(m) && AllConsistent(m) && SparesPending(m, q)
    requires Refusal(m, q).None? && q.kind != "" && q.subject != ""
    requires r in WithOutcome(m, q).pending
    ensures RecordLoads(WithOutcome(m, q).states.vals, r)
  {
    TrimmedStates(m, q);
    PutRecordFacts(m.pending, MakeRecord(q));
    if r != MakeRecord(q) {
      var i :| 0 <= i < |m.pending| && m.pending[i] == r;
      assert KeyOf(m.pending[i]) !in Evicted(Put(m.states, Key(q.kind, q.subject), q.state));
    }
  }

  /** A pending record whose subject was evicted makes `_load` reject the file. */
  lemma OrphanDoesNotLoad(m: Memory, q: Request)
    requires MemoryOk(m) && AllConsistent(m) && Refusal(m, q).None? && !TrimIsSafe(m, q)
    requires |WithOutcome(m, q).states.order| <= MAX_OUTBOX_ENTRIES
    ensures exists i :: 0 <= i < |WithOutcome(m, q).pending|
                        && !RecordLoads(WithOutcome(m, q).states.vals, WithOutcome(m, q).pending[i])
  {
    var n := WithOutcome(m, q);
    var evicted := Evicted(Put(m.states, Key(q.kind, q.subject), q.state));
    TrimmedStates(m, q);
    PutRecordFacts(m.pending, MakeRecord(q));
    var orphan := MakeRecord(q);
    if Key(q.kind, q.subject) !in evicted {
      var i :| 0 <= i < |m.pending| && KeyOf(m.pending[i]) in evicted;
      orphan := m.pending[i];
      assert orphan in m.pending;
    }
    var i :| 0 <= i < |n.pending| && n.pending[i] == orphan;
    assert !RecordLoads(n.states.vals, n.pending[i]);
  }
}
