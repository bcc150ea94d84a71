/** The durable outcome ledger (`botparty_robot/outbox.py`): one process's memory and its file. */
module Outbox {
  import opened Prelude
  import opened OrderedDict

  const MAX_OUTBOX_ENTRIES: nat := 2048
  const MAX_OUTCOME_BYTES: nat := 64 * 1024
  const MAX_FILE_BYTES: nat := 4 * 1024 * 1024

  /** The SHA-256 of kind, subject and state, taken to be injective. */
  datatype OutcomeId = OutcomeId(kind: string, subject: string, state: string)

  /** The JSON payload: its own fields, the outcome id stored in it, and its encoded size. */
  datatype Payload = Payload(body: string, outcomeId: OutcomeId, size: nat)

  datatype Record = Record(id: OutcomeId, kind: string, subject: string, state: string,
                           event: string, data: Payload, createdAt: int)

  /** The dictionaries `_states` and `_pending` (keyed by record id) and the set `_attempted`. */
  datatype Memory = Memory(states: Dict<string, string>, pending: seq<Record>, attempted: set<OutcomeId>)

  /** The file `outcomes.json`. A JSON object written with sorted keys keeps no insertion order. */
  datatype File = File(states: map<string, string>, pending: seq<Record>, size: nat)

  datatype Request = Request(kind: string, subject: string, state: string, event: string,
                             body: string, size: nat, now: nat)

  datatype Reply = Recorded(record: Record) | Duplicate | Refused(reason: string)

  /** How `_persist` ends: it can fail before `os.replace`, or after it when the directory cannot
      be synchronised. */
  datatype Persist = Persisted | FailedBeforeReplace | FailedAfterReplace

  predicate IsTerminal(state: string) {
    state in {"completed", "rejected", "failed", "superseded", "cancelled_by_stop"}
  }

  predicate IsState(state: string) { state == "accepted" || IsTerminal(state) }

  function Key(kind: string, subject: string): string { kind + ":" + subject }

  function KeyOf(r: Record): string { Key(r.kind, r.subject) }

  function KeyOfId(id: OutcomeId): string { Key(id.kind, id.subject) }

  function MakeRecord(q: Request): Record {
    var id := OutcomeId(q.kind, q.subject, q.state);
    Record(id, q.kind, q.subject, q.state, q.event, Payload(q.body, id, q.size), q.now)
  }

  function Lookup(states: Dict<string, string>, key: string): Option<string> {
    if key in states.vals then Some(states.vals[key]) else None
  }

  // ---- The pending dictionary ----

  predicate HasId(pending: seq<Record>, id: OutcomeId) {
    exists i :: 0 <= i < |pending| && pending[i].id == id
  }

  function PutRecord(pending: seq<Record>, r: Record): seq<Record> {
    if pending == [] then [r]
    else if pending[0].id == r.id then [r] + pending[1..]
    else [pending[0]] + PutRecord(pending[1..], r)
  }

  function RemoveRecord(pending: seq<Record>, id: OutcomeId): seq<Record> {
    if pending == [] then []
    else if pending[0].id == id then pending[1..]
    else [pending[0]] + RemoveRecord(pending[1..], id)
  }

  ghost predicate UniqueIds(pending: seq<Record>) {
    forall i, j :: 0 <= i < j < |pending| ==> pending[i].id != pending[j].id
  }

  // ---- Trimming ----

  function TerminalKeys(order: seq<string>, states: map<string, string>): seq<string> {
    if order == [] then []
    else if order[0] in states && IsTerminal(states[order[0]]) then
      [order[0]] + TerminalKeys(order[1..], states)
    else TerminalKeys(order[1..], states)
  }

  /** The oldest terminal subjects, as many as there are too many subjects. */
  function Evicted(states: Dict<string, string>): seq<string> {
    var keys := TerminalKeys(states.order, states.vals);
    if |states.order| <= MAX_OUTBOX_ENTRIES then []
    else if |keys| <= |states.order| - MAX_OUTBOX_ENTRIES then keys
    else keys[..|states.order| - MAX_OUTBOX_ENTRIES]
  }

  // ---- enqueue and mark_confirmed ----

  function Refusal(m: Memory, q: Request): Option<Reply> {
    var previous := Lookup(m.states, Key(q.kind, q.subject));
    if previous.Some? && IsTerminal(previous.value) then Some(Duplicate)
    else if q.state == "accepted" && previous == Some("accepted") then Some(Duplicate)
    else if previous.Some? && previous.value != "accepted" then Some(Refused("invalid outcome transition"))
    else if !IsState(q.state) then Some(Refused("unsupported outcome state"))
    else if q.size > MAX_OUTCOME_BYTES then Some(Refused("outcome payload exceeds 64 KiB"))
    else None
  }

  /** Memory after a successful enqueue, trimmed. */
  function WithOutcome(m: Memory, q: Request): Memory {
    var states := Put(m.states, Key(q.kind, q.subject), q.state);
    m.(states := PopAll(states, Evicted(states)), pending := PutRecord(m.pending, MakeRecord(q)))
  }

  function Serialize(m: Memory, size: nat): File { File(m.states.vals, m.pending, size) }

  datatype Step = Step(memory: Memory, file: Option<File>, reply: Reply)

  function AfterEnqueue(m: Memory, file: Option<File>, q: Request, p: Persist, size: nat): Step {
    var refusal := Refusal(m, q);
    if refusal.Some? then Step(m, file, refusal.value)
    else
      var next := WithOutcome(m, q);
      if |next.pending| > MAX_OUTBOX_ENTRIES then Step(m, file, Refused("outcome outbox capacity is exhausted"))
      else
        match p
        case Persisted => Step(next, Some(Serialize(next, size)), Recorded(MakeRecord(q)))
        case FailedBeforeReplace => Step(m, file, Refused("could not persist outcome outbox"))
        case FailedAfterReplace => Step(m, Some(Serialize(next, size)), Refused("could not persist outcome outbox"))
  }

  function FindRecord(pending: seq<Record>, id: OutcomeId): Option<Record> {
    if pending == [] then None
    else if pending[0].id == id then Some(pending[0])
    else FindRecord(pending[1..], id)
  }

  function AfterConfirm(m: Memory, file: Option<File>, id: OutcomeId, p: Persist, size: nat): (Memory, Option<File>) {
    var found := FindRecord(m.pending, id);
    if found.None? then (m, file)
    else
      var next := m.(pending := RemoveRecord(m.pending, id), attempted := m.attempted - {id});
      // After a failed write the record goes back, at the end of the dictionary.
      var undone := next.(pending := next.pending + [found.value]);
      match p
      case Persisted => (next, Some(Serialize(next, size)))
      case FailedBeforeReplace => (undone, file)
      case FailedAfterReplace => (undone, Some(Serialize(next, size)))
  }

  function AfterAttempt(m: Memory, id: OutcomeId): Memory {
    if HasId(m.pending, id) then m.(attempted := m.attempted + {id}) else m
  }

  function Ready(pending: seq<Record>, attempted: set<OutcomeId>): seq<Record> {
    if pending == [] then []
    else if pending[0].id in attempted then Ready(pending[1..], attempted)
    else [pending[0]] + Ready(pending[1..], attempted)
  }

  // ---- _load ----

  predicate HasColon(key: string) { exists i :: 0 <= i < |key| && key[i] == ':' }

  /** The checks `_load` makes of one record. */
  predicate RecordLoads(states: map<string, string>, r: Record) {
    && r.kind != "" && r.subject != ""
    && KeyOf(r) in states
    && (r.state == states[KeyOf(r)] || (r.state == "accepted" && IsTerminal(states[KeyOf(r)])))
    && IsState(r.state)
    && r.id == OutcomeId(r.kind, r.subject, r.state)
    && r.data.outcomeId == r.id
    && 0 <= r.createdAt
    && r.data.size <= MAX_OUTCOME_BYTES
  }

  function PendingFrom(records: seq<Record>): seq<Record> {
    if records == [] then []
    else PutRecord(PendingFrom(records[..|records|-1]), records[|records|-1])
  }

  /** All checks of `_load` on an existing file. */
  predicate Loads(f: File) {
    && f.size <= MAX_FILE_BYTES
    && |f.states| <= MAX_OUTBOX_ENTRIES
    && |PendingFrom(f.pending)| <= MAX_OUTBOX_ENTRIES
    && (forall k :: k in f.states ==> HasColon(k) && IsState(f.states[k]))
    && (forall i :: 0 <= i < |PendingFrom(f.pending)| ==> RecordLoads(f.states, PendingFrom(f.pending)[i]))
  }

  function Loaded(f: File, order: seq<string>): Memory {
    Memory(Dict(order, f.states), PendingFrom(f.pending), {})
  }

  // ---- Facts about the pending dictionary ----

  lemma {:induction false} PutRecordAppends(pending: seq<Record>, r: Record)
    requires !HasId(pending, r.id)
    ensures PutRecord(pending, r) == pending + [r]
  {
    if pending != [] {
      var rest := pending[1..];
      forall i | 0 <= i < |rest| ensures rest[i].id != r.id {
        assert pending[i + 1].id != r.id;
      }
      PutRecordAppends(rest, r);
    }
  }

  lemma {:induction false} PutRecordMembers(pending: seq<Record>, r: Record)
    ensures forall x :: x in PutRecord(pending, r) ==> x == r || x in pending
    ensures r in PutRecord(pending, r)
    ensures forall x :: x in pending && x.id != r.id ==> x in PutRecord(pending, r)
  {
    if pending != [] {
      PutRecordMembers(pending[1..], r);
      assert pending == [pending[0]] + pending[1..];
    }
  }

  lemma {:induction false} PutRecordUnique(pending: seq<Record>, r: Record)
    requires UniqueIds(pending)
    ensures UniqueIds(PutRecord(pending, r))
  {
    if pending != [] && pending[0].id != r.id {
      PutRecordUnique(pending[1..], r);
      PutRecordMembers(pending[1..], r);
      assert forall x :: x in pending[1..] ==> x.id != pending[0].id;
    }
  }

  lemma {:induction false} PutRecordLength(pending: seq<Record>, r: Record)
    ensures |PutRecord(pending, r)| == |pending| + if HasId(pending, r.id) then 0 else 1
  {
    if pending != [] && pending[0].id != r.id {
      PutRecordLength(pending[1..], r);
      assert HasId(pending[1..], r.id) ==> HasId(pending, r.id) by {
        if HasId(pending[1..], r.id) {
          var i :| 0 <= i < |pending[1..]| && pending[1..][i].id == r.id;
          assert pending[i + 1].id == r.id;
        }
      }
      if HasId(pending, r.id) {
        var i :| 0 <= i < |pending| && pending[i].id == r.id;
        assert pending[1..][i - 1].id == r.id;
      }
    }
  }

  lemma PutRecordFacts(pending: seq<Record>, r: Record)
    ensures !HasId(pending, r.id) ==> PutRecord(pending, r) == pending + [r]
    ensures forall x :: x in PutRecord(pending, r) ==> x == r || x in pending
    ensures r in PutRecord(pending, r)
    ensures forall x :: x in pending && x.id != r.id ==> x in PutRecord(pending, r)
    ensures UniqueIds(pending) ==> UniqueIds(PutRecord(pending, r))
  {
    PutRecordMembers(pending, r);
    if !HasId(pending, r.id) { PutRecordAppends(pending, r); }
    if UniqueIds(pending) { PutRecordUnique(pending, r); }
  }

  lemma {:induction false} RemoveRecordMembers(pending: seq<Record>, id: OutcomeId)
    requires UniqueIds(pending)
    ensures forall x :: x in RemoveRecord(pending, id) <==> x in pending && x.id != id
  {
    if pending != [] {
      var rest := pending[1..];
      RemoveRecordMembers(rest, id);
      assert pending == [pending[0]] + rest;
      assert forall x :: x in rest ==> x.id != pending[0].id;
    }
  }

  lemma {:induction false} RemoveRecordUnique(pending: seq<Record>, id: OutcomeId)
    requires UniqueIds(pending)
    ensures UniqueIds(RemoveRecord(pending, id))
  {
    if pending != [] && pending[0].id != id {
      var rest := RemoveRecord(pending[1..], id);
      RemoveRecordUnique(pending[1..], id);
      RemoveRecordMembers(pending[1..], id);
      forall i | 0 <= i < |rest| ensures rest[i].id != pending[0].id {
        assert rest[i] in pending[1..];
      }
    }
  }

  lemma {:induction false} RemoveRecordLength(pending: seq<Record>, id: OutcomeId)
    ensures |RemoveRecord(pending, id)| == |pending| - if FindRecord(pending, id).Some? then 1 else 0
  {
    if pending != [] {
      RemoveRecordLength(pending[1..], id);
    }
  }

  lemma RemoveRecordFacts(pending: seq<Record>, id: OutcomeId)
    requires UniqueIds(pending)
    ensures UniqueIds(RemoveRecord(pending, id)) && !HasId(RemoveRecord(pending, id), id)
    ensures forall x :: x in RemoveRecord(pending, id) <==> x in pending && x.id != id
    ensures |RemoveRecord(pending, id)| == |pending| - if FindRecord(pending, id).Some? then 1 else 0
  {
    RemoveRecordMembers(pending, id);
    RemoveRecordUnique(pending, id);
    RemoveRecordLength(pending, id);
  }

  /** Removing takes out one place and keeps the order of the rest. */
  lemma {:induction false} RemoveRecordSplit(pending: seq<Record>, id: OutcomeId) returns (i: nat)
    requires HasId(pending, id)
    ensures i < |pending| && pending[i].id == id
    ensures RemoveRecord(pending, id) == pending[..i] + pending[i+1..]
    ensures FindRecord(pending, id) == Some(pending[i])
  {
    if pending[0].id == id {
      i := 0;
    } else {
      var k :| 0 <= k < |pending| && pending[k].id == id;
      assert pending[1..][k-1].id == id;
      var j := RemoveRecordSplit(pending[1..], id);
      i := j + 1;
      assert [pending[0]] + pending[1..][..j] == pending[..i];
    }
  }

  lemma {:induction false} FindRecordFacts(pending: seq<Record>, id: OutcomeId)
    ensures FindRecord(pending, id).Some? <==> HasId(pending, id)
    ensures FindRecord(pending, id).Some? ==>
              FindRecord(pending, id).value in pending && FindRecord(pending, id).value.id == id
  {
    if pending != [] {
      FindRecordFacts(pending[1..], id);
      if HasId(pending[1..], id) {
        var i :| 0 <= i < |pending[1..]| && pending[1..][i].id == id;
        assert pending[i+1].id == id;
      }
    }
  }

  lemma {:induction false} ReadyFacts(pending: seq<Record>, attempted: set<OutcomeId>)
    ensures forall r :: r in Ready(pending, attempted) <==> r in pending && r.id !in attempted
  {
    if pending != [] {
      ReadyFacts(pending[1..], attempted);
      assert pending == [pending[0]] + pending[1..];
    }
  }

  lemma {:induction false} ReadySnoc(pending: seq<Record>, r: Record, attempted: set<OutcomeId>)
    ensures Ready(pending + [r], attempted)
            == if r.id in attempted then Ready(pending, attempted) else Ready(pending, attempted) + [r]
  {
    if pending == [] {
      assert [r][1..] == [];
    } else {
      assert (pending + [r])[1..] == pending[1..] + [r];
      ReadySnoc(pending[1..], r, attempted);
    }
  }

  lemma ReadyStep(pending: seq<Record>, i: nat, attempted: set<OutcomeId>)
    requires i < |pending| && Subseq(Ready(pending[..i], attempted), pending[..i])
    ensures Ready(pending[..i+1], attempted)
            == Ready(pending[..i], attempted) + if pending[i].id in attempted then [] else [pending[i]]
    ensures Subseq(Ready(pending[..i+1], attempted), pending[..i+1])
  {
    assert pending[..i+1] == pending[..i] + [pending[i]];
    ReadySnoc(pending[..i], pending[i], attempted);
    SubseqSnoc(Ready(pending[..i], attempted), pending[..i], pending[i]);
    SubseqGrow(Ready(pending[..i], attempted), pending[..i], pending[i]);
  }

  lemma {:induction false} PendingFromMembers(records: seq<Record>)
    ensures UniqueIds(PendingFrom(records))
    ensures forall x :: x in PendingFrom(records) ==> x in records
  {
    if records != [] {
      var front, last := records[..|records|-1], records[|records|-1];
      PendingFromMembers(front);
      PutRecordMembers(PendingFrom(front), last);
      PutRecordUnique(PendingFrom(front), last);
    }
  }

  /** Loading a list without repeated ids changes nothing. */
  lemma {:induction false} PendingFromUnique(records: seq<Record>)
    ensures UniqueIds(PendingFrom(records))
    ensures UniqueIds(records) ==> PendingFrom(records) == records
  {
    PendingFromMembers(records);
    if records != [] && UniqueIds(records) {
      var front, last := records[..|records|-1], records[|records|-1];
      PendingFromUnique(front);
      PutRecordAppends(front, last);
    }
  }

  // ---- Trimming facts ----

  lemma {:induction false} TerminalKeysFacts(order: seq<string>, states: map<string, string>)
    ensures forall k :: k in TerminalKeys(order, states) <==> k in order && k in states && IsTerminal(states[k])
    ensures NoDup(order) ==> NoDup(TerminalKeys(order, states))
    ensures |TerminalKeys(order, states)| <= |order|
  {
    if order != [] {
      TerminalKeysFacts(order[1..], states);
      assert order == [order[0]] + order[1..];
      if NoDup(order) {
        assert order[0] !in order[1..];
      }
    }
  }

  lemma EvictedFacts(states: Dict<string, string>)
    requires ValidDict(states)
    ensures NoDup(Evicted(states))
    ensures forall k :: k in Evicted(states) ==> k in states.vals && IsTerminal(states.vals[k])
    ensures |states.order| <= MAX_OUTBOX_ENTRIES ==> Evicted(states) == []
  {
    TerminalKeysFacts(states.order, states.vals);
  }

  lemma {:induction false} TerminalKeysAppend(a: seq<string>, b: seq<string>, states: map<string, string>)
    ensures TerminalKeys(a + b, states) == TerminalKeys(a, states) + TerminalKeys(b, states)
  {
    if a == [] {
      assert a + b == b;
    } else {
      assert (a + b)[1..] == a[1..] + b;
      TerminalKeysAppend(a[1..], b, states);
    }
  }

  /** The trim removes the excess, or every terminal subject when there are fewer of them, and the
      oldest first: a terminal subject older than an evicted one is evicted too. */
  lemma TrimIsExact(states: Dict<string, string>)
    requires ValidDict(states) && |states.order| > MAX_OUTBOX_ENTRIES
    ensures var left := PopAll(states, Evicted(states));
            && ValidDict(left) && Subseq(left.order, states.order)
            && |left.order| >= MAX_OUTBOX_ENTRIES
            && (|left.order| == MAX_OUTBOX_ENTRIES || forall k :: k in left.vals ==> !IsTerminal(left.vals[k]))
            && (forall k :: k in left.vals ==> k in states.vals && left.vals[k] == states.vals[k])
            && (forall k :: k in states.vals && !IsTerminal(states.vals[k]) ==> k in left.vals)
            && (forall i, j :: 0 <= i < j < |states.order| && IsTerminal(states.vals[states.order[i]])
                  && states.order[j] !in left.vals
                  ==> states.order[i] !in left.vals)
  {
    var keys, gone := TerminalKeys(states.order, states.vals), Evicted(states);
    TerminalKeysFacts(states.order, states.vals);
    EvictedFacts(states);
    PopAllFacts(states, gone);
    PopAllSubseq(states, gone);
    forall i, j | 0 <= i < j < |states.order| && IsTerminal(states.vals[states.order[i]]) && states.order[j] in gone
      ensures states.order[i] in gone
    {
      OlderGoesFirst(states, i, j);
    }
  }

  lemma OlderGoesFirst(states: Dict<string, string>, i: nat, j: nat)
    requires ValidDict(states) && i < j < |states.order|
    requires IsTerminal(states.vals[states.order[i]]) && states.order[j] in Evicted(states)
    ensures states.order[i] in Evicted(states)
  {
    assert states.order == states.order[..j] + states.order[j..];
    assert states.order[..j][i] == states.order[i];
    assert states.order[j] !in states.order[..j];
    var b :| 0 <= b < |Evicted(states)| && Evicted(states)[b] == states.order[j];
    assert Evicted(states)[b] == TerminalKeys(states.order, states.vals)[b];
    var a := OlderComesFirst(states.order[..j], states.order[j..], states.vals, states.order[i], b);
    assert Evicted(states)[a] == states.order[i];
  }

  /** A terminal key of the first part stands before every key that is not of the first part. */
  lemma OlderComesFirst(before: seq<string>, after: seq<string>, states: map<string, string>, k: string, b: nat)
    returns (a: nat)
    requires k in before && k in states && IsTerminal(states[k])
    requires b < |TerminalKeys(before + after, states)| && TerminalKeys(before + after, states)[b] !in before
    ensures a < b && TerminalKeys(before + after, states)[a] == k
  {
    TerminalKeysAppend(before, after, states);
    TerminalKeysFacts(before, states);
    var first := TerminalKeys(before, states);
    a :| 0 <= a < |first| && first[a] == k;
    assert forall c :: 0 <= c < |first| ==> first[c] in before;
  }

  /** What `enqueue` answers, on the fields alone. */
  lemma EnqueueAnswer(m: Memory, file: Option<File>, q: Request, p: Persist, size: nat)
    ensures var key, known, id := Key(q.kind, q.subject), m.states.vals, OutcomeId(q.kind, q.subject, q.state);
            var after := AfterEnqueue(m, file, q, p, size);
            && (after.reply.Duplicate? <==>
                  key in known && (IsTerminal(known[key]) || (known[key] == "accepted" && q.state == "accepted")))
            && (after.reply.Recorded? <==>
                  && p.Persisted? && (key in known ==> known[key] == "accepted" && q.state != "accepted")
                  && IsState(q.state) && q.size <= MAX_OUTCOME_BYTES
                  && |m.pending| + (if HasId(m.pending, id) then 0 else 1) <= MAX_OUTBOX_ENTRIES)
            && (!after.reply.Recorded? ==> after.memory == m)
  {
    PutRecordLength(m.pending, MakeRecord(q));
  }

  /** What a recorded outcome leaves in memory and on disk, on the fields alone. */
  lemma EnqueueEffect(m: Memory, file: Option<File>, q: Request, p: Persist, size: nat)
    requires ValidDict(m.states) && UniqueIds(m.pending) && AfterEnqueue(m, file, q, p, size).reply.Recorded?
    ensures var key, known, id := Key(q.kind, q.subject), m.states.vals, OutcomeId(q.kind, q.subject, q.state);
            var after := AfterEnqueue(m, file, q, p, size);
            && after.reply.record
               == Record(id, q.kind, q.subject, q.state, q.event, Payload(q.body, id, q.size), q.now)
            && (forall r :: r in after.memory.pending <==> r == after.reply.record || (r in m.pending && r.id != id))
            && (!HasId(m.pending, id) ==> after.memory.pending == m.pending + [after.reply.record])
            && after.memory.attempted == m.attempted
            && after.file == Some(File(after.memory.states.vals, after.memory.pending, size))
            && (forall k :: k in after.memory.states.vals ==>
                  k in known[key := q.state] && after.memory.states.vals[k] == known[key := q.state][k])
            && (|m.states.order| + (if key in known then 0 else 1) <= MAX_OUTBOX_ENTRIES ==>
                  after.memory.states.vals == known[key := q.state])
  {
    OutcomeStates(m, q);
    PutRecordReplaces(m.pending, MakeRecord(q));
  }

  lemma OutcomeStates(m: Memory, q: Request)
    requires ValidDict(m.states)
    ensures var known, left := m.states.vals[Key(q.kind, q.subject) := q.state], WithOutcome(m, q).states.vals;
            && (forall k :: k in left ==> k in known && left[k] == known[k])
            && (|m.states.order| + (if Key(q.kind, q.subject) in m.states.vals then 0 else 1) <= MAX_OUTBOX_ENTRIES ==>
                  left == known)
  {
    var states := Put(m.states, Key(q.kind, q.subject), q.state);
    EvictedFacts(states);
    PopAllFacts(states, Evicted(states));
  }

  /** What an acknowledgement leaves in memory and on disk: the record at one place is gone, or stands
      last after a failed write. */
  lemma ConfirmEffect(m: Memory, file: Option<File>, id: OutcomeId, p: Persist, size: nat) returns (i: nat)
    requires HasId(m.pending, id)
    ensures i < |m.pending| && m.pending[i].id == id
    ensures var (after, onDisk) := AfterConfirm(m, file, id, p, size);
            var rest := m.pending[..i] + m.pending[i+1..];
            && after == Memory(m.states, if p.Persisted? then rest else rest + [m.pending[i]], m.attempted - {id})
            && onDisk == if p.FailedBeforeReplace? then file else Some(File(m.states.vals, rest, size))
  {
    i := RemoveRecordSplit(m.pending, id);
  }

  lemma PutRecordReplaces(pending: seq<Record>, r: Record)
    requires UniqueIds(pending)
    ensures forall x :: x in PutRecord(pending, r) <==> x == r || (x in pending && x.id != r.id)
    ensures !HasId(pending, r.id) ==> PutRecord(pending, r) == pending + [r]
  {
    PutRecordFacts(pending, r);
    var after := PutRecord(pending, r);
    forall x | x in after && x != r ensures x.id != r.id {
      var i :| 0 <= i < |after| && after[i] == x;
      var j :| 0 <= j < |after| && after[j] == r;
      assert i != j;
    }
  }

  lemma {:induction false} KeyHasColon(kind: string, subject: string)
    ensures HasColon(Key(kind, subject))
  {
    assert Key(kind, subject)[|kind|] == ':';
  }

  // ---- The mutable ledger ----

  class StateFile {
    var content: Option<File>

    constructor (content: Option<File>)
      ensures this.content == content
    {
      this.content := content;
    }
  }

  class OutcomeOutbox {
    const file: StateFile
    var states: Dict<string, string>
    var pending: seq<Record>
    var attempted: set<OutcomeId>

    ghost predicate Valid()
      reads this
    {
      ValidDict(states) && UniqueIds(pending)
    }

    function View(): Memory
      reads this
    {
      Memory(states, pending, attempted)
    }

    constructor (file: StateFile)
      ensures Valid() && this.file == file && View() == Memory(EmptyDict(), [], {})
    {
      this.file := file;
      states, pending, attempted := EmptyDict(), [], {};
    }

    /** Write the whole state to a temporary file and rename it over the old one. */
    method PersistState(p: Persist, size: nat) returns (ok: bool)
      modifies file
      ensures ok <==> p.Persisted?
      ensures file.content
              == if p.FailedBeforeReplace? then old(file.content) else Some(File(states.vals, pending, size))
    {
      if p.FailedBeforeReplace? {
        return false;
      }
      file.content := Some(Serialize(View(), size));
      ok := p.Persisted?;
    }

    /** False is the capacity error. */
    method Trim() returns (ok: bool)
      requires Valid()
      modifies this`states
      ensures Valid() && states == PopAll(old(states), Evicted(old(states)))
      ensures ok <==> |pending| <= MAX_OUTBOX_ENTRIES
      ensures |old(states).order| <= MAX_OUTBOX_ENTRIES ==> states == old(states)
      ensures |old(states).order| > MAX_OUTBOX_ENTRIES ==>
                && |states.order| >= MAX_OUTBOX_ENTRIES && Subseq(states.order, old(states).order)
                && (|states.order| == MAX_OUTBOX_ENTRIES
                    || forall k :: k in states.vals ==> !IsTerminal(states.vals[k]))
      ensures forall k :: k in states.vals ==> k in old(states).vals && states.vals[k] == old(states).vals[k]
      ensures forall k :: k in old(states).vals && !IsTerminal(old(states).vals[k]) ==> k in states.vals
      ensures forall i, j :: 0 <= i < j < |old(states).order|
                && IsTerminal(old(states).vals[old(states).order[i]])
                && old(states).order[j] !in states.vals
                ==> old(states).order[i] !in states.vals
    {
      if |states.order| > MAX_OUTBOX_ENTRIES {
        var keys := TerminalKeys(states.order, states.vals);
        var excess := |states.order| - MAX_OUTBOX_ENTRIES;
        var evicted := if |keys| <= excess then keys else keys[..excess];
        var i := 0;
        while i < |evicted|
          invariant 0 <= i <= |evicted|
          invariant PopAll(states, evicted[i..]) == PopAll(old(states), evicted)
        {
          assert evicted[i..][1..] == evicted[i+1..];
          states := Pop(states, evicted[i]);
          i := i + 1;
        }
        assert evicted[i..] == [];
        TrimIsExact(old(states));
      }
      ok := |pending| <= MAX_OUTBOX_ENTRIES;
    }

    method Enqueue(q: Request, p: Persist, size: nat) returns (reply: Reply)
      requires Valid()
      modifies this, file
      ensures Valid()
      ensures Step(View(), file.content, reply) == AfterEnqueue(old(View()), old(file.content), q, p, size)
      ensures var key, known := Key(q.kind, q.subject), old(states).vals;
              reply.Duplicate? <==>
                key in known && (IsTerminal(known[key]) || (known[key] == "accepted" && q.state == "accepted"))
      ensures var key, known := Key(q.kind, q.subject), old(states).vals;
              reply.Recorded? <==>
                && p.Persisted?
                && (key in known ==> known[key] == "accepted" && q.state != "accepted")
                && IsState(q.state) && q.size <= MAX_OUTCOME_BYTES
                && |old(pending)| + (if HasId(old(pending), OutcomeId(q.kind, q.subject, q.state)) then 0 else 1)
                   <= MAX_OUTBOX_ENTRIES
      ensures reply.Recorded? ==>
                var id := OutcomeId(q.kind, q.subject, q.state);
                && reply.record == Record(id, q.kind, q.subject, q.state, q.event, Payload(q.body, id, q.size), q.now)
                && (forall r :: r in pending <==> r == reply.record || (r in old(pending) && r.id != id))
                && (!HasId(old(pending), id) ==> pending == old(pending) + [reply.record])
                && attempted == old(attempted)
                && file.content == Some(File(states.vals, pending, size))
      ensures reply.Recorded? ==>
                var key, known := Key(q.kind, q.subject), old(states).vals;
                && (forall k :: k in states.vals ==>
                      k in known[key := q.state] && states.vals[k] == known[key := q.state][k])
                && (|old(states).order| + (if key in known then 0 else 1) <= MAX_OUTBOX_ENTRIES ==>
                      states.vals == known[key := q.state])
      ensures !reply.Recorded? ==> View() == old(View())
      ensures reply.Refused? && p != FailedAfterReplace ==> file.content == old(file.content)
    {
      EnqueueAnswer(View(), file.content, q, p, size);
      if AfterEnqueue(View(), file.content, q, p, size).reply.Recorded? {
        EnqueueEffect(View(), file.content, q, p, size);
      }
      var key := Key(q.kind, q.subject);
      var previous := Lookup(states, key);
      if previous.Some? && IsTerminal(previous.value) {
        return Duplicate;
      }
      if q.state == "accepted" && previous == Some("accepted") {
        return Duplicate;
      }
      if previous.Some? && previous.value != "accepted" {
        return Refused("invalid outcome transition");
      }
      if !IsState(q.state) {
        return Refused("unsupported outcome state");
      }
      if q.size > MAX_OUTCOME_BYTES {
        return Refused("outcome payload exceeds 64 KiB");
      }
      reply := RecordAndPersist(q, p, size);
    }

    /** The part of `enqueue` that changes state and undoes it on failure. */
    method RecordAndPersist(q: Request, p: Persist, size: nat) returns (reply: Reply)
      requires Valid() && Refusal(View(), q).None?
      modifies this, file
      ensures Valid()
      ensures Step(View(), file.content, reply) == AfterEnqueue(old(View()), old(file.content), q, p, size)
    {
      PutRecordFacts(pending, MakeRecord(q));
      var previousStates, previousPending := states, pending;
      states := Put(states, Key(q.kind, q.subject), q.state);
      pending := PutRecord(pending, MakeRecord(q));
      var fits := Trim();
      if !fits {
        states, pending := previousStates, previousPending;
        return Refused("outcome outbox capacity is exhausted");
      }
      var ok := PersistState(p, size);
      if !ok {
        states, pending := previousStates, previousPending;
        return Refused("could not persist outcome outbox");
      }
      reply := Recorded(MakeRecord(q));
    }

    method MarkConfirmed(id: OutcomeId, p: Persist, size: nat) returns (ok: bool)
      requires Valid()
      modifies this, file
      ensures Valid()
      ensures (View(), file.content) == AfterConfirm(old(View()), old(file.content), id, p, size)
      ensures ok <==> !HasId(old(pending), id) || p.Persisted?
      ensures !HasId(old(pending), id) ==> View() == old(View()) && file.content == old(file.content)
      ensures HasId(old(pending), id) ==>
                exists i {:trigger old(pending)[i]} :: 0 <= i < |old(pending)| && old(pending)[i].id == id
                  && var rest := old(pending)[..i] + old(pending)[i+1..];
                     && states == old(states) && attempted == old(attempted) - {id}
                     // A failed write leaves the record pending, now as the last one.
                     && pending == (if p.Persisted? then rest else rest + [old(pending)[i]])
                     && file.content == if p.FailedBeforeReplace? then old(file.content)
                                        else Some(File(states.vals, rest, size))
    {
      FindRecordFacts(pending, id);
      RemoveRecordFacts(pending, id);
      var record := FindRecord(pending, id);
      if record.None? {
        return true;
      }
      ghost var place := ConfirmEffect(View(), file.content, id, p, size);
      pending := RemoveRecord(pending, id);
      attempted := attempted - {id};
      ok := PersistState(p, size);
      if !ok {
        pending := pending + [record.value];
      }
    }

    method MarkAttempted(id: OutcomeId)
      requires Valid()
      modifies this`attempted
      ensures Valid() && View() == AfterAttempt(old(View()), id)
      ensures attempted == if HasId(pending, id) then old(attempted) + {id} else old(attempted)
    {
      if HasId(pending, id) {
        attempted := attempted + {id};
      }
    }

    method ResetDeliveryAttempts()
      requires Valid()
      modifies this`attempted
      ensures Valid() && attempted == {}
    {
      attempted := {};
    }

    method ReadyForDelivery() returns (ready: seq<Record>)
      requires Valid()
      ensures ready == Ready(pending, attempted)
      ensures forall r :: r in ready <==> r in pending && r.id !in attempted
      ensures Subseq(ready, pending)
    {
      ready := [];
      var i := 0;
      while i < |pending|
        invariant 0 <= i <= |pending|
        invariant ready == Ready(pending[..i], attempted) && Subseq(ready, pending[..i])
      {
        ReadyStep(pending, i, attempted);
        if pending[i].id !in attempted {
          ready := ready + [pending[i]];
        }
        i := i + 1;
      }
      assert pending[..i] == pending;
      ReadyFacts(pending, attempted);
    }

    /** `order` is the order of the keys in the JSON text. False is the OutcomeOutboxError that
        keeps the process from starting. */
    method Load(order: seq<string>) returns (ok: bool)
      requires Valid() && states == EmptyDict() && pending == [] && attempted == {}
      requires file.content.Some? ==>
                 NoDup(order) && forall k :: k in order <==> k in file.content.value.states
      modifies this
      ensures Valid()
      ensures ok <==> file.content.None? || Loads(file.content.value)
      ensures ok ==> View() == if file.content.None? then old(View()) else Loaded(file.content.value, order)
      ensures file.content.Some? && UniqueIds(file.content.value.pending) ==>
                var f := file.content.value;
                && (ok <==> && f.size <= MAX_FILE_BYTES && |f.states| <= MAX_OUTBOX_ENTRIES
                            && |f.pending| <= MAX_OUTBOX_ENTRIES
                            && (forall k :: k in f.states ==> HasColon(k) && IsState(f.states[k]))
                            && (forall i :: 0 <= i < |f.pending| ==> RecordLoads(f.states, f.pending[i])))
                && (ok ==> states == Dict(order, f.states) && pending == f.pending && attempted == {})
    {
      if file.content.None? {
        return true;
      }
      var f := file.content.value;
      PendingFromUnique(f.pending);
      if f.size > MAX_FILE_BYTES {
        return false;
      }
      EnumerationLength(order, f.states);
      states := Dict(order, f.states);
      BuildPending(f.pending);
      if |states.order| > MAX_OUTBOX_ENTRIES || |pending| > MAX_OUTBOX_ENTRIES {
        return false;
      }
      var i := 0;
      while i < |order|
        invariant 0 <= i <= |order|
        invariant forall j :: 0 <= j < i ==> HasColon(order[j]) && IsState(f.states[order[j]])
      {
        if !HasColon(order[i]) || !IsState(f.states[order[i]]) {
          return false;
        }
        i := i + 1;
      }
      assert forall k :: k in f.states ==> k in order;
      ok := CheckPending(f.states);
    }

    method BuildPending(records: seq<Record>)
      requires pending == []
      modifies this`pending
      ensures pending == PendingFrom(records) && UniqueIds(pending)
    {
      PendingFromUnique(records);
      var i := 0;
      while i < |records|
        invariant 0 <= i <= |records|
        invariant pending == PendingFrom(records[..i])
      {
        assert records[..i+1][..i] == records[..i];
        pending := PutRecord(pending, records[i]);
        i := i + 1;
      }
      assert records[..i] == records;
    }

    method CheckPending(known: map<string, string>) returns (ok: bool)
      ensures ok <==> forall i :: 0 <= i < |pending| ==> RecordLoads(known, pending[i])
      ensures ok <==>
                forall r :: r in pending ==>
                  && r.kind != "" && r.subject != "" && Key(r.kind, r.subject) in known
                  && (r.state == known[Key(r.kind, r.subject)]
                      || (r.state == "accepted" && IsTerminal(known[Key(r.kind, r.subject)])))
                  && IsState(r.state) && r.id == OutcomeId(r.kind, r.subject, r.state) && r.data.outcomeId == r.id
                  && r.createdAt >= 0 && r.data.size <= MAX_OUTCOME_BYTES
    {
      var i := 0;
      while i < |pending|
        invariant 0 <= i <= |pending|
        invariant forall j :: 0 <= j < i ==> RecordLoads(known, pending[j])
      {
        if !RecordLoads(known, pending[i]) {
          return false;
        }
        i := i + 1;
      }
      ok := true;
    }
  }
}
