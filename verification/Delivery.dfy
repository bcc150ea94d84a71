/**
 Delivery of pending outcomes over successive connections within one process lifetime
 (`_queue_outcome`, `_drain_outcome_outbox`, `_on_gateway_connected`, `_on_outcome_ack`, and the
 drain of the supervisor).

 Drains are serialised by their lock. A drain may be cut short at any send, and a lost connection
 cuts it. Acknowledgements and enqueues, trimming ones included, may come between any two sends.
 */
module Delivery {
  import opened Prelude
  import opened OrderedDict
  import opened Outbox
  import opened OutboxReload
  import R = OutboxRuns

  /** A record and the number it had when the drain took its snapshot. */
  datatype Entry = Entry(record: Record, number: nat)

  /** `at` numbers outcomes in the order in which they became pending; an outcome that becomes pending
      again, after its subject was forgotten, gets a new number. `trimmed` holds the subjects `_trim`
      ever evicted, `sent` what this connection was sent; `wanted` counts scheduled drains that wait
      for the lock; `cut` says that the latest drain of this connection ended early. */
  datatype Link = Link(
    memory: Memory,
    at: map<OutcomeId, nat>,
    next: nat,
    trimmed: set<string>,
    sent: seq<Entry>,
    todo: seq<Entry>,
    busy: bool,
    wanted: nat,
    connected: bool,
    cut: bool)

  /** `scheduled` drains were asked for by an enqueue or a new connection; the supervisor starts
      others every second. */
  datatype Action =
    | EnqueueOutcome(q: Request, persisted: bool)
    | Acknowledge(id: OutcomeId)
    | Connect
    | Disconnect
    | StartDrain(scheduled: bool)
    | SendOk
    | SendFails
    | FinishDrain

  function Number(at: map<OutcomeId, nat>, id: OutcomeId): nat { if id in at then at[id] else 0 }

  function Numbered(records: seq<Record>, at: map<OutcomeId, nat>): seq<Entry> {
    seq(|records|, i requires 0 <= i < |records| => Entry(records[i], Number(at, records[i].id)))
  }

  function Numbering(pending: seq<Record>): map<OutcomeId, nat> {
    if pending == [] then map[]
    else Numbering(pending[..|pending|-1])[pending[|pending|-1].id := |pending| - 1]
  }

  /** A process that has just loaded its ledger, with the subjects that earlier processes trimmed. */
  function Start(m: Memory, trimmed: set<string>): Link {
    Link(m, Numbering(m.pending), |m.pending|, trimmed, [], [], false, 0, false, false)
  }

  predicate Enabled(l: Link, a: Action) {
    match a
    case EnqueueOutcome(_, _) => true
    case Acknowledge(_) => true
    case Connect => !l.busy
    case Disconnect => true
    case StartDrain(scheduled) => !l.busy && (scheduled ==> l.wanted > 0)
    case SendOk => l.busy && l.todo != [] && l.connected
    case SendFails => l.busy && l.todo != []
    case FinishDrain => l.busy && l.todo == []
  }

  /** `enqueue` followed, for a recorded outcome, by scheduling a drain. */
  function AfterQueueOutcome(l: Link, q: Request, persisted: bool): Link {
    var r := AfterEnqueue(l.memory, None, q, if persisted then Persisted else FailedBeforeReplace, 0);
    if r.reply.Recorded? then
      var id := MakeRecord(q).id;
      l.(memory := r.memory,
         at := if HasId(l.memory.pending, id) then l.at else l.at[id := l.next],
         next := l.next + 1,
         trimmed := l.trimmed + R.Trims(l.memory, q, Persisted),
         wanted := l.wanted + 1)
    else l
  }

  function Apply(l: Link, a: Action): Link
    requires Enabled(l, a)
  {
    match a
    case EnqueueOutcome(q, persisted) => AfterQueueOutcome(l, q, persisted)
    case Acknowledge(id) => l.(memory := AfterConfirm(l.memory, None, id, Persisted, 0).0)
    case Connect =>
      l.(memory := l.memory.(attempted := {}), sent := [], wanted := l.wanted + 1, connected := true, cut := false)
    case Disconnect => l.(connected := false, busy := false, todo := [], cut := true)
    case StartDrain(scheduled) =>
      l.(todo := Numbered(Ready(l.memory.pending, l.memory.attempted), l.at), busy := true,
         wanted := if scheduled then l.wanted - 1 else l.wanted, cut := false)
    case SendOk =>
      l.(memory := AfterAttempt(l.memory, l.todo[0].record.id), sent := l.sent + [l.todo[0]], todo := l.todo[1..])
    case SendFails => l.(todo := [], busy := false, cut := true)
    case FinishDrain => l.(busy := false)
  }

  ghost predicate Reachable(start: Link, actions: seq<Action>, l: Link)
    decreases |actions|
  {
    if actions == [] then l == start
    else
      var a := actions[|actions|-1];
      exists k :: Reachable(start, actions[..|actions|-1], k) && Enabled(k, a) && l == Apply(k, a)
  }

  // ---- Invariants ----

  ghost predicate Below(entries: seq<Entry>, n: nat) {
    forall e :: e in entries ==> e.number < n
  }

  /** In strictly increasing order of their numbers. */
  ghost predicate Ascending(entries: seq<Entry>) {
    forall i, j :: 0 <= i < j < |entries| ==> entries[i].number < entries[j].number
  }

  ghost predicate HasEntry(entries: seq<Entry>, id: OutcomeId, n: nat) {
    exists e :: e in entries && e.record.id == id && e.number == n
  }

  ghost predicate WasSent(sent: seq<Entry>, id: OutcomeId) {
    exists e :: e in sent && e.record.id == id
  }

  /** The pending records are numbered, in their own order. */
  ghost predicate InOrder(pending: seq<Record>, at: map<OutcomeId, nat>) {
    && (forall i :: 0 <= i < |pending| ==> pending[i].id in at)
    && (forall i, j :: 0 <= i < j < |pending| ==> at[pending[i].id] < at[pending[j].id])
  }

  ghost predicate Bounded(at: map<OutcomeId, nat>, next: nat) {
    forall id :: id in at ==> at[id] < next
  }

  /** Every outcome ever numbered is remembered by the state of its subject, unless that was trimmed. */
  ghost predicate Remembered(at: map<OutcomeId, nat>, states: map<string, string>, trimmed: set<string>) {
    forall id :: id in at && KeyOfId(id) !in trimmed ==> RemembersOne(states, id)
  }

  predicate RemembersOne(states: map<string, string>, id: OutcomeId) {
    && KeyOfId(id) in states && IsState(id.state)
    && (states[KeyOfId(id)] == id.state || (id.state == "accepted" && IsTerminal(states[KeyOfId(id)])))
  }

  /** Two outcomes of one subject: its `accepted` and a terminal state. */
  predicate AcceptedAndTerminal(a: OutcomeId, b: OutcomeId) {
    KeyOfId(a) == KeyOfId(b) && a.state == "accepted" && IsTerminal(b.state)
  }

  ghost predicate AcceptedFirst(at: map<OutcomeId, nat>, trimmed: set<string>) {
    forall a, b | a in at && b in at ::
      AcceptedAndTerminal(a, b) && KeyOfId(a) !in trimmed ==> at[a] < at[b]
  }

  ghost predicate LedgerInv(l: Link) {
    && ValidDict(l.memory.states)
    && R.Records(l.memory.pending) && InOrder(l.memory.pending, l.at)
    && Bounded(l.at, l.next)
    && Remembered(l.at, l.memory.states.vals, l.trimmed)
    && AcceptedFirst(l.at, l.trimmed)
  }

  /** An unattempted pending outcome lies after everything sent on this connection, and is either in
      the drain's snapshot or after all of it. */
  ghost predicate FrontOf(l: Link, id: OutcomeId) {
    && id in l.at && Below(l.sent, l.at[id])
    && (HasEntry(l.todo, id, l.at[id]) || Below(l.todo, l.at[id]))
  }

  ghost predicate Front(l: Link) {
    forall id :: HasId(l.memory.pending, id) && id !in l.memory.attempted ==> FrontOf(l, id)
  }

  /** The number of an entry is still the number of its outcome, unless its subject was trimmed. */
  ghost predicate Current(entries: seq<Entry>, at: map<OutcomeId, nat>, trimmed: set<string>) {
    forall e :: e in entries && KeyOfId(e.record.id) !in trimmed ==> e.record.id in at && at[e.record.id] == e.number
  }

  ghost predicate DrainInv(l: Link) {
    && Ascending(l.sent) && Ascending(l.todo)
    && (forall t :: t in l.todo ==> Below(l.sent, t.number))
    && Below(l.sent, l.next) && Below(l.todo, l.next)
    && Current(l.sent, l.at, l.trimmed) && Current(l.todo, l.at, l.trimmed)
    && Front(l)
    && (forall id :: id in l.memory.attempted ==> WasSent(l.sent, id) && HasId(l.memory.pending, id))
    && (!l.busy ==> l.todo == [])
  }

  /** Nothing is forgotten: on a connection whose latest drain was not cut, a pending outcome is
      attempted, in the snapshot, or a drain is still scheduled. */
  ghost predicate Covered(l: Link) {
    l.connected && !l.cut && l.wanted == 0 ==>
      forall id :: HasId(l.memory.pending, id) ==> id in l.memory.attempted || HasEntry(l.todo, id, Number(l.at, id))
  }

  ghost predicate Inv(l: Link) { LedgerInv(l) && DrainInv(l) && Covered(l) }

  // ---- Enqueue ----

  lemma {:induction false} PutRecordInPlace(pending: seq<Record>, r: Record)
    requires HasId(pending, r.id)
    ensures |PutRecord(pending, r)| == |pending|
    ensures forall i :: 0 <= i < |pending| ==> PutRecord(pending, r)[i].id == pending[i].id
  {
    if pending[0].id != r.id {
      var i :| 0 <= i < |pending| && pending[i].id == r.id;
      assert pending[1..][i-1].id == r.id;
      PutRecordInPlace(pending[1..], r);
    }
  }

  lemma PutRecordIds(pending: seq<Record>, r: Record)
    ensures forall id :: HasId(PutRecord(pending, r), id) ==> HasId(pending, id) || id == r.id
  {
    PutRecordFacts(pending, r);
    forall id | HasId(PutRecord(pending, r), id) && id != r.id ensures HasId(pending, id) {
      var i :| 0 <= i < |PutRecord(pending, r)| && PutRecord(pending, r)[i].id == id;
      assert PutRecord(pending, r)[i] in pending;
    }
  }

  /** A refusal did not stop the outcome, so its subject knows at most `accepted`; an outcome that was
      numbered before and still is not trimmed is that `accepted`. */
  lemma NewOutcome(l: Link, q: Request, id: OutcomeId)
    requires LedgerInv(l) && Refusal(l.memory, q).None?
    requires id in l.at && KeyOfId(id) == Key(q.kind, q.subject) && KeyOfId(id) !in l.trimmed
    ensures id.state == "accepted" && q.state != "accepted" && id != MakeRecord(q).id
  {
    assert RemembersOne(l.memory.states.vals, id);
  }

  ghost predicate Recording(l: Link, q: Request) {
    LedgerInv(l) && Refusal(l.memory, q).None? && |WithOutcome(l.memory, q).pending| <= MAX_OUTBOX_ENTRIES
  }

  lemma ConsInOrder(r: Record, rest: seq<Record>, at: map<OutcomeId, nat>)
    requires InOrder(rest, at) && r.id in at
    requires forall x :: x in rest ==> x.id in at && at[r.id] < at[x.id]
    ensures InOrder([r] + rest, at)
  {
  }

  lemma AppendInOrder(pending: seq<Record>, at: map<OutcomeId, nat>, r: Record, next: nat)
    requires InOrder(pending, at) && Bounded(at, next) && !HasId(pending, r.id)
    ensures InOrder(pending + [r], at[r.id := next])
  {
    forall i | 0 <= i < |pending| ensures pending[i].id != r.id { }
  }

  lemma PutInOrder(pending: seq<Record>, at: map<OutcomeId, nat>, r: Record, next: nat)
    requires R.Records(pending) && InOrder(pending, at) && Bounded(at, next) && RecordOk(r)
    ensures R.Records(PutRecord(pending, r))
    ensures InOrder(PutRecord(pending, r), if HasId(pending, r.id) then at else at[r.id := next])
  {
    PutRecordFacts(pending, r);
    if HasId(pending, r.id) {
      PutRecordInPlace(pending, r);
    } else {
      AppendInOrder(pending, at, r, next);
    }
  }

  lemma EnqueueOrder(l: Link, q: Request)
    requires Recording(l, q)
    ensures var k := AfterQueueOutcome(l, q, true);
            R.Records(k.memory.pending) && InOrder(k.memory.pending, k.at) && Bounded(k.at, k.next)
  {
    PutInOrder(l.memory.pending, l.at, MakeRecord(q), l.next);
  }

  lemma EnqueueRemembered(l: Link, q: Request)
    requires Recording(l, q)
    ensures var k := AfterQueueOutcome(l, q, true);
            ValidDict(k.memory.states) && Remembered(k.at, k.memory.states.vals, k.trimmed)
  {
    var k, states := AfterQueueOutcome(l, q, true), Put(l.memory.states, Key(q.kind, q.subject), q.state);
    EvictedFacts(states);
    PopAllFacts(states, Evicted(states));
    forall id | id in k.at && KeyOfId(id) !in k.trimmed ensures RemembersOne(k.memory.states.vals, id) {
      assert KeyOfId(id) !in Evicted(states);
      if id in l.at {
        assert RemembersOne(l.memory.states.vals, id);
      }
    }
  }

  lemma EnqueueAcceptedFirst(l: Link, q: Request)
    requires Recording(l, q)
    ensures var k := AfterQueueOutcome(l, q, true); AcceptedFirst(k.at, k.trimmed)
  {
    var k, n := AfterQueueOutcome(l, q, true), MakeRecord(q).id;
    forall a, b | a in k.at && b in k.at && AcceptedAndTerminal(a, b) && KeyOfId(a) !in k.trimmed
      ensures k.at[a] < k.at[b]
    {
      if a in l.at && KeyOfId(a) == Key(q.kind, q.subject) { NewOutcome(l, q, a); }
      if b in l.at && KeyOfId(b) == Key(q.kind, q.subject) { NewOutcome(l, q, b); }
    }
  }

  lemma EnqueueDrain(l: Link, q: Request)
    requires Recording(l, q) && DrainInv(l)
    ensures DrainInv(AfterQueueOutcome(l, q, true))
  {
    var k := AfterQueueOutcome(l, q, true);
    EnqueueFront(l, q);
    EnqueueCurrent(l, q, l.sent);
    EnqueueCurrent(l, q, l.todo);
    forall id | id in k.memory.attempted ensures HasId(k.memory.pending, id) {
      IdStays(l.memory.pending, MakeRecord(q), id);
    }
  }

  lemma EnqueueCurrent(l: Link, q: Request, entries: seq<Entry>)
    requires Recording(l, q) && Current(entries, l.at, l.trimmed)
    ensures var k := AfterQueueOutcome(l, q, true); Current(entries, k.at, k.trimmed)
  {
    var k := AfterQueueOutcome(l, q, true);
    forall e | e in entries && KeyOfId(e.record.id) !in k.trimmed
      ensures e.record.id in k.at && k.at[e.record.id] == e.number
    {
      if KeyOfId(e.record.id) == Key(q.kind, q.subject) { NewOutcome(l, q, e.record.id); }
    }
  }

  lemma EnqueueFront(l: Link, q: Request)
    requires Recording(l, q) && DrainInv(l)
    ensures Front(AfterQueueOutcome(l, q, true))
  {
    var k := AfterQueueOutcome(l, q, true);
    PutRecordIds(l.memory.pending, MakeRecord(q));
    forall id | HasId(k.memory.pending, id) && id !in k.memory.attempted ensures FrontOf(k, id) {
      if HasId(l.memory.pending, id) {
        assert FrontOf(l, id);
      }
    }
  }

  lemma EnqueueStep(l: Link, q: Request, persisted: bool)
    requires Inv(l)
    ensures Inv(AfterQueueOutcome(l, q, persisted))
  {
    if AfterQueueOutcome(l, q, persisted) != l {
      EnqueueOrder(l, q);
      EnqueueRemembered(l, q);
      EnqueueAcceptedFirst(l, q);
      EnqueueDrain(l, q);
    }
  }

  // ---- Acknowledge ----

  lemma {:induction false} RemoveInOrder(pending: seq<Record>, at: map<OutcomeId, nat>, id: OutcomeId)
    requires InOrder(pending, at)
    ensures InOrder(RemoveRecord(pending, id), at)
    ensures forall r :: r in RemoveRecord(pending, id) ==> r in pending
  {
    if pending != [] && pending[0].id != id {
      RemoveInOrder(pending[1..], at, id);
      ConsInOrder(pending[0], RemoveRecord(pending[1..], id), at);
    } else if pending != [] {
    }
  }

  lemma AcknowledgeStep(l: Link, id: OutcomeId)
    requires Inv(l)
    ensures Inv(Apply(l, Acknowledge(id)))
  {
    var pending, attempted := l.memory.pending, l.memory.attempted;
    FindRecordFacts(pending, id);
    if FindRecord(pending, id).Some? {
      RemoveRecordFacts(pending, id);
      RemoveInOrder(pending, l.at, id);
      R.RemovalHolds(pending, attempted, id);
      var next := l.memory.(pending := RemoveRecord(pending, id), attempted := attempted - {id});
      AcknowledgeKeeps(l, l.(memory := next), id);
    }
  }

  lemma AcknowledgeKeeps(l: Link, k: Link, id: OutcomeId)
    requires Inv(l)
    requires k == l.(memory := l.memory.(pending := k.memory.pending, attempted := l.memory.attempted - {id}))
    requires R.Records(k.memory.pending) && InOrder(k.memory.pending, l.at)
    requires forall r :: r in k.memory.pending <==> r in l.memory.pending && r.id != id
    requires R.Holds(k.memory.pending, k.memory.attempted)
    ensures Inv(k)
  {
    forall x | HasId(k.memory.pending, x) ensures HasId(l.memory.pending, x) && x != id {
      var i :| 0 <= i < |k.memory.pending| && k.memory.pending[i].id == x;
      assert k.memory.pending[i] in l.memory.pending;
    }
    forall x | HasId(k.memory.pending, x) && x !in k.memory.attempted ensures FrontOf(k, x) {
      assert FrontOf(l, x);
    }
  }

  // ---- Drains ----

  lemma {:induction false} ReadyInOrder(pending: seq<Record>, attempted: set<OutcomeId>, at: map<OutcomeId, nat>)
    requires InOrder(pending, at)
    ensures InOrder(Ready(pending, attempted), at)
  {
    if pending != [] {
      ReadyInOrder(pending[1..], attempted, at);
      if pending[0].id !in attempted {
        ReadyFacts(pending[1..], attempted);
        ConsInOrder(pending[0], Ready(pending[1..], attempted), at);
      }
    }
  }

  lemma SnapshotHolds(l: Link, id: OutcomeId)
    requires LedgerInv(l) && HasId(l.memory.pending, id) && id !in l.memory.attempted
    ensures HasEntry(Numbered(Ready(l.memory.pending, l.memory.attempted), l.at), id, Number(l.at, id))
  {
    var ready := Ready(l.memory.pending, l.memory.attempted);
    ReadyFacts(l.memory.pending, l.memory.attempted);
    var i :| 0 <= i < |l.memory.pending| && l.memory.pending[i].id == id;
    assert l.memory.pending[i] in ready;
    var j :| 0 <= j < |ready| && ready[j] == l.memory.pending[i];
    assert Numbered(ready, l.at)[j] in Numbered(ready, l.at);
  }

  lemma StartDrainStep(l: Link, scheduled: bool)
    requires Inv(l) && Enabled(l, StartDrain(scheduled))
    ensures Inv(Apply(l, StartDrain(scheduled)))
  {
    var k, ready := Apply(l, StartDrain(scheduled)), Ready(l.memory.pending, l.memory.attempted);
    ReadyFacts(l.memory.pending, l.memory.attempted);
    ReadyInOrder(l.memory.pending, l.memory.attempted, l.at);
    forall t | t in k.todo ensures Below(k.sent, t.number) && t.number < k.next && l.at[t.record.id] == t.number {
      var i :| 0 <= i < |ready| && k.todo[i] == t;
      assert ready[i] in ready && t.record == ready[i];
      assert HasId(l.memory.pending, t.record.id) && FrontOf(l, t.record.id);
    }
    forall id | HasId(k.memory.pending, id) && id !in k.memory.attempted
      ensures HasEntry(k.todo, id, Number(k.at, id)) && FrontOf(k, id)
    {
      SnapshotHolds(l, id);
      assert FrontOf(l, id);
    }
  }

  lemma SendOkStep(l: Link)
    requires Inv(l) && Enabled(l, SendOk)
    ensures Inv(Apply(l, SendOk))
  {
    var h, k := l.todo[0], Apply(l, SendOk);
    assert h in l.todo;
    assert forall t :: t in l.todo <==> t == h || t in k.todo;
    assert forall e :: e in k.sent <==> e in l.sent || e == h;
    SendFront(l, k);
    forall id | id in k.memory.attempted ensures WasSent(k.sent, id) && HasId(k.memory.pending, id) {
      if id != h.record.id {
        var e :| e in l.sent && e.record.id == id;
        assert e in k.sent;
      } else {
        assert h in k.sent;
      }
    }
  }

  lemma SendFront(l: Link, k: Link)
    requires Inv(l) && Enabled(l, SendOk) && k == Apply(l, SendOk)
    ensures Front(k) && Covered(k)
  {
    var h := l.todo[0];
    forall id | HasId(k.memory.pending, id) && id !in k.memory.attempted
      ensures FrontOf(k, id) && (HasEntry(l.todo, id, Number(l.at, id)) ==> HasEntry(k.todo, id, Number(k.at, id)))
    {
      assert id != h.record.id && FrontOf(l, id);
      if HasEntry(l.todo, id, l.at[id]) {
        var j :| 0 <= j < |l.todo| && l.todo[j].record.id == id && l.todo[j].number == l.at[id];
        assert l.todo[1..][j-1] == l.todo[j] && l.todo[j] in l.todo[1..];
      }
      assert h in l.todo && forall t :: t in k.todo ==> t in l.todo;
    }
  }

  lemma ConnectionStep(l: Link, a: Action)
    requires Inv(l) && Enabled(l, a) && (a.Connect? || a.Disconnect? || a.SendFails? || a.FinishDrain?)
    ensures Inv(Apply(l, a))
  {
    var k := Apply(l, a);
    forall id | HasId(k.memory.pending, id) && id !in k.memory.attempted ensures FrontOf(k, id) {
      var i :| 0 <= i < |l.memory.pending| && l.memory.pending[i].id == id;
      if id !in l.memory.attempted { assert FrontOf(l, id); }
    }
  }

  lemma StepKeepsInv(l: Link, a: Action)
    requires Inv(l) && Enabled(l, a)
    ensures Inv(Apply(l, a))
  {
    match a {
      case EnqueueOutcome(q, persisted) => EnqueueStep(l, q, persisted);
      case Acknowledge(id) => AcknowledgeStep(l, id);
      case StartDrain(scheduled) => StartDrainStep(l, scheduled);
      case SendOk => SendOkStep(l);
      case _ => ConnectionStep(l, a);
    }
  }

  // ---- The start of a process ----

  lemma {:induction false} NumberingFacts(pending: seq<Record>)
    requires UniqueIds(pending)
    ensures forall i :: 0 <= i < |pending| ==>
              pending[i].id in Numbering(pending) && Numbering(pending)[pending[i].id] == i
    ensures forall id :: id in Numbering(pending) ==> HasId(pending, id)
  {
    if pending != [] {
      var front := pending[..|pending|-1];
      NumberingFacts(front);
      forall id | id in Numbering(pending) ensures HasId(pending, id) {
        if id != pending[|pending|-1].id {
          assert id in Numbering(front);
          var i :| 0 <= i < |front| && front[i].id == id;
          assert pending[i].id == id;
        }
      }
    }
  }

  /** Pending records list `accepted` before the terminal state of the same subject. */
  ghost predicate AcceptedBeforeTerminal(pending: seq<Record>, trimmed: set<string>) {
    forall i, j | 0 <= i < |pending| && 0 <= j < |pending| ::
      AcceptedAndTerminal(pending[i].id, pending[j].id) && KeyOfId(pending[i].id) !in trimmed ==> i < j
  }

  /** What a start from the ledger's file finds. */
  ghost predicate StartOk(m: Memory, trimmed: set<string>) {
    MemoryOk(m) && AllConsistent(m) && AcceptedBeforeTerminal(m.pending, trimmed) && m.attempted == {}
  }

  lemma StartRemembers(m: Memory, trimmed: set<string>)
    requires StartOk(m, trimmed)
    ensures Remembered(Numbering(m.pending), m.states.vals, trimmed)
  {
    NumberingFacts(m.pending);
    forall id | id in Numbering(m.pending) ensures RemembersOne(m.states.vals, id) {
      var i :| 0 <= i < |m.pending| && m.pending[i].id == id;
      assert m.pending[i] in m.pending;
    }
  }

  lemma StartAcceptedFirst(pending: seq<Record>, trimmed: set<string>)
    requires UniqueIds(pending) && AcceptedBeforeTerminal(pending, trimmed)
    ensures AcceptedFirst(Numbering(pending), trimmed)
  {
    var at := Numbering(pending);
    NumberingFacts(pending);
    forall a, b | a in at && b in at && AcceptedAndTerminal(a, b) && KeyOfId(a) !in trimmed ensures at[a] < at[b] {
      var i :| 0 <= i < |pending| && pending[i].id == a;
      var j :| 0 <= j < |pending| && pending[j].id == b;
    }
  }

  lemma StartInv(m: Memory, trimmed: set<string>)
    requires StartOk(m, trimmed)
    ensures Inv(Start(m, trimmed))
  {
    NumberingFacts(m.pending);
    StartRemembers(m, trimmed);
    StartAcceptedFirst(m.pending, trimmed);
  }

  lemma {:induction false} InvHolds(m: Memory, trimmed: set<string>, actions: seq<Action>, l: Link)
    requires StartOk(m, trimmed) && Reachable(Start(m, trimmed), actions, l)
    ensures Inv(l)
  {
    if actions == [] {
      StartInv(m, trimmed);
    } else {
      var a := actions[|actions|-1];
      var k :| Reachable(Start(m, trimmed), actions[..|actions|-1], k) && Enabled(k, a) && l == Apply(k, a);
      InvHolds(m, trimmed, actions[..|actions|-1], k);
      StepKeepsInv(k, a);
    }
  }

  // ---- Results ----

  /** Main result: each connection is sent outcomes strictly in the order in which they became pending,
      so nothing that became pending once is sent twice; an outcome sent twice belongs to a subject
      that was trimmed in between. Pending outcomes are listed in that same order, and attempted ones
      are pending. */
  lemma EachConnectionSendsInOrder(m: Memory, trimmed: set<string>, actions: seq<Action>, l: Link)
    requires StartOk(m, trimmed) && Reachable(Start(m, trimmed), actions, l)
    ensures Ascending(l.sent)
    ensures forall i, j :: 0 <= i < j < |l.sent| && l.sent[i].record.id == l.sent[j].record.id ==>
              KeyOfId(l.sent[i].record.id) in l.trimmed
    ensures InOrder(l.memory.pending, l.at) && Current(l.sent, l.at, l.trimmed)
    ensures forall id :: id in l.memory.attempted ==> HasId(l.memory.pending, id)
  {
    InvHolds(m, trimmed, actions, l);
    forall i, j | 0 <= i < j < |l.sent| && l.sent[i].record.id == l.sent[j].record.id
      ensures KeyOfId(l.sent[i].record.id) in l.trimmed
    {
      assert l.sent[i] in l.sent && l.sent[j] in l.sent;
    }
  }

  /** Main result: `accepted` is sent before the terminal state of its subject, and a terminal state
      is never sent past an `accepted` that is still pending, unless the subject was trimmed. */
  lemma AcceptedIsSentFirst(m: Memory, trimmed: set<string>, actions: seq<Action>, l: Link, a: OutcomeId, j: nat)
    requires StartOk(m, trimmed) && Reachable(Start(m, trimmed), actions, l)
    requires j < |l.sent| && AcceptedAndTerminal(a, l.sent[j].record.id) && KeyOfId(a) !in l.trimmed
    ensures forall i :: 0 <= i < |l.sent| && l.sent[i].record.id == a ==> i < j
    ensures HasId(l.memory.pending, a) ==> WasSent(l.sent, a)
  {
    InvHolds(m, trimmed, actions, l);
    SentAfterAccepted(l, a, j);
  }

  lemma SentAfterAccepted(l: Link, a: OutcomeId, j: nat)
    requires LedgerInv(l) && DrainInv(l)
    requires j < |l.sent| && AcceptedAndTerminal(a, l.sent[j].record.id) && KeyOfId(a) !in l.trimmed
    ensures forall i :: 0 <= i < |l.sent| && l.sent[i].record.id == a ==> i < j
    ensures HasId(l.memory.pending, a) ==> WasSent(l.sent, a)
  {
    assert l.sent[j] in l.sent;
    forall i | 0 <= i < |l.sent| && l.sent[i].record.id == a ensures i < j {
      assert l.sent[i] in l.sent && l.at[a] < l.at[l.sent[j].record.id];
    }
    if HasId(l.memory.pending, a) {
      var i :| 0 <= i < |l.memory.pending| && l.memory.pending[i].id == a;
      assert l.at[a] < l.sent[j].number;
      assert !FrontOf(l, a);
    }
  }

  /** Main result: when a connection's latest drain has run to its end and no other is scheduled,
      everything still pending, and so everything not acknowledged, has been sent on that very
      connection, whatever sends failed on it before. */
  lemma UnacknowledgedIsResent(m: Memory, trimmed: set<string>, actions: seq<Action>, l: Link, r: Record)
    requires StartOk(m, trimmed) && Reachable(Start(m, trimmed), actions, l)
    requires l.connected && !l.cut && !l.busy && l.wanted == 0
    requires r in l.memory.pending
    ensures WasSent(l.sent, r.id)
  {
    InvHolds(m, trimmed, actions, l);
    assert HasId(l.memory.pending, r.id);
  }

  /** Main result: an undisturbed drain on a live connection runs to its end and sends, in order, every
      pending outcome not attempted before, so afterwards everything pending has been sent on it. */
  lemma QuietDrainSendsAll(m: Memory, trimmed: set<string>, actions: seq<Action>, l: Link)
    returns (longer: seq<Action>, k: Link)
    requires StartOk(m, trimmed) && Reachable(Start(m, trimmed), actions, l)
    requires l.connected && !l.busy
    ensures actions <= longer && Reachable(Start(m, trimmed), longer, k)
    ensures k.memory.pending == l.memory.pending && k.connected && !k.busy && !k.cut
    ensures l.sent <= k.sent
    ensures forall e :: e in k.sent[|l.sent|..] ==> e.record in l.memory.pending && e.record.id !in l.memory.attempted
    ensures forall r :: r in l.memory.pending ==> WasSent(k.sent, r.id)
  {
    InvHolds(m, trimmed, actions, l);
    var first := StartDrain(false);
    var started := Apply(l, first);
    RunSnoc(Start(m, trimmed), actions, l, first);
    var all, last := SendRest(Start(m, trimmed), actions + [first], started);
    RunSnoc(Start(m, trimmed), all, last, FinishDrain);
    longer, k := all + [FinishDrain], Apply(last, FinishDrain);
    assert actions <= actions + [first] <= all <= longer;
    SnapshotIsReady(l);
    assert k.sent == l.sent + started.todo;
    forall r | r in l.memory.pending ensures WasSent(k.sent, r.id) {
      SentAfterDrain(l, k, r);
    }
  }

  lemma SnapshotIsReady(l: Link)
    ensures forall e :: e in Numbered(Ready(l.memory.pending, l.memory.attempted), l.at) ==>
              e.record in l.memory.pending && e.record.id !in l.memory.attempted
              && e.number == Number(l.at, e.record.id)
  {
    var ready := Ready(l.memory.pending, l.memory.attempted);
    ReadyFacts(l.memory.pending, l.memory.attempted);
    forall e | e in Numbered(ready, l.at) ensures e.record in ready && e.number == Number(l.at, e.record.id) { }
  }

  lemma SentAfterDrain(l: Link, k: Link, r: Record)
    requires Inv(l) && r in l.memory.pending
    requires k.sent == l.sent + Numbered(Ready(l.memory.pending, l.memory.attempted), l.at)
    ensures WasSent(k.sent, r.id)
  {
    if r.id in l.memory.attempted {
      var e :| e in l.sent && e.record.id == r.id;
      assert e in k.sent;
    } else {
      assert HasId(l.memory.pending, r.id);
      SnapshotHolds(l, r.id);
      var e :| e in Numbered(Ready(l.memory.pending, l.memory.attempted), l.at) && e.record.id == r.id;
      assert e in k.sent;
    }
  }

  lemma RunSnoc(start: Link, actions: seq<Action>, l: Link, a: Action)
    requires Reachable(start, actions, l) && Enabled(l, a)
    ensures Reachable(start, actions + [a], Apply(l, a))
  {
    var all := actions + [a];
    assert all[..|all|-1] == actions && all[|all|-1] == a;
  }

  /** Nothing but sends: what was to be sent is sent. */
  ghost predicate AllSent(l: Link, k: Link) {
    && k.sent == l.sent + l.todo && k.todo == [] && k.memory.pending == l.memory.pending
    && k.busy == l.busy && k.connected == l.connected && k.cut == l.cut
  }

  lemma SendOne(l: Link, k: Link)
    requires l.todo != [] && l.busy && l.connected
    requires AllSent(Apply(l, SendOk), k)
    ensures AllSent(l, k)
  {
    assert l.sent + l.todo == l.sent + [l.todo[0]] + l.todo[1..];
  }

  lemma {:induction false} SendRest(start: Link, actions: seq<Action>, l: Link)
    returns (longer: seq<Action>, k: Link)
    requires Reachable(start, actions, l) && l.busy && l.connected
    ensures actions <= longer && Reachable(start, longer, k) && AllSent(l, k)
    decreases |l.todo|
  {
    if l.todo == [] {
      longer, k := actions, l;
    } else {
      RunSnoc(start, actions, l, SendOk);
      longer, k := SendRest(start, actions + [SendOk], Apply(l, SendOk));
      assert actions <= actions + [SendOk] <= longer;
      SendOne(l, k);
    }
  }

  // ---- The steps on the fields alone ----

  /** A recorded outcome becomes pending under the next number and schedules a drain; one that is not
      recorded changes nothing. */
  lemma QueueOutcomeIsExact(l: Link, q: Request, persisted: bool)
    ensures var key, known, id := Key(q.kind, q.subject), l.memory.states.vals, OutcomeId(q.kind, q.subject, q.state);
            var k := Apply(l, EnqueueOutcome(q, persisted));
            var fits := |l.memory.pending| + (if HasId(l.memory.pending, id) then 0 else 1) <= MAX_OUTBOX_ENTRIES;
            if persisted && (key !in known || (known[key] == "accepted" && IsTerminal(q.state)))
               && IsState(q.state) && q.size <= MAX_OUTCOME_BYTES && fits
            then
              && HasId(k.memory.pending, id) && k.wanted == l.wanted + 1 && k.next == l.next + 1
              && (!HasId(l.memory.pending, id) ==> k.at == l.at[id := l.next])
              && k.memory.attempted == l.memory.attempted
              && k == l.(memory := k.memory, at := k.at, next := k.next, trimmed := k.trimmed, wanted := k.wanted)
            else k == l
  {
    var p := if persisted then Persisted else FailedBeforeReplace;
    EnqueueAnswer(l.memory, None, q, p, 0);
    if AfterEnqueue(l.memory, None, q, p, 0).reply.Recorded? {
      IdStays(l.memory.pending, MakeRecord(q), MakeRecord(q).id);
    }
  }

  /** The other steps. */
  lemma StepsAreExact(l: Link)
    ensures !l.busy ==>
              var k := Apply(l, Connect);
              && k.connected && !k.cut && k.wanted == l.wanted + 1 && k.sent == [] && k.memory.attempted == {}
              && k.memory.pending == l.memory.pending && k.memory.states == l.memory.states
              && !k.busy && k.todo == l.todo && k.at == l.at && k.next == l.next
    ensures var k := Apply(l, Disconnect);
            k == l.(connected := false, busy := false, todo := [], cut := true)
    ensures forall scheduled :: Enabled(l, StartDrain(scheduled)) ==>
              var k := Apply(l, StartDrain(scheduled));
              && k == l.(busy := true, cut := false, wanted := k.wanted, todo := k.todo)
              && k.wanted == l.wanted - (if scheduled then 1 else 0)
              && (forall e :: e in k.todo ==> e.record in l.memory.pending && e.record.id !in l.memory.attempted)
              && (forall e :: e in k.todo && e.record.id in l.at ==> e.number == l.at[e.record.id])
    ensures Enabled(l, SendOk) ==>
              var e, k := l.todo[0], Apply(l, SendOk);
              && k.sent == l.sent + [e] && k.todo == l.todo[1..]
              && k.memory.pending == l.memory.pending
              && k.memory.attempted
                 == l.memory.attempted + (if HasId(l.memory.pending, e.record.id) then {e.record.id} else {})
              && k == l.(memory := k.memory, sent := k.sent, todo := k.todo)
    ensures Enabled(l, SendFails) ==> Apply(l, SendFails) == l.(todo := [], busy := false, cut := true)
    ensures Enabled(l, FinishDrain) ==> Apply(l, FinishDrain) == l.(busy := false)
  {
    SnapshotIsReady(l);
  }

  /** What a process leaves behind is what the next one may assume: if the file of its memory can be
      loaded, the next process starts in order, with the subjects trimmed so far. */
  lemma NextStartIsInOrder(
      m: Memory, trimmed: set<string>, actions: seq<Action>, l: Link, size: nat, order: seq<string>)
    requires StartOk(m, trimmed) && Reachable(Start(m, trimmed), actions, l)
    requires Loads(Serialize(l.memory, size)) && Enumerates(order, l.memory.states.vals)
    ensures StartOk(Loaded(Serialize(l.memory, size), order), l.trimmed)
  {
    InvHolds(m, trimmed, actions, l);
    PendingInOrder(l);
    LoadedIsOk(l.memory, size, order);
  }

  /** Whatever `_load` accepts and the ledger wrote is in order. */
  lemma LoadedIsOk(m: Memory, size: nat, order: seq<string>)
    requires R.Records(m.pending) && Loads(Serialize(m, size)) && Enumerates(order, m.states.vals)
    ensures var n := Loaded(Serialize(m, size), order); MemoryOk(n) && AllConsistent(n) && n.pending == m.pending
  {
    PendingFromUnique(m.pending);
    forall r | r in m.pending ensures Named(r) && Consistent(m.states.vals, r) {
      var i :| 0 <= i < |m.pending| && m.pending[i] == r;
      assert RecordLoads(m.states.vals, m.pending[i]);
    }
  }

  lemma PendingInOrder(l: Link)
    requires LedgerInv(l)
    ensures AcceptedBeforeTerminal(l.memory.pending, l.trimmed)
  {
    var pending := l.memory.pending;
    forall i, j | 0 <= i < |pending| && 0 <= j < |pending|
               && AcceptedAndTerminal(pending[i].id, pending[j].id) && KeyOfId(pending[i].id) !in l.trimmed
      ensures i < j
    {
      assert l.at[pending[i].id] < l.at[pending[j].id];
    }
  }
}
