/**
 A/B updates with rollback (`botparty_robot/ota.py`) on a disk that can stop at any file operation.

 Each operation is a trace: the disk before it, and after each of its file operations in order. A
 crash cuts a trace anywhere. Directory removal is not atomic: a slot on its way out is `Partial`,
 with or without its interpreter.
 */
module Ota {
  import opened Prelude

  datatype Slot = A | B

  datatype Content = Absent | Partial(python: bool) | Complete(release: nat)

  datatype Pending = Pending(previous: Option<Slot>, target: Slot, release: nat)

  datatype Disk = Disk(
    a: Content,
    b: Content,
    staging: Content,
    current: Option<Slot>,
    pending: Option<Pending>,
    attempted: bool)

  function At(d: Disk, s: Slot): Content { if s == A then d.a else d.b }

  function WithSlot(d: Disk, s: Slot, c: Content): Disk {
    if s == A then d.(a := c) else d.(b := c)
  }

  /** An executable interpreter is all that `prepare_boot` and the rollback look for. */
  predicate HasPython(c: Content) { c.Complete? || (c.Partial? && c.python) }

  function Inactive(d: Disk): Slot { if d.current == Some(A) then B else A }

  datatype BootResult = Boot(slot: Slot) | NoSlot | Raised

  /** `remains`: what `rmtree(..., ignore_errors=True)` could not remove, if anything. */
  datatype Op = Install(release: nat, remains: Option<bool>) | Confirm | Rollback | PrepareBoot

  // ---- Traces ----

  function InstallTrace(d: Disk, release: nat, remains: Option<bool>): seq<Disk> {
    var slot := Inactive(d);
    var d1 := d.(staging := Absent);
    var d2 := d.(staging := Partial(false));
    var d3 := d.(staging := Partial(true));
    var d4 := d.(staging := Complete(release));
    if remains.Some? && At(d, slot) != Absent then
      // The rename over a non-empty directory fails, and the staging directory is removed.
      [d, d1, d2, d3, d4, WithSlot(d4, slot, Partial(remains.value)),
       WithSlot(d1, slot, Partial(remains.value))]
    else
      var d5 := WithSlot(d4, slot, Partial(true));
      var d6 := WithSlot(d4, slot, Partial(false));
      var d7 := WithSlot(d4, slot, Absent);
      var d8 := WithSlot(d1, slot, Complete(release));
      var d9 := d8.(pending := Some(Pending(d.current, slot, release)));
      var d10 := d9.(current := Some(slot));
      var d11 := d10.(attempted := true);
      if At(d, slot) == Absent then [d, d1, d2, d3, d4, d8, d9, d10, d11]
      else [d, d1, d2, d3, d4, d5, d6, d7, d8, d9, d10, d11]
  }

  predicate Confirmable(d: Disk) {
    && d.pending.Some?
    && d.current == Some(d.pending.value.target)
    && At(d, d.pending.value.target) == Complete(d.pending.value.release)
  }

  function Cleared(d: Disk): Disk { d.(pending := None, attempted := false) }

  function ConfirmTrace(d: Disk): seq<Disk> {
    if Confirmable(d) then [d, d.(pending := None), Cleared(d)] else [d]
  }

  predicate RollbackRaises(d: Disk) {
    && d.pending.Some? && d.attempted
    && d.pending.value.previous.Some? && !HasPython(At(d, d.pending.value.previous.value))
  }

  function RollbackTrace(d: Disk): seq<Disk> {
    if d.pending.None? || !d.attempted || RollbackRaises(d) then [d]
    else
      var d1 := d.(current := d.pending.value.previous);
      [d, d1, d1.(pending := None), Cleared(d1)]
  }

  function PrepareTrace(d: Disk): seq<Disk> {
    if d.pending.Some? && d.attempted then RollbackTrace(d)
    else if d.pending.Some? && HasPython(At(d, d.pending.value.target)) then
      var d1 := d.(current := Some(d.pending.value.target));
      [d, d1, d1.(attempted := true)]
    else [d]
  }

  function CurrentPython(d: Disk): BootResult {
    if d.current.None? then NoSlot
    else if At(d, d.current.value) == Absent then Raised
    else if HasPython(At(d, d.current.value)) then Boot(d.current.value) else NoSlot
  }

  function Last(trace: seq<Disk>): Disk
    requires trace != []
  {
    trace[|trace|-1]
  }

  function PrepareResult(d: Disk): BootResult {
    if RollbackRaises(d) then Raised
    else if d.pending.Some? && !d.attempted then
      if HasPython(At(d, d.pending.value.target)) then Boot(d.pending.value.target) else Raised
    else CurrentPython(Last(PrepareTrace(d)))
  }

  function Trace(d: Disk, op: Op): (trace: seq<Disk>)
    ensures trace != [] && trace[0] == d
  {
    match op
    case Install(release, remains) => InstallTrace(d, release, remains)
    case Confirm => ConfirmTrace(d)
    case Rollback => RollbackTrace(d)
    case PrepareBoot => PrepareTrace(d)
  }

  /** The disk when the operation is cut after `cut` file operations, if it gets that far. */
  function Exec(d: Disk, op: Op, cut: nat): Disk {
    var trace := Trace(d, op);
    if cut < |trace| then trace[cut] else Last(trace)
  }

  predicate Completes(d: Disk, op: Op, cut: nat) { |Trace(d, op)| - 1 <= cut }

  // ---- Intact disks ----

  /** The current link names a complete slot; a pending update has a complete target, a different and
      complete previous slot (or none), and the link is on one of the two. */
  predicate Intact(d: Disk) {
    && (d.current.Some? ==> At(d, d.current.value).Complete?)
    && (d.pending.Some? ==>
          var p := d.pending.value;
          && At(d, p.target).Complete?
          && p.previous != Some(p.target)
          && (p.previous.Some? ==> At(d, p.previous.value).Complete?)
          && (d.current == p.previous || d.current == Some(p.target)))
  }

  /** The slot that install would overwrite is not needed by a pending update. */
  predicate InstallIsSafe(d: Disk) {
    d.pending.Some? ==> Inactive(d) != d.pending.value.target && Some(Inactive(d)) != d.pending.value.previous
  }

  /** Main result: an install keeps the disk intact at every possible crash point if and only if it
      does not overwrite the target or the previous slot of an update still pending. In particular
      it does when no marker is pending, which the source does not check. */
  lemma InstallSafeIff(d: Disk, release: nat, remains: Option<bool>)
    requires Intact(d)
    ensures (forall cut: nat :: Intact(Exec(d, Install(release, remains), cut))) <==> InstallIsSafe(d)
  {
    var op := Install(release, remains);
    if InstallIsSafe(d) {
      forall cut: nat ensures Intact(Exec(d, op, cut)) {
        InstallKeepsIntact(d, release, remains, cut);
      }
    } else {
      assert !Intact(Exec(d, op, 5));
    }
  }

  lemma InstallKeepsIntact(d: Disk, release: nat, remains: Option<bool>, cut: nat)
    requires Intact(d) && InstallIsSafe(d)
    ensures Intact(Exec(d, Install(release, remains), cut))
  {
    var trace := InstallTrace(d, release, remains);
    assert forall i :: 0 <= i < |trace| ==> Intact(trace[i]);
  }

  /** What goes wrong otherwise: a second install over an update whose attempt is on record wipes the
      slot the rollback needs, and a crash right there leaves a boot that raises. */
  lemma SecondInstallCanBlockBoot(d: Disk, release: nat)
    requires Intact(d) && d.pending.Some? && d.attempted && d.pending.value.previous == Some(Inactive(d))
    ensures exists cut: nat :: PrepareResult(Exec(d, Install(release, None), cut)).Raised?
  {
    assert InstallTrace(d, release, None)[7] == WithSlot(d.(staging := Complete(release)), Inactive(d), Absent);
    assert PrepareResult(Exec(d, Install(release, None), 7)).Raised?;
  }

  /** And that state is one completed install away from every start with a current slot. */
  lemma SecondInstallIsReachable(start: World) returns (w: World)
    requires GoodStart(start) && start.disk.current.Some?
    ensures Reachable(start, [Step(Install(start.next, None), 11)], w)
    ensures Completes(start.disk, Install(start.next, None), 11)
    ensures exists cut: nat :: PrepareResult(Exec(w.disk, Install(w.next, None), cut)).Raised?
  {
    var s := Step(Install(start.next, None), 11);
    w := Apply(start, s);
    var steps := [s];
    assert steps[..|steps|-1] == [] && Reachable(start, steps[..|steps|-1], start) && Enabled(start, steps[|steps|-1]);
    InstallKeepsIntact(start.disk, start.next, None, 11);
    SecondInstallCanBlockBoot(w.disk, w.next);
  }

  // ---- Runs ----

  /** `confirmed` and `boots` are what an observer remembers: the releases confirmed, and the
      releases returned by completed `prepare_boot` calls, in order. Installed releases are
      numbered from `next`. */
  datatype World = World(disk: Disk, confirmed: set<nat>, boots: seq<nat>, next: nat)

  datatype Step = Step(op: Op, cut: nat)

  /** An install needs a fresh release and, as a hypothesis, no pending marker. */
  predicate Enabled(w: World, s: Step) {
    s.op.Install? ==> s.op.release == w.next && w.disk.pending.None?
  }

  function ReleaseAt(d: Disk, s: Slot): nat {
    if At(d, s).Complete? then At(d, s).release else 0
  }

  function Apply(w: World, s: Step): World {
    var d := w.disk;
    World(
      Exec(d, s.op, s.cut),
      if s.op.Confirm? && Confirmable(d) && s.cut > 0 then w.confirmed + {d.pending.value.release} else w.confirmed,
      if s.op.PrepareBoot? && Completes(d, s.op, s.cut) && PrepareResult(d).Boot?
      then w.boots + [ReleaseAt(Exec(d, s.op, s.cut), PrepareResult(d).slot)] else w.boots,
      if s.op.Install? then w.next + 1 else w.next)
  }

  ghost predicate Reachable(start: World, steps: seq<Step>, w: World)
    decreases |steps|
  {
    if steps == [] then w == start
    else
      var s := steps[|steps|-1];
      exists v :: Reachable(start, steps[..|steps|-1], v) && Enabled(v, s) && w == Apply(v, s)
  }

  /** A start without pending update whose current slot, if any, holds a confirmed release. A stale
      `boot-attempted` file may exist. */
  ghost predicate GoodStart(w: World) {
    && w.disk.pending.None? && w.boots == []
    && (w.disk.current.Some? ==> ConfirmedAt(w, w.disk.current.value))
    && (forall r :: r in w.confirmed ==> r < w.next)
  }

  ghost predicate ConfirmedAt(w: World, s: Slot) {
    At(w.disk, s).Complete? && At(w.disk, s).release in w.confirmed
  }

  function Count(boots: seq<nat>, r: nat): nat {
    if boots == [] then 0 else Count(boots[..|boots|-1], r) + if boots[|boots|-1] == r then 1 else 0
  }

  ghost predicate Inv(w: World) {
    var d := w.disk;
    && Intact(d)
    && (forall r :: r in w.confirmed ==> r < w.next)
    && (forall r: nat :: w.next <= r ==> Count(w.boots, r) == 0)
    && (forall r: nat :: r !in w.confirmed ==> Count(w.boots, r) <= 1)
    && (d.pending.None? ==> d.current.Some? ==> ConfirmedAt(w, d.current.value))
    && (d.pending.Some? ==>
          var p := d.pending.value;
          && At(d, p.target) == Complete(p.release) && p.release < w.next && p.release !in w.confirmed
          && (p.previous.Some? ==> ConfirmedAt(w, p.previous.value))
          && (!d.attempted ==> Count(w.boots, p.release) == 0))
  }

  lemma CountSnoc(boots: seq<nat>, x: nat, r: nat)
    ensures Count(boots + [x], r) == Count(boots, r) + if x == r then 1 else 0
  {
    assert (boots + [x])[..|boots|] == boots;
  }

  lemma InstallStep(w: World, s: Step)
    requires Inv(w) && Enabled(w, s) && s.op.Install?
    ensures Inv(Apply(w, s))
  {
    InstallKeepsIntact(w.disk, s.op.release, s.op.remains, s.cut);
    var trace := InstallTrace(w.disk, s.op.release, s.op.remains);
    InstallTraceParts(w.disk, s.op.release, s.op.remains);
    var i := if s.cut < |trace| then s.cut else |trace| - 1;
    assert Apply(w, s).disk == trace[i];
  }

  /** The current slot is never touched, and a marker appears only over the finished slot. */
  lemma InstallTraceParts(d: Disk, release: nat, remains: Option<bool>)
    requires d.pending.None?
    ensures var trace := InstallTrace(d, release, remains);
            forall i :: 0 <= i < |trace| ==>
              && (d.current.Some? ==> At(trace[i], d.current.value) == At(d, d.current.value))
              && (trace[i].pending.None? ==> trace[i].current == d.current)
              && (trace[i].pending.Some? ==>
                    trace[i].pending.value == Pending(d.current, Inactive(d), release)
                    && At(trace[i], Inactive(d)) == Complete(release))
  {
  }

  lemma ConfirmStep(w: World, cut: nat)
    requires Inv(w)
    ensures Inv(Apply(w, Step(Confirm, cut)))
  {
  }

  lemma RollbackStep(w: World, cut: nat)
    requires Inv(w)
    ensures Inv(Apply(w, Step(Rollback, cut)))
  {
  }

  lemma PrepareStep(w: World, cut: nat)
    requires Inv(w)
    ensures Inv(Apply(w, Step(PrepareBoot, cut)))
  {
    var d := w.disk;
    if Completes(d, PrepareBoot, cut) && PrepareResult(d).Boot? {
      var booted := ReleaseAt(Exec(d, PrepareBoot, cut), PrepareResult(d).slot);
      forall r: nat ensures Count(w.boots + [booted], r) == Count(w.boots, r) + if booted == r then 1 else 0 {
        CountSnoc(w.boots, booted, r);
      }
      BootedRelease(w, cut);
    }
  }

  /** A completed boot returns a confirmed release, or the pending one for the first time, and then
      the attempt is on record. */
  lemma BootedRelease(w: World, cut: nat)
    requires Inv(w) && Completes(w.disk, PrepareBoot, cut) && PrepareResult(w.disk).Boot?
    ensures var d' := Exec(w.disk, PrepareBoot, cut);
            var s := PrepareResult(w.disk).slot;
            && At(d', s).Complete? && d'.current == Some(s)
            && (|| At(d', s).release in w.confirmed
                || (w.disk.pending.Some? && !w.disk.attempted && d'.attempted
                    && d'.pending == w.disk.pending && At(d', s) == Complete(w.disk.pending.value.release)))
  {
  }

  lemma {:induction false} InvHolds(start: World, steps: seq<Step>, w: World)
    requires GoodStart(start) && Reachable(start, steps, w)
    ensures Inv(w)
  {
    if steps != [] {
      var s := steps[|steps|-1];
      var v :| Reachable(start, steps[..|steps|-1], v) && Enabled(v, s) && w == Apply(v, s);
      InvHolds(start, steps[..|steps|-1], v);
      match s.op {
        case Install(_, _) => InstallStep(v, s);
        case Confirm => ConfirmStep(v, s.cut);
        case Rollback => RollbackStep(v, s.cut);
        case PrepareBoot => PrepareStep(v, s.cut);
      }
    }
  }

  /** Main result: after any run with crashes anywhere, the current link names a complete slot or
      none, a pending update keeps its previous slot intact and apart from its target, and a
      `prepare_boot` that runs to its end does not raise and returns a complete slot or none. */
  lemma DiskStaysBootable(start: World, steps: seq<Step>, w: World)
    requires GoodStart(start) && Reachable(start, steps, w)
    ensures Intact(w.disk)
    ensures !PrepareResult(w.disk).Raised?
    ensures PrepareResult(w.disk).Boot? ==>
              At(Last(PrepareTrace(w.disk)), PrepareResult(w.disk).slot).Complete?
              && Last(PrepareTrace(w.disk)).current == Some(PrepareResult(w.disk).slot)
  {
    InvHolds(start, steps, w);
    if PrepareResult(w.disk).Boot? {
      BootedRelease(w, |PrepareTrace(w.disk)|);
    }
  }

  /** Main result: a release that is never confirmed is returned by at most one completed boot. */
  lemma UnconfirmedBootsAtMostOnce(start: World, steps: seq<Step>, w: World, r: nat)
    requires GoodStart(start) && Reachable(start, steps, w) && r !in w.confirmed
    ensures Count(w.boots, r) <= 1
  {
    InvHolds(start, steps, w);
  }

  /** Main result: once an attempt is on record for an unconfirmed update, the next completed boot
      goes back to the slot in use before the install, or to none, and clears both markers. */
  lemma FailedAttemptGoesBack(start: World, steps: seq<Step>, w: World)
    requires GoodStart(start) && Reachable(start, steps, w)
    requires w.disk.pending.Some? && w.disk.attempted
    ensures var previous := w.disk.pending.value.previous;
            && PrepareResult(w.disk) == (if previous.Some? then Boot(previous.value) else NoSlot)
            && Last(PrepareTrace(w.disk)) == Cleared(w.disk).(current := previous)
            && (previous.Some? ==> ConfirmedAt(w, previous.value))
  {
    InvHolds(start, steps, w);
  }

  // ---- Interrupted rollbacks ----

  /** The disk after a series of boots, each cut at its own point. */
  function BootsCut(d: Disk, cuts: seq<nat>): Disk
    decreases |cuts|
  {
    if cuts == [] then d else BootsCut(Exec(d, PrepareBoot, cuts[0]), cuts[1..])
  }

  /** A rollback that a crash may have interrupted anywhere. */
  ghost predicate RollingBack(d: Disk, final: Disk) {
    || (d.pending.Some? && d.attempted && Intact(d) && final == Cleared(d).(current := d.pending.value.previous))
    || (d == final.(attempted := d.attempted) && final.pending.None? && Intact(final))
  }

  /** Main result: however often and wherever a rollback is interrupted, the next boot that runs to
      its end leaves the same link and no marker, and returns the same slot as an undisturbed
      rollback; only a stale `boot-attempted` file may remain. */
  lemma {:induction false} InterruptedRollbackConverges(d: Disk, cuts: seq<nat>)
    requires Intact(d) && d.pending.Some? && d.attempted
    ensures var e := BootsCut(d, cuts);
            && Last(PrepareTrace(e)).(attempted := false) == Last(PrepareTrace(d))
            && PrepareResult(e) == PrepareResult(d)
  {
    var final := Cleared(d).(current := d.pending.value.previous);
    RollingBackConverges(d, final, cuts);
  }

  lemma {:induction false} RollingBackConverges(d: Disk, final: Disk, cuts: seq<nat>)
    requires RollingBack(d, final)
    ensures var e := BootsCut(d, cuts);
            && Last(PrepareTrace(e)).(attempted := false) == final.(attempted := false)
            && PrepareResult(e) == CurrentPython(final)
    decreases |cuts|
  {
    if cuts != [] {
      RollingBackConverges(Exec(d, PrepareBoot, cuts[0]), final, cuts[1..]);
    }
  }

  // ---- Each operation on the fields alone ----

  /** Main result, both directions, on any disk: a confirmation succeeds exactly when an update is
      pending, the link is on its target and that slot holds its release, whether or not an attempt is
      on record; then it removes both markers, the pending one first. Otherwise nothing changes. */
  lemma ConfirmIff(w: World, cut: nat)
    ensures var d, next := w.disk, Apply(w, Step(Confirm, cut));
            if d.pending.Some? && d.current == Some(d.pending.value.target)
               && At(d, d.pending.value.target) == Complete(d.pending.value.release)
            then
              && (Completes(d, Confirm, cut) <==> cut >= 2)
              && next == w.(disk := next.disk, confirmed := next.confirmed)
              && next.disk == (if cut == 0 then d else if cut == 1 then d.(pending := None)
                               else d.(pending := None, attempted := false))
              && next.confirmed == if cut == 0 then w.confirmed else w.confirmed + {d.pending.value.release}
            else Completes(d, Confirm, cut) && next == w
  {
  }

  /** What a boot does to any disk, step by step, and what it returns: it goes back after an attempt,
      tries a pending update once, and otherwise starts the current slot. */
  lemma BootIsExact(d: Disk, cut: nat)
    ensures var after, result := Exec(d, PrepareBoot, cut), PrepareResult(d);
            match d.pending
            case Some(p) =>
              var back := d.(current := p.previous);
              var on := d.(current := Some(p.target));
              if d.attempted then
                if p.previous.None? || At(d, p.previous.value) !in {Absent, Partial(false)} then
                  && result == (if p.previous.None? then NoSlot else Boot(p.previous.value))
                  && after == (if cut == 0 then d else if cut == 1 then back
                               else if cut == 2 then back.(pending := None)
                               else back.(pending := None, attempted := false))
                else result == Raised && after == d
              else if At(d, p.target) !in {Absent, Partial(false)} then
                && result == Boot(p.target)
                && after == if cut == 0 then d else if cut == 1 then on else on.(attempted := true)
              else result == Raised && after == d
            case None =>
              && after == d
              && match d.current
                 case None => result == NoSlot
                 case Some(s) => result == match At(d, s)
                                           case Absent => Raised
                                           case Partial(python) => if python then Boot(s) else NoSlot
                                           case Complete(_) => Boot(s)
    ensures Exec(d, Rollback, cut) == if d.pending.Some? && d.attempted then Exec(d, PrepareBoot, cut) else d
  {
  }

  /** A boot that ran to its end and returned a slot adds the release in that slot to the boots. */
  lemma BootsAreExact(w: World, cut: nat)
    requires Intact(w.disk)
    ensures var next := Apply(w, Step(PrepareBoot, cut));
            && next.confirmed == w.confirmed && next.next == w.next
            && (Completes(w.disk, PrepareBoot, cut) && next.disk.current.Some? ==>
                  next.boots == w.boots + [At(next.disk, next.disk.current.value).release])
            && (!Completes(w.disk, PrepareBoot, cut) || next.disk.current.None? ==> next.boots == w.boots)
  {
  }

  /** An install that can remove the other slot: the release is complete in its staging directory before
      that slot is touched, and in place before the marker, the link and the attempt appear in this
      order. `n` is the step that puts it in place. */
  lemma InstallIsExact(d: Disk, release: nat, remains: Option<bool>, cut: nat)
    requires remains.None? || At(d, if d.current == Some(A) then B else A) == Absent
    ensures var slot, other := (if d.current == Some(A) then B else A), (if d.current == Some(A) then A else B);
            var n := if At(d, slot) == Absent then 5 else 8;
            var after := Exec(d, Install(release, remains), cut);
            var placed := WithSlot(d, slot, Complete(release)).(staging := Absent);
            var marked := placed.(pending := Some(Pending(d.current, slot, release)));
            && (Completes(d, Install(release, remains), cut) <==> cut >= n + 3)
            && (cut < n ==> && after.current == d.current && after.pending == d.pending
                            && after.attempted == d.attempted && At(after, other) == At(d, other))
            && (cut <= 4 ==> At(after, slot) == At(d, slot))
            && (4 <= cut < n ==> after.staging == Complete(release))
            && (cut == n ==> after == placed)
            && (cut == n + 1 ==> after == marked)
            && (cut == n + 2 ==> after == marked.(current := Some(slot)))
            && (cut >= n + 3 ==> after == marked.(current := Some(slot), attempted := true))
  {
  }

  /** An install that cannot remove the other slot leaves the link and the markers alone. */
  lemma FailedInstallIsExact(d: Disk, release: nat, remains: bool, cut: nat)
    requires At(d, if d.current == Some(A) then B else A) != Absent
    ensures var slot := if d.current == Some(A) then B else A;
            var after := Exec(d, Install(release, Some(remains)), cut);
            && (Completes(d, Install(release, Some(remains)), cut) <==> cut >= 6)
            && after == WithSlot(d, slot, if cut <= 4 then At(d, slot) else Partial(remains))
                        .(staging := after.staging)
            && (cut >= 6 ==> after.staging == Absent)
  {
  }

  /** Main result: from every state, and so after every run, a completed install followed by a
      completed confirmation makes the new release a confirmed one and leaves no marker; every
      further boot, however many and wherever they are cut, leaves the disk alone, and the next one
      that completes returns the new slot. */
  lemma ConfirmedReleaseStays(v: World, remains: Option<bool>, installCut: nat, confirmCut: nat, cuts: seq<nat>)
    requires remains.None? || At(v.disk, if v.disk.current == Some(A) then B else A) == Absent
    requires installCut >= 11 && confirmCut >= 2
    ensures var slot := if v.disk.current == Some(A) then B else A;
            var installed := Apply(v, Step(Install(v.next, remains), installCut));
            var w := Apply(installed, Step(Confirm, confirmCut));
            && installed.disk.attempted && installed.disk.pending == Some(Pending(v.disk.current, slot, v.next))
            && w.confirmed == v.confirmed + {v.next}
            && w.disk.pending.None? && !w.disk.attempted && w.disk.current == Some(slot)
            && At(w.disk, slot) == Complete(v.next)
            && BootsCut(w.disk, cuts) == w.disk && PrepareResult(w.disk) == Boot(slot)
            && (forall cut :: Completes(w.disk, PrepareBoot, cut) ==>
                  Apply(w, Step(PrepareBoot, cut)).boots == w.boots + [v.next])
  {
    InstallIsExact(v.disk, v.next, remains, installCut);
    var installed := Apply(v, Step(Install(v.next, remains), installCut));
    ConfirmIff(installed, confirmCut);
    var w := Apply(installed, Step(Confirm, confirmCut));
    BootIsExact(w.disk, 0);
    BootsLeaveAlone(w.disk, cuts);
  }

  lemma {:induction false} BootsLeaveAlone(d: Disk, cuts: seq<nat>)
    requires d.pending.None?
    ensures BootsCut(d, cuts) == d
    decreases |cuts|
  {
    if cuts != [] {
      BootIsExact(d, cuts[0]);
      BootsLeaveAlone(d, cuts[1..]);
    }
  }

  // ---- The mutable state directory ----

  /** None means the crash came first. */
  datatype RollbackResult = RolledBack | NothingToDo | RollbackRaised

  /** The state directory; `fuel` is the number of file operations until the crash. */
  class StateDirectory {
    var a: Content
    var b: Content
    var staging: Content
    var current: Option<Slot>
    var pending: Option<Pending>
    var attempted: bool
    var fuel: nat

    function View(): Disk
      reads this
    {
      Disk(a, b, staging, current, pending, attempted)
    }

    constructor (d: Disk, fuel: nat)
      ensures View() == d && this.fuel == fuel
    {
      a, b, staging := d.a, d.b, d.staging;
      current, pending, attempted := d.current, d.pending, d.attempted;
      this.fuel := fuel;
    }

    /** False when the crash happens instead of the next file operation. */
    method Survives() returns (alive: bool)
      modifies this`fuel
      ensures alive <==> old(fuel) > 0
      ensures fuel == if alive then old(fuel) - 1 else 0
    {
      alive := fuel > 0;
      if alive { fuel := fuel - 1; }
    }

    method SetSlot(s: Slot, c: Content)
      modifies this`a, this`b
      ensures View() == WithSlot(old(View()), s, c)
    {
      if s == A { a := c; } else { b := c; }
    }

    method RollbackStateDirectory() returns (r: Option<RollbackResult>)
      modifies this
      ensures View() == Exec(old(View()), Rollback, old(fuel))
      ensures r.Some? <==> Completes(old(View()), Rollback, old(fuel))
      ensures r.Some? ==> fuel == old(fuel) - (|RollbackTrace(old(View()))| - 1)
      ensures r == Some(RollbackRaised) <==> RollbackRaises(old(View()))
      ensures r == Some(NothingToDo) <==> old(pending).None? || !old(attempted)
    {
      if pending.None? || !attempted {
        return Some(NothingToDo);
      }
      var previous := pending.value.previous;
      if previous.Some? && !HasPython(At(View(), previous.value)) {
        return Some(RollbackRaised);
      }
      var alive := Survives();
      if !alive { return None; }
      current := previous;
      alive := Survives();
      if !alive { return None; }
      pending := None;
      alive := Survives();
      if !alive { return None; }
      attempted := false;
      r := Some(RolledBack);
    }

    method PrepareBoot() returns (r: Option<BootResult>)
      modifies this
      ensures View() == Exec(old(View()), Op.PrepareBoot, old(fuel))
      ensures r.Some? <==> Completes(old(View()), Op.PrepareBoot, old(fuel))
      ensures r.Some? ==> r.value == PrepareResult(old(View()))
    {
      if pending.Some? && attempted {
        var rollback := RollbackStateDirectory();
        if rollback.None? { return None; }
        if rollback.value.RollbackRaised? { return Some(Raised); }
      } else if pending.Some? {
        var target := pending.value.target;
        if !HasPython(At(View(), target)) { return Some(Raised); }
        var alive := Survives();
        if !alive { return None; }
        current := Some(target);
        alive := Survives();
        if !alive { return None; }
        attempted := true;
        return Some(Boot(target));
      }
      if current.Some? {
        if At(View(), current.value) == Absent { return Some(Raised); }
        if HasPython(At(View(), current.value)) { return Some(Boot(current.value)); }
      }
      r := Some(NoSlot);
    }

    /** Some(false) is the ArtifactVerificationError. */
    method Confirm() returns (r: Option<bool>)
      modifies this
      ensures View() == Exec(old(View()), Op.Confirm, old(fuel))
      ensures r.Some? <==> Completes(old(View()), Op.Confirm, old(fuel))
      ensures var d := old(View());
              var holds := && d.pending.Some? && d.current == Some(d.pending.value.target)
                           && At(d, d.pending.value.target) == Complete(d.pending.value.release);
              && (r == Some(false) <==> !holds)
              && (r == Some(true) <==> holds && old(fuel) >= 2)
              && (r == Some(true) ==> View() == d.(pending := None, attempted := false))
              && (r == Some(false) ==> View() == d)
    {
      if pending.None? || current != Some(pending.value.target) { return Some(false); }
      if At(View(), pending.value.target) != Complete(pending.value.release) { return Some(false); }
      var alive := Survives();
      if !alive { return None; }
      pending := None;
      alive := Survives();
      if !alive { return None; }
      attempted := false;
      r := Some(true);
    }

    /** Build the release in the staging directory. */
    method Stage(release: nat) returns (alive: bool)
      modifies this`fuel, this`staging
      ensures View() == Exec(old(View()), Op.Install(release, None), if old(fuel) < 4 then old(fuel) else 4)
      ensures alive <==> old(fuel) >= 4
      ensures alive ==> fuel == old(fuel) - 4
    {
      alive := Survives();
      if !alive { return; }
      staging := Absent;
      alive := Survives();
      if !alive { return; }
      staging := Partial(false);
      alive := Survives();
      if !alive { return; }
      staging := Partial(true);
      alive := Survives();
      if !alive { return; }
      staging := Complete(release);
    }

    /** `shutil.rmtree(slot, ignore_errors=True)`, over slots that are not empty. */
    method RemoveSlot(slot: Slot, remains: Option<bool>) returns (alive: bool)
      requires At(View(), slot) != Absent
      modifies this`fuel, this`a, this`b
      ensures alive <==> old(fuel) >= if remains.Some? then 1 else 3
      ensures alive ==> fuel == old(fuel) - if remains.Some? then 1 else 3
      ensures View() == WithSlot(old(View()), slot,
                if old(fuel) == 0 then At(old(View()), slot)
                else if remains.Some? then Partial(remains.value)
                else if old(fuel) == 1 then Partial(true)
                else if old(fuel) == 2 then Partial(false) else Absent)
    {
      alive := Survives();
      if !alive { return; }
      if remains.Some? {
        SetSlot(slot, Partial(remains.value));
        return;
      }
      SetSlot(slot, Partial(true));
      alive := Survives();
      if !alive { return; }
      SetSlot(slot, Partial(false));
      alive := Survives();
      if !alive { return; }
      SetSlot(slot, Absent);
    }

    /** The rename of the staging directory and the activation tail of `install`. */
    method Activate(slot: Slot, release: nat) returns (alive: bool)
      requires At(View(), slot) == Absent && staging == Complete(release)
      modifies this
      ensures alive <==> old(fuel) >= 4
      ensures var d8 := WithSlot(old(View()), slot, Complete(release)).(staging := Absent);
              var d9 := d8.(pending := Some(Pending(old(current), slot, release)));
              View() == if old(fuel) == 0 then old(View())
                        else if old(fuel) == 1 then d8
                        else if old(fuel) == 2 then d9
                        else if old(fuel) == 3 then d9.(current := Some(slot))
                        else d9.(current := Some(slot), attempted := true)
    {
      alive := Survives();
      if !alive { return; }
      SetSlot(slot, staging);
      staging := Absent;
      var previous := current;
      alive := Survives();
      if !alive { return; }
      pending := Some(Pending(previous, slot, release));
      alive := Survives();
      if !alive { return; }
      current := Some(slot);
      alive := Survives();
      if !alive { return; }
      attempted := true;
    }

    /** Some(false) is the failed rename over a slot that could not be removed. */
    method Install(release: nat, remains: Option<bool>) returns (r: Option<bool>)
      modifies this
      ensures View() == Exec(old(View()), Op.Install(release, remains), old(fuel))
      ensures r.Some? <==> Completes(old(View()), Op.Install(release, remains), old(fuel))
      ensures r.Some? ==> r.value == (remains.None? || At(old(View()), Inactive(old(View()))) == Absent)
    {
      var slot := if current == Some(A) then B else A;
      var alive := Stage(release);
      if !alive { return None; }
      if At(View(), slot) != Absent {
        alive := RemoveSlot(slot, remains);
        if !alive { return None; }
      }
      if At(View(), slot) != Absent {
        alive := Survives();
        if !alive { return None; }
        staging := Absent;
        return Some(false);
      }
      alive := Activate(slot, release);
      r := if alive then Some(true) else None;
    }
  }
}
