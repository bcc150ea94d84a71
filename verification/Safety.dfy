/** The stop latch, its epochs and the permits issued under it (`botparty_robot/safety.py`). */
module Safety {
  import opened Prelude

  /** Value of the controller. Cancellation events are numbered in creation order; `event` is the
      one new permits receive and `fired` holds the numbers of those already set. */
  datatype Latch = Latch(epoch: nat, latched: bool, event: nat, fired: set<nat>)

  datatype Permit = Permit(epoch: nat, event: nat)

  function Initial(): Latch { Latch(0, false, 0, {}) }

  function Stopped(l: Latch): Latch {
    Latch(l.epoch + 1, true, l.event, l.fired + {l.event})
  }

  /** A reset replaces the event without setting the old one. */
  function Unlatched(l: Latch): Latch {
    Latch(l.epoch + 1, false, l.event + 1, l.fired)
  }

  function Issue(l: Latch): Option<Permit> {
    if l.latched then None else Some(Permit(l.epoch, l.event))
  }

  predicate EpochActive(l: Latch, epoch: nat) {
    !l.latched && l.epoch == epoch
  }

  /** The test made by `CommandPermit.ensure_active`. */
  predicate PermitActive(l: Latch, p: Permit) {
    p.event !in l.fired && EpochActive(l, p.epoch)
  }

  /** Reachable latches: the current event is set exactly while latched, and no event is from the future. */
  ghost predicate Inv(l: Latch) {
    && (forall e :: e in l.fired ==> e <= l.event)
    && (l.event in l.fired <==> l.latched)
  }

  datatype Change = StopChange | ResetChange

  function Changed(l: Latch, changes: seq<Change>): Latch {
    if changes == [] then l
    else
      var m := Changed(l, changes[..|changes|-1]);
      if changes[|changes|-1].StopChange? then Stopped(m) else Unlatched(m)
  }

  lemma {:induction false} ChangedCounts(l: Latch, changes: seq<Change>)
    requires Inv(l)
    ensures Inv(Changed(l, changes))
    ensures Changed(l, changes).epoch == l.epoch + |changes|
    ensures Changed(l, changes).latched
            == if changes == [] then l.latched else changes[|changes|-1].StopChange?
  {
    if changes != [] {
      ChangedCounts(l, changes[..|changes|-1]);
    }
  }

  /** A permit is good exactly as long as nothing happened to the latch: no sequence of stops and
      resets, whatever its length or order, makes an old permit valid again. */
  lemma PermitLivesUntilFirstChange(l: Latch, changes: seq<Change>)
    requires Inv(l) && Issue(l).Some?
    ensures PermitActive(Changed(l, changes), Issue(l).value) <==> changes == []
  {
    ChangedCounts(l, changes);
  }

  /** The event alone would not do: a reset of an unlatched controller leaves the old permit's
      event unset for ever, and only the epoch tells that the permit is stale. */
  lemma EventAloneIsNotEnough(l: Latch, later: seq<Change>)
    requires Inv(l) && Issue(l).Some?
    ensures var p := Issue(l).value;
            var m := Changed(l, [ResetChange] + later);
            p.event !in m.fired && !PermitActive(m, p)
  {
    ChangedCounts(l, [ResetChange] + later);
    OldEventStaysUnset(l, later);
  }

  lemma {:induction false} OldEventStaysUnset(l: Latch, later: seq<Change>)
    requires Inv(l) && !l.latched
    ensures var m := Changed(l, [ResetChange] + later); l.event < m.event && l.event !in m.fired
  {
    var all := [ResetChange] + later;
    if later == [] {
      assert all[..|all|-1] == [];
    } else {
      assert all[..|all|-1] == [ResetChange] + later[..|later|-1];
      OldEventStaysUnset(l, later[..|later|-1]);
    }
  }

  /** `threading.Event`, numbered in creation order. */
  class Event {
    var isSet: bool
    ghost const number: nat

    constructor (ghost number: nat)
      ensures !isSet && this.number == number
    {
      isSet := false;
      this.number := number;
    }
  }

  class SafetyController {
    var epoch: nat
    var latched: bool
    var cancelled: Event
    ghost var events: seq<Event>
    ghost var fired: set<nat>

    ghost predicate Valid()
      reads this, events
    {
      && events != []
      && cancelled == events[|events|-1]
      && (forall i :: 0 <= i < |events| ==> events[i].number == i)
      && (forall i :: i in fired ==> i < |events|)
      && (|events| - 1 in fired <==> latched)
      && (forall i :: 0 <= i < |events| ==> (events[i].isSet <==> i in fired))
    }

    ghost function View(): Latch
      requires events != []
      reads this
    {
      Latch(epoch, latched, |events| - 1, fired)
    }

    constructor ()
      ensures Valid() && View() == Initial() && fresh(events)
    {
      epoch, latched := 0, false;
      var e := new Event(0);
      cancelled := e;
      events, fired := [e], {};
    }

    /** None is the SafetyLatchedError of the source. */
    method IssuePermit() returns (permit: Option<CommandPermit>)
      requires Valid()
      ensures permit.Some? <==> Issue(View()).Some?
      ensures permit.Some? ==>
                fresh(permit.value) && permit.value.BelongsTo(this)
                && permit.value.View() == Issue(View()).value
      ensures permit.None? <==> latched
      ensures permit.Some? ==> permit.value.epoch == epoch && permit.value.cancelled == cancelled
    {
      if latched {
        return None;
      }
      var p := new CommandPermit(this, epoch, cancelled, |events| - 1);
      permit := Some(p);
    }

    method Stop()
      requires Valid()
      modifies this, cancelled
      ensures Valid() && View() == Stopped(old(View())) && events == old(events)
      ensures latched && epoch == old(epoch) + 1 && cancelled == old(cancelled) && cancelled.isSet
    {
      cancelled.isSet := true;
      fired := fired + {|events| - 1};
      epoch := epoch + 1;
      latched := true;
    }

    method Reset()
      requires Valid()
      modifies this
      ensures Valid() && View() == Unlatched(old(View()))
      ensures |events| == |old(events)| + 1 && old(events) == events[..|old(events)|]
      ensures fresh(events[|events|-1]) && cancelled == events[|events|-1]
      ensures !latched && epoch == old(epoch) + 1 && !cancelled.isSet
    {
      epoch := epoch + 1;
      cancelled := new Event(|events|);
      latched := false;
      events := events + [cancelled];
    }

    method IsEpochActive(e: nat) returns (active: bool)
      requires Valid()
      ensures active == EpochActive(View(), e)
      ensures active <==> !latched && epoch == e
    {
      active := !latched && epoch == e;
    }
  }

  class CommandPermit {
    const controller: SafetyController
    const epoch: nat
    const cancelled: Event
    ghost const number: nat

    constructor (controller: SafetyController, epoch: nat, cancelled: Event, ghost number: nat)
      ensures this.controller == controller && this.epoch == epoch
      ensures this.cancelled == cancelled && this.number == number
    {
      this.controller, this.epoch, this.cancelled := controller, epoch, cancelled;
      this.number := number;
    }

    /** The permit's event is one of the controller's, past or present. */
    ghost predicate BelongsTo(c: SafetyController)
      reads c, c.events
    {
      controller == c && c.Valid() && number < |c.events| && c.events[number] == cancelled
    }

    ghost function View(): Permit { Permit(epoch, number) }

    /** False is the HardwareCommandCancelled of the source. */
    method EnsureActive() returns (active: bool)
      requires BelongsTo(controller)
      ensures active == PermitActive(controller.View(), View())
      ensures active <==> !cancelled.isSet && !controller.latched && controller.epoch == epoch
    {
      if cancelled.isSet {
        return false;
      }
      active := controller.IsEpochActive(epoch);
    }
  }
}
