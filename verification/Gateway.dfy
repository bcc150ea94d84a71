/**
 The reconnect loop of the control connection (`botparty_robot/gateway.py`) against a gateway that
 connects, claims, announces shutdowns and drops as it likes.
 */
module Gateway {
  import opened Prelude

  /** Messages that matter here. A safety reset is handled during the claim as well as after it; the
      model lets every reset release the latch, which the guard of `PipelineStops` only restricts. */
  datatype Message = ServerShutdown(reason: string) | ResetSafety | OtherMessage

  /** One turn of the loop as the gateway plays it. Without a connection there are no claim messages.
      `recovered` says that the turn got as far as the reconnect callback, and `running` whether the
      client is still running when the turn ends. */
  datatype Attempt = Attempt(
    claimMessages: seq<Message>,
    claimed: bool,
    recovered: bool,
    sessionMessages: seq<Message>,
    running: bool)

  /** What happened, in order. `Notified` is one call of `on_disconnected`, which begins with the
      synchronous prefix of the hardware stop; `Started` records whether the latch is set. */
  datatype Event = Started(latched: bool) | Claimed | Lost(running: bool) | Notified

  datatype State = State(connected: bool, disconnectNotified: bool, pendingRecovery: Option<string>, latched: bool)

  function Initial(latched: bool): State { State(false, false, None, latched) }

  function Handled(g: State, m: Message): State {
    match m
    // An empty reason is replaced by a default one.
    case ServerShutdown(reason) => g.(pendingRecovery := Some(if reason == "" then "restart" else reason))
    case ResetSafety => g.(latched := false)
    case OtherMessage => g
  }

  function HandledAll(g: State, messages: seq<Message>): State
    decreases messages
  {
    if messages == [] then g else HandledAll(Handled(g, messages[0]), messages[1..])
  }

  /** From the claim acknowledgement to the end of the session. */
  function Session(g: State, a: Attempt): State {
    var claimed := g.(connected := true, disconnectNotified := false);
    HandledAll(if a.recovered then claimed.(pendingRecovery := None) else claimed, a.sessionMessages)
  }

  predicate ShouldNotify(g: State, a: Attempt) {
    a.running && (a.claimed || g.pendingRecovery.Some?) && !g.disconnectNotified
  }

  function AfterAttempt(g: State, a: Attempt): State {
    var claiming := HandledAll(g.(connected := false), a.claimMessages);
    var ended := (if a.claimed then Session(claiming, a) else claiming).(connected := false);
    if ShouldNotify(ended, a) then ended.(disconnectNotified := true, latched := true) else ended
  }

  function AttemptEvents(g: State, a: Attempt): seq<Event> {
    var claiming := HandledAll(g.(connected := false), a.claimMessages);
    var ended := if a.claimed then Session(claiming, a) else claiming;
    [Started(g.latched)]
    + (if a.claimed then [Claimed, Lost(a.running)] else [])
    + (if ShouldNotify(ended, a) then [Notified] else [])
  }

  /** The attempts the loop makes: it ends after the first one that leaves the client stopped. */
  function Turns(attempts: seq<Attempt>): nat
    ensures Turns(attempts) <= |attempts|
  {
    if attempts == [] then 0
    else if !attempts[0].running then 1
    else 1 + Turns(attempts[1..])
  }

  function RunState(g: State, attempts: seq<Attempt>): State {
    if attempts == [] then g
    else AfterAttempt(RunState(g, attempts[..|attempts|-1]), attempts[|attempts|-1])
  }

  function RunEvents(g: State, attempts: seq<Attempt>): seq<Event> {
    if attempts == [] then []
    else RunEvents(g, attempts[..|attempts|-1])
         + AttemptEvents(RunState(g, attempts[..|attempts|-1]), attempts[|attempts|-1])
  }

  // ---- Discipline of the notifications ----

  predicate Announces(messages: seq<Message>) {
    exists i :: 0 <= i < |messages| && messages[i].ServerShutdown?
  }

  /** Messages leave the notification flag alone, a recovery is pending afterwards exactly when it was
      before or a shutdown is among them, and the latch stays set exactly without a reset. */
  lemma {:induction false} MessagesHandled(g: State, messages: seq<Message>)
    ensures var h := HandledAll(g, messages);
            && h.disconnectNotified == g.disconnectNotified && h.connected == g.connected
            && (h.pendingRecovery.Some? <==> g.pendingRecovery.Some? || Announces(messages))
            && (h.latched <==> g.latched && ResetSafety !in messages)
    decreases messages
  {
    if messages != [] {
      MessagesHandled(Handled(g, messages[0]), messages[1..]);
      assert messages == [messages[0]] + messages[1..];
      assert Announces(messages) <==> messages[0].ServerShutdown? || Announces(messages[1..]) by {
        assert forall i :: 1 <= i < |messages| ==> messages[i] == messages[1..][i-1];
      }
    }
  }

  /** There is a claim between positions `i` and `j`. */
  ghost predicate ClaimBetween(events: seq<Event>, i: int, j: int) {
    exists k :: i < k < j && 0 <= k < |events| && events[k].Claimed?
  }

  /** While running, every loss is followed at once by a notification; a notification is followed, if
      anything follows, by an attempt that starts latched; between two notifications is a claim. */
  ghost predicate Disciplined(events: seq<Event>) {
    && (forall i :: 0 <= i < |events| && events[i] == Lost(true) ==> i + 1 < |events| && events[i+1].Notified?)
    && (forall i :: 0 <= i < |events| - 1 && events[i].Notified? ==> events[i+1] == Started(true))
    && (forall i, j :: 0 <= i < j < |events| && events[i].Notified? && events[j].Notified? ==>
          ClaimBetween(events, i, j))
  }

  /** What the state remembers of the events: a notification without a later claim sets the flag,
      and a notification at the very end leaves the latch set. */
  ghost predicate Linked(g: State, events: seq<Event>) {
    && (forall i :: 0 <= i < |events| && events[i].Notified? && !ClaimBetween(events, i, |events|) ==>
          g.disconnectNotified)
    && (events != [] && events[|events|-1].Notified? ==> g.latched)
  }

  lemma ClaimStays(events: seq<Event>, more: seq<Event>, i: int, j: int)
    requires ClaimBetween(events, i, j) && j <= |events|
    ensures ClaimBetween(events + more, i, j)
  {
    var k :| i < k < j && 0 <= k < |events| && events[k].Claimed?;
    assert (events + more)[k].Claimed?;
  }

  /** Appending events without a notification, or with one as the last of them. */
  lemma AttemptKeepsDiscipline(g: State, events: seq<Event>, a: Attempt)
    requires Disciplined(events) && Linked(g, events)
    ensures Disciplined(events + AttemptEvents(g, a)) && Linked(AfterAttempt(g, a), events + AttemptEvents(g, a))
  {
    var claiming := HandledAll(g.(connected := false), a.claimMessages);
    MessagesHandled(g.(connected := false), a.claimMessages);
    if a.claimed {
      var claimed := claiming.(connected := true, disconnectNotified := false);
      MessagesHandled(if a.recovered then claimed.(pendingRecovery := None) else claimed, a.sessionMessages);
      ClaimedTurn(g, events, a);
    } else {
      UnclaimedTurn(g, events, a);
    }
  }

  lemma ClaimedTurn(g: State, events: seq<Event>, a: Attempt)
    requires Disciplined(events) && Linked(g, events) && a.claimed
    requires AttemptEvents(g, a)
             == [Started(g.latched), Claimed, Lost(a.running)] + if a.running then [Notified] else []
    requires a.running ==> AfterAttempt(g, a).disconnectNotified && AfterAttempt(g, a).latched
    ensures Disciplined(events + AttemptEvents(g, a)) && Linked(AfterAttempt(g, a), events + AttemptEvents(g, a))
  {
    var n := |events|;
    var all := events + AttemptEvents(g, a);
    assert all[n] == Started(g.latched) && all[n+1] == Claimed && all[n+2] == Lost(a.running);
    forall i | 0 <= i < n && events[i].Notified? ensures ClaimBetween(all, i, n + 2) {
      assert all[n+1].Claimed?;
    }
    forall i, j | 0 <= i < j < |all| && all[i].Notified? && all[j].Notified? ensures ClaimBetween(all, i, j) {
      if j < n {
        ClaimStays(events, AttemptEvents(g, a), i, j);
      } else {
      }
    }
  }

  lemma UnclaimedTurn(g: State, events: seq<Event>, a: Attempt)
    requires Disciplined(events) && Linked(g, events) && !a.claimed
    requires AttemptEvents(g, a) == [Started(g.latched)]
             || (AttemptEvents(g, a) == [Started(g.latched), Notified] && !g.disconnectNotified
                 && AfterAttempt(g, a).disconnectNotified && AfterAttempt(g, a).latched)
    requires g.disconnectNotified ==> AfterAttempt(g, a).disconnectNotified
    ensures Disciplined(events + AttemptEvents(g, a)) && Linked(AfterAttempt(g, a), events + AttemptEvents(g, a))
  {
    var n := |events|;
    var more := AttemptEvents(g, a);
    var all := events + more;
    assert all[n] == Started(g.latched);
    forall i, j | 0 <= i < j < |all| && all[i].Notified? && all[j].Notified? ensures ClaimBetween(all, i, j) {
      if j < n {
        ClaimStays(events, more, i, j);
      } else {
        ClaimStays(events, more, i, n);
      }
    }
    forall i | 0 <= i < |all| && all[i].Notified? && !ClaimBetween(all, i, |all|)
      ensures AfterAttempt(g, a).disconnectNotified
    {
      if i < n && ClaimBetween(events, i, n) {
        ClaimStays(events, more, i, n);
      }
    }
  }

  /** Main result: over every sequence of attempts, shutdown announcements, failed claims and losses,
      each loss of a claimed connection while running is notified exactly once and before the next
      attempt, which finds the latch set; and between two notifications there is a claim. */
  lemma {:induction false} NotificationsAreDisciplined(latched: bool, attempts: seq<Attempt>)
    ensures Disciplined(RunEvents(Initial(latched), attempts))
    ensures Linked(RunState(Initial(latched), attempts), RunEvents(Initial(latched), attempts))
  {
    if attempts != [] {
      var front := attempts[..|attempts|-1];
      NotificationsAreDisciplined(latched, front);
      var g, events := RunState(Initial(latched), front), RunEvents(Initial(latched), front);
      AttemptKeepsDiscipline(g, events, attempts[|attempts|-1]);
    }
  }

  // ---- Notifications before any claim ----

  /** Some notification has no claim before it. */
  ghost predicate EarlyNotice(events: seq<Event>) {
    exists i :: 0 <= i < |events| && events[i].Notified? && !ClaimBetween(events, -1, i)
  }

  /** No attempt up to the one at `i` is claimed. */
  predicate NoneClaimedUpTo(attempts: seq<Attempt>, i: int) {
    forall k :: 0 <= k <= i && k < |attempts| ==> !attempts[k].claimed
  }

  predicate NoneClaimed(attempts: seq<Attempt>) {
    NoneClaimedUpTo(attempts, |attempts| - 1)
  }

  /** The attempt at `i` ends with the client running, the one at `j` brought an announcement, and no
      attempt so far was claimed. */
  predicate EarlyAt(attempts: seq<Attempt>, i: int, j: int) {
    && 0 <= j <= i < |attempts| && attempts[i].running && Announces(attempts[j].claimMessages)
    && NoneClaimedUpTo(attempts, i)
  }

  /** Before any claimed attempt, one ends with the client running and a shutdown announced during its
      own claim or an earlier one. */
  ghost predicate EarlyShutdown(attempts: seq<Attempt>) {
    exists i, j :: EarlyAt(attempts, i, j)
  }

  ghost predicate AnyAnnounced(attempts: seq<Attempt>) {
    exists j :: 0 <= j < |attempts| && Announces(attempts[j].claimMessages)
  }

  lemma EarlyShutdownSnoc(attempts: seq<Attempt>, a: Attempt)
    ensures EarlyShutdown(attempts + [a])
            <==> EarlyShutdown(attempts)
                 || (NoneClaimed(attempts + [a]) && a.running && AnyAnnounced(attempts + [a]))
  {
    var all := attempts + [a];
    assert forall k :: 0 <= k < |attempts| ==> attempts[k] == all[k];
    if i, j :| EarlyAt(attempts, i, j) {
      assert EarlyAt(all, i, j);
    }
    if i, j :| EarlyAt(all, i, j) && i < |attempts| {
      assert EarlyAt(attempts, i, j);
    }
    if NoneClaimed(all) && a.running && AnyAnnounced(all) {
      var j :| 0 <= j < |all| && Announces(all[j].claimMessages);
      assert EarlyAt(all, |attempts|, j);
    }
  }

  lemma AnyAnnouncedSnoc(attempts: seq<Attempt>, a: Attempt)
    ensures AnyAnnounced(attempts + [a]) <==> AnyAnnounced(attempts) || Announces(a.claimMessages)
  {
    var all := attempts + [a];
    assert forall j :: 0 <= j < |attempts| ==> all[j] == attempts[j];
    assert all[|attempts|] == a;
  }

  lemma EarlyNoticeAppend(events: seq<Event>, more: seq<Event>)
    ensures EarlyNotice(events) ==> EarlyNotice(events + more)
    ensures Claimed in events ==> (EarlyNotice(events + more) <==> EarlyNotice(events))
  {
    var all := events + more;
    forall i | 0 <= i < |events| ensures ClaimBetween(all, -1, i) <==> ClaimBetween(events, -1, i) {
      if ClaimBetween(all, -1, i) {
        var k :| -1 < k < i && 0 <= k < |all| && all[k].Claimed?;
        assert events[k].Claimed?;
      }
      if ClaimBetween(events, -1, i) { ClaimStays(events, more, -1, i); }
    }
    if Claimed in events {
      var k :| 0 <= k < |events| && events[k] == Claimed;
      forall i | |events| <= i < |all| ensures ClaimBetween(all, -1, i) {
        assert all[k].Claimed?;
      }
    }
  }

  /** Without a claim, a notification has happened exactly when some attempt, ending with the client
      running, came after an announcement or brought one. */
  lemma {:induction false} Unclaimed(latched: bool, attempts: seq<Attempt>)
    requires NoneClaimed(attempts)
    ensures var g, events := RunState(Initial(latched), attempts), RunEvents(Initial(latched), attempts);
            && (g.pendingRecovery.Some? <==> AnyAnnounced(attempts))
            && Claimed !in events
            && (g.disconnectNotified <==> Notified in events)
            && (Notified in events <==> EarlyShutdown(attempts))
  {
    if attempts != [] {
      var front, a := attempts[..|attempts|-1], attempts[|attempts|-1];
      assert attempts == front + [a];
      Unclaimed(latched, front);
      EarlyShutdownSnoc(front, a);
      AnyAnnouncedSnoc(front, a);
      UnclaimedAttempt(RunState(Initial(latched), front), a);
    }
  }

  lemma UnclaimedAttempt(g: State, a: Attempt)
    requires !a.claimed
    ensures var h, more := AfterAttempt(g, a), AttemptEvents(g, a);
            && (h.pendingRecovery.Some? <==> g.pendingRecovery.Some? || Announces(a.claimMessages))
            && Claimed !in more
            && (h.disconnectNotified <==> g.disconnectNotified || Notified in more)
            && (Notified in more <==> a.running && h.pendingRecovery.Some? && !g.disconnectNotified)
  {
    MessagesHandled(g.(connected := false), a.claimMessages);
  }

  /** A claimed attempt emits its claim before its notification. */
  lemma ClaimedAttempt(g: State, a: Attempt, events: seq<Event>)
    requires a.claimed
    ensures EarlyNotice(events + AttemptEvents(g, a)) ==> EarlyNotice(events)
    ensures Claimed in AttemptEvents(g, a)
  {
    var more := AttemptEvents(g, a);
    var all := events + more;
    assert all[|events|+1].Claimed? && more[1] == Claimed;
    EarlyNoticeAppend(events, more);
    if EarlyNotice(all) {
      var i :| 0 <= i < |all| && all[i].Notified? && !ClaimBetween(all, -1, i);
      assert i < |events|;
      if ClaimBetween(events, -1, i) { ClaimStays(events, more, -1, i); }
      assert events[i].Notified?;
    }
  }

  lemma {:induction false} ClaimsAreEvents(latched: bool, attempts: seq<Attempt>)
    ensures Claimed in RunEvents(Initial(latched), attempts) <==> !NoneClaimed(attempts)
  {
    if attempts != [] {
      var front, a := attempts[..|attempts|-1], attempts[|attempts|-1];
      ClaimsAreEvents(latched, front);
      assert attempts == front + [a];
      if a.claimed {
        ClaimedAttempt(RunState(Initial(latched), front), a, []);
      }
    }
  }

  /** Main result, both directions: `on_disconnected` is called before any claim if and only if, before
      the first claimed attempt, a shutdown is announced during a claim and that attempt, or a later one
      still before any claim, ends with the client running. */
  lemma {:induction false} NoticeBeforeClaimIff(latched: bool, attempts: seq<Attempt>)
    ensures EarlyNotice(RunEvents(Initial(latched), attempts)) <==> EarlyShutdown(attempts)
  {
    if NoneClaimed(attempts) {
      var events := RunEvents(Initial(latched), attempts);
      Unclaimed(latched, attempts);
      if Notified in events {
        var i :| 0 <= i < |events| && events[i] == Notified;
        assert events[i].Notified? && !ClaimBetween(events, -1, i);
      }
    } else {
      var front, a := attempts[..|attempts|-1], attempts[|attempts|-1];
      assert attempts == front + [a];
      NoticeBeforeClaimIff(latched, front);
      EarlyShutdownSnoc(front, a);
      ClaimsAreEvents(latched, front);
      EarlyNoticeAppend(RunEvents(Initial(latched), front), AttemptEvents(RunState(Initial(latched), front), a));
      if NoneClaimed(front) {
        assert a.claimed;
        ClaimedAttempt(RunState(Initial(latched), front), a, RunEvents(Initial(latched), front));
      }
    }
  }

  /** In the attempts the loop makes, only the last can end with the client stopped; there the shutdown
      has to be announced in an attempt that ends running. */
  lemma EarlyShutdownInALoop(attempts: seq<Attempt>)
    requires Turns(attempts) == |attempts|
    ensures EarlyShutdown(attempts) <==> exists i :: EarlyAt(attempts, i, i)
  {
    if i, j :| EarlyAt(attempts, i, j) {
      AnnouncedWhileRunning(attempts, i, j);
    }
  }

  lemma AnnouncedWhileRunning(attempts: seq<Attempt>, i: nat, j: nat)
    requires Turns(attempts) == |attempts| && EarlyAt(attempts, i, j)
    ensures EarlyAt(attempts, j, j)
  {
    RunningUntilLast(attempts, j);
  }

  lemma {:induction false} RunningUntilLast(attempts: seq<Attempt>, j: nat)
    requires Turns(attempts) == |attempts| && j < |attempts|
    ensures j < |attempts| - 1 ==> attempts[j].running
  {
    if j > 0 {
      RunningUntilLast(attempts[1..], j - 1);
    }
  }

  /** The smallest such run: one attempt whose claim fails after a shutdown was announced. */
  lemma NoticeBeforeAnyClaim(reason: string)
    ensures RunEvents(Initial(false), [Attempt([ServerShutdown(reason)], false, false, [], true)])
            == [Started(false), Notified]
  {
    var a := Attempt([ServerShutdown(reason)], false, false, [], true);
    assert [a][..0] == [];
    assert HandledAll(Initial(false), a.claimMessages) == Handled(Initial(false), ServerShutdown(reason)) by {
      assert a.claimMessages[1..] == [];
    }
  }

  // ---- The mutable connection ----

  class GatewayConnection {
    var connected: bool
    var disconnectNotified: bool
    var pendingRecoveryReason: Option<string>
    var latched: bool
    ghost var events: seq<Event>

    function View(): State
      reads this
    {
      State(connected, disconnectNotified, pendingRecoveryReason, latched)
    }

    constructor (latched: bool)
      ensures View() == Initial(latched) && events == []
    {
      connected, disconnectNotified, pendingRecoveryReason := false, false, None;
      this.latched := latched;
      events := [];
    }

    method HandleMessage(m: Message)
      modifies this`pendingRecoveryReason, this`latched
      ensures View() == Handled(old(View()), m)
      ensures m.ServerShutdown? ==>
                && pendingRecoveryReason == Some(if m.reason == "" then "restart" else m.reason)
                && latched == old(latched)
      ensures m.ResetSafety? ==> !latched && pendingRecoveryReason == old(pendingRecoveryReason)
      ensures m.OtherMessage? ==> latched == old(latched) && pendingRecoveryReason == old(pendingRecoveryReason)
    {
      match m {
        case ServerShutdown(reason) =>
          pendingRecoveryReason := Some(if reason == "" then "restart" else reason);
        case ResetSafety => latched := false;
        case OtherMessage =>
      }
    }

    method HandleMessages(messages: seq<Message>)
      modifies this`pendingRecoveryReason, this`latched
      ensures View() == HandledAll(old(View()), messages)
      ensures pendingRecoveryReason.Some? <==> old(pendingRecoveryReason).Some? || Announces(messages)
      ensures latched <==> old(latched) && ResetSafety !in messages
    {
      MessagesHandled(View(), messages);
      var i := 0;
      while i < |messages|
        invariant 0 <= i <= |messages|
        invariant HandledAll(View(), messages[i..]) == HandledAll(old(View()), messages)
      {
        assert messages[i..][1..] == messages[i+1..];
        HandleMessage(messages[i]);
        i := i + 1;
      }
      assert messages[i..] == [];
    }

    /** From the claim acknowledgement to the end of the session. */
    method HoldSession(a: Attempt)
      modifies this
      ensures View() == Session(old(View()), a)
      ensures events == old(events) + [Claimed, Lost(a.running)]
      ensures connected && !disconnectNotified
      ensures pendingRecoveryReason.Some? <==>
                (old(pendingRecoveryReason).Some? && !a.recovered) || Announces(a.sessionMessages)
      ensures latched <==> old(latched) && ResetSafety !in a.sessionMessages
    {
      connected := true;
      disconnectNotified := false;
      events := events + [Claimed];
      if a.recovered {
        pendingRecoveryReason := None;
      }
      HandleMessages(a.sessionMessages);
      events := events + [Lost(a.running)];
    }

    /** One turn of the loop, `finally` block included. */
    method MakeAttempt(a: Attempt)
      modifies this
      ensures View() == AfterAttempt(old(View()), a)
      ensures events == old(events) + AttemptEvents(old(View()), a)
      ensures var announced := old(pendingRecoveryReason).Some? || Announces(a.claimMessages);
              var notified := a.running && (a.claimed || (announced && !old(disconnectNotified)));
              var reset := ResetSafety in a.claimMessages || (a.claimed && ResetSafety in a.sessionMessages);
              && events == old(events) + [Started(old(latched))]
                           + (if a.claimed then [Claimed, Lost(a.running)] else [])
                           + (if notified then [Notified] else [])
              && !connected
              && (disconnectNotified <==> notified || (!a.claimed && old(disconnectNotified)))
              && (latched <==> notified || (old(latched) && !reset))
              && (pendingRecoveryReason.Some? <==>
                    if a.claimed then (announced && !a.recovered) || Announces(a.sessionMessages) else announced)
    {
      events := events + [Started(latched)];
      connected := false;
      HandleMessages(a.claimMessages);
      if a.claimed {
        HoldSession(a);
      }
      connected := false;
      var shouldNotify := a.claimed || pendingRecoveryReason.Some?;
      if a.running && shouldNotify && !disconnectNotified {
        latched := true;
        disconnectNotified := true;
        events := events + [Notified];
      }
    }

    /** `run`: attempts until the client stops or the gateway has no more to offer. */
    method Run(attempts: seq<Attempt>) returns (made: nat)
      requires events == [] && View() == Initial(latched)
      modifies this
      ensures made == Turns(attempts)
      ensures made <= |attempts| && forall i :: 0 <= i < made - 1 ==> attempts[i].running
      ensures made == |attempts| || (made > 0 && !attempts[made-1].running)
      ensures View() == RunState(old(View()), attempts[..made])
      ensures events == RunEvents(old(View()), attempts[..made])
      ensures Disciplined(events)
      ensures EarlyNotice(events) <==> EarlyShutdown(attempts[..made])
    {
      var start := View();
      var running := true;
      made := 0;
      while made < |attempts| && running
        invariant made <= |attempts|
        invariant forall i :: 0 <= i < made - 1 ==> attempts[i].running
        invariant if running then made > 0 ==> attempts[made-1].running else made > 0 && !attempts[made-1].running
        invariant View() == RunState(start, attempts[..made]) && events == RunEvents(start, attempts[..made])
        invariant Turns(attempts) == made + if running then Turns(attempts[made..]) else 0
        decreases |attempts| - made, running
      {
        assert attempts[..made+1][..made] == attempts[..made];
        assert attempts[made..][1..] == attempts[made+1..];
        MakeAttempt(attempts[made]);
        running := attempts[made].running;
        made := made + 1;
      }
      NotificationsAreDisciplined(start.latched, attempts[..made]);
      NoticeBeforeClaimIff(start.latched, attempts[..made]);
    }
  }
}
