/** The sliding-window rate limiter of spoken messages (`botparty_robot/tts/base.py`). */
module SpeechLimits {
  const MAX_BUCKETS: nat := 1024
  const SWEEP_EVERY: nat := 64

  /** Limits of one profile, and the name of its overflow bucket. Configuration allows 1 to 100
      messages per window of at least a second. A sender may have the name of the overflow bucket. */
  datatype Limits = Limits(count: nat, window: real, overflow: string)

  ghost predicate LimitsOk(l: Limits) { l.count >= 1 && l.window >= 0.0 }

  datatype State = State(recent: map<string, seq<real>>, counter: nat)

  datatype Verdict = Accepted | RateLimited | BudgetExhausted

  /** One message that passed the filters before the limiter: the normalised sender, the clock, and
      what the daily budget answers if it is asked. */
  datatype Ask = Ask(identity: string, now: real, budget: bool)

  /** The timestamps still inside the window. */
  function Live(times: seq<real>, now: real, window: real): seq<real> {
    if times != [] && now - times[0] > window then Live(times[1..], now, window) else times
  }

  function Sweep(recent: map<string, seq<real>>, now: real, window: real): map<string, seq<real>> {
    map k | k in recent && Live(recent[k], now, window) != [] :: Live(recent[k], now, window)
  }

  predicate SweepDue(s: State) {
    s.counter + 1 >= SWEEP_EVERY || |s.recent| >= MAX_BUCKETS
  }

  /** The bucket that counts a message: the sender's, or the overflow bucket for new senders when
      there are too many. */
  function Bucket(l: Limits, recent: map<string, seq<real>>, identity: string): string {
    if identity !in recent && |recent| >= MAX_BUCKETS - 1 then l.overflow else identity
  }

  datatype Decision = Decision(state: State, bucket: string, verdict: Verdict)

  function Times(h: map<string, seq<real>>, bucket: string): seq<real> { if bucket in h then h[bucket] else [] }

  function SweptIfDue(l: Limits, s: State, now: real): map<string, seq<real>> {
    if SweepDue(s) then Sweep(s.recent, now, l.window) else s.recent
  }

  function Judge(l: Limits, times: seq<real>, budget: bool): Verdict {
    if |times| >= l.count then RateLimited else if !budget then BudgetExhausted else Accepted
  }

  function Decide(l: Limits, s: State, a: Ask): Decision {
    var recent := SweptIfDue(l, s, a.now);
    var bucket := Bucket(l, recent, a.identity);
    var times := Live(Times(recent, bucket), a.now, l.window);
    var verdict := Judge(l, times, a.budget);
    Decision(
      State(recent[bucket := if verdict.Accepted? then times + [a.now] else times],
            if SweepDue(s) then 0 else s.counter + 1),
      bucket, verdict)
  }

  // ---- Runs ----

  /** Accepted messages, per bucket and in order. */
  type History = map<string, seq<real>>

  function Run(l: Limits, asks: seq<Ask>): (State, History) {
    if asks == [] then (State(map[], 0), map[])
    else
      var (s, h) := Run(l, asks[..|asks|-1]);
      var d := Decide(l, s, asks[|asks|-1]);
      (d.state,
       if d.verdict.Accepted? then h[d.bucket := Times(h, d.bucket) + [asks[|asks|-1].now]] else h)
  }

  ghost predicate Monotone(asks: seq<Ask>) {
    forall i, j :: 0 <= i < j < |asks| ==> asks[i].now <= asks[j].now
  }

  /** `times` is what is left of the history `all` at time `now`: only timestamps that have left the
      window are forgotten. */
  ghost predicate Remembers(times: seq<real>, all: seq<real>, now: real, window: real) {
    && |times| <= |all| && times == all[|all| - |times|..]
    && forall i :: 0 <= i < |all| - |times| ==> now - all[i] > window
  }

  ghost predicate Sorted(all: seq<real>, now: real) {
    && (forall i, j :: 0 <= i < j < |all| ==> all[i] <= all[j])
    && (forall i :: 0 <= i < |all| ==> all[i] <= now)
  }

  /** No closed interval of the window's length holds more than `count` of the timestamps. */
  ghost predicate WithinLimit(l: Limits, all: seq<real>) {
    forall i, j :: 0 <= i <= j < |all| && all[j] - all[i] <= l.window ==> j - i + 1 <= l.count
  }

  ghost predicate BucketsOk(l: Limits, recent: map<string, seq<real>>) {
    |recent| <= MAX_BUCKETS && (|recent| == MAX_BUCKETS ==> l.overflow in recent)
  }

  /** What holds of one bucket and its history. */
  ghost predicate BucketInv(l: Limits, times: seq<real>, all: seq<real>, now: real) {
    Remembers(times, all, now, l.window) && Sorted(all, now) && WithinLimit(l, all)
  }

  ghost predicate Inv(l: Limits, recent: map<string, seq<real>>, h: History, now: real) {
    forall b :: b in h || b in recent ==> BucketInv(l, Times(recent, b), Times(h, b), now)
  }

  lemma {:induction false} LiveFacts(times: seq<real>, all: seq<real>, before: real, now: real, window: real)
    requires Remembers(times, all, before, window) && before <= now
    ensures Remembers(Live(times, now, window), all, now, window)
    decreases |times|
  {
    if times != [] && now - times[0] > window {
      assert all[|all| - |times|] == times[0];
      LiveFacts(times[1..], all, now, now, window);
    }
  }

  /** `live` is `times` without leading timestamps outside the window. */
  ghost predicate Pruned(times: seq<real>, live: seq<real>, now: real, window: real) {
    && |live| <= |times| && live == times[|times| - |live|..]
    && (forall i :: 0 <= i < |times| - |live| ==> now - times[i] > window)
    && (live != [] ==> now - live[0] <= window)
  }

  lemma {:induction false} LiveIsPruned(times: seq<real>, now: real, window: real)
    ensures Pruned(times, Live(times, now, window), now, window)
    decreases |times|
  {
    if times != [] && now - times[0] > window {
      LiveIsPruned(times[1..], now, window);
    }
  }

  lemma BucketLater(l: Limits, times: seq<real>, all: seq<real>, before: real, now: real)
    requires BucketInv(l, times, all, before) && before <= now
    ensures BucketInv(l, Live(times, now, l.window), all, now) && BucketInv(l, times, all, now)
  {
    LiveFacts(times, all, before, now, l.window);
  }

  lemma LaterInv(l: Limits, recent: map<string, seq<real>>, h: History, before: real, now: real)
    requires Inv(l, recent, h, before) && before <= now
    ensures Inv(l, recent, h, now)
  {
    forall b | b in h || b in recent ensures BucketInv(l, Times(recent, b), Times(h, b), now) {
      BucketLater(l, Times(recent, b), Times(h, b), before, now);
    }
  }

  /** A swept-out bucket had nothing left inside the window. */
  lemma SweepKeepsInv(l: Limits, recent: map<string, seq<real>>, h: History, now: real)
    requires Inv(l, recent, h, now)
    ensures Inv(l, Sweep(recent, now, l.window), h, now)
  {
    var swept := Sweep(recent, now, l.window);
    forall b | b in h || b in swept ensures BucketInv(l, Times(swept, b), Times(h, b), now) {
      BucketLater(l, Times(recent, b), Times(h, b), now, now);
      assert Times(swept, b) == Live(Times(recent, b), now, l.window);
    }
  }

  lemma SweptInv(l: Limits, s: State, h: History, before: real, now: real)
    requires Inv(l, s.recent, h, before) && before <= now
    ensures Inv(l, SweptIfDue(l, s, now), h, now)
  {
    LaterInv(l, s.recent, h, before, now);
    if SweepDue(s) { SweepKeepsInv(l, s.recent, h, now); }
  }

  lemma AcceptOne(l: Limits, times: seq<real>, all: seq<real>, now: real)
    requires LimitsOk(l) && BucketInv(l, times, all, now)
    requires |times| < l.count
    ensures BucketInv(l, times + [now], all + [now], now)
  {
    var more := all + [now];
    assert (times + [now]) == more[|more| - |times + [now]|..];
    forall i, j | 0 <= i <= j < |more| && more[j] - more[i] <= l.window ensures j - i + 1 <= l.count {
      if j < |all| {
        assert all[j] - all[i] <= l.window;
      } else if i < |all| {
        assert now - all[i] <= l.window;
      }
    }
  }

  lemma KeepBucket(l: Limits, recent: map<string, seq<real>>, h: History, now: real, b: string, times: seq<real>)
    requires Inv(l, recent, h, now) && BucketInv(l, times, Times(h, b), now)
    ensures Inv(l, recent[b := times], h, now)
  {
  }

  lemma DecideKeepsInv(l: Limits, s: State, h: History, a: Ask, before: real)
    requires LimitsOk(l) && Inv(l, s.recent, h, before) && before <= a.now
    ensures var d := Decide(l, s, a);
            Inv(l, d.state.recent,
                if d.verdict.Accepted? then h[d.bucket := Times(h, d.bucket) + [a.now]] else h, a.now)
  {
    SweptInv(l, s, h, before, a.now);
    var recent := SweptIfDue(l, s, a.now);
    var b := Bucket(l, recent, a.identity);
    var times := PrunedBucket(l, recent, h, a.now, b);
    if Judge(l, times, a.budget).Accepted? {
      AcceptOne(l, times, Times(h, b), a.now);
    } else {
      KeepBucket(l, recent, h, a.now, b, times);
    }
  }

  lemma PrunedBucket(l: Limits, recent: map<string, seq<real>>, h: History, now: real, b: string)
    returns (times: seq<real>)
    requires Inv(l, recent, h, now)
    ensures times == Live(Times(recent, b), now, l.window)
    ensures BucketInv(l, times, Times(h, b), now)
  {
    times := Live(Times(recent, b), now, l.window);
    if b in h || b in recent {
      BucketLater(l, Times(recent, b), Times(h, b), now, now);
    }
  }

  lemma {:induction false} RunKeepsInv(l: Limits, asks: seq<Ask>)
    requires LimitsOk(l) && Monotone(asks)
    ensures asks != [] ==> Inv(l, Run(l, asks).0.recent, Run(l, asks).1, asks[|asks|-1].now)
    ensures asks == [] ==> Run(l, asks).0.recent == map[] && Run(l, asks).1 == map[]
  {
    if asks != [] {
      var front, a := asks[..|asks|-1], asks[|asks|-1];
      var (s, h) := Run(l, front);
      RunKeepsInv(l, front);
      DecideKeepsInv(l, s, h, a, if front == [] then a.now else front[|front|-1].now);
    }
  }

  /** Main result: on a non-decreasing clock, every closed interval of the window's length contains at
      most `count` accepted messages of each bucket. */
  lemma NoWindowOverTheLimit(l: Limits, asks: seq<Ask>, bucket: string, i: nat, j: nat)
    requires LimitsOk(l) && Monotone(asks)
    requires i <= j < |Times(Run(l, asks).1, bucket)|
    requires Times(Run(l, asks).1, bucket)[j] - Times(Run(l, asks).1, bucket)[i] <= l.window
    ensures j - i + 1 <= l.count
  {
    RunKeepsInv(l, asks);
    var (s, h) := Run(l, asks);
    assert BucketInv(l, Times(s.recent, bucket), Times(h, bucket), asks[|asks|-1].now);
  }

  /** Main result: the idle sweep never forgets a live timestamp: whatever of a bucket's history is no
      longer stored has left the window. */
  lemma NothingLiveIsForgotten(l: Limits, asks: seq<Ask>, bucket: string, i: nat)
    requires LimitsOk(l) && Monotone(asks) && asks != []
    requires i < |Times(Run(l, asks).1, bucket)|
    requires asks[|asks|-1].now - Times(Run(l, asks).1, bucket)[i] <= l.window
    ensures Times(Run(l, asks).1, bucket)[i] in Times(Run(l, asks).0.recent, bucket)
  {
    RunKeepsInv(l, asks);
    var all, times := Times(Run(l, asks).1, bucket), Times(Run(l, asks).0.recent, bucket);
    LiveIsStored(l, times, all, asks[|asks|-1].now, i);
  }

  lemma LiveIsStored(l: Limits, times: seq<real>, all: seq<real>, now: real, i: nat)
    requires BucketInv(l, times, all, now) && i < |all| && now - all[i] <= l.window
    ensures all[i] in times
  {
    assert times[i - (|all| - |times|)] == all[i];
  }

  /** The newest `count` accepted messages of a bucket are all inside the window. */
  predicate WindowFull(l: Limits, all: seq<real>, now: real) {
    1 <= l.count <= |all| && now - all[|all| - l.count] <= l.window
  }

  /** Main result, the other side of the limit: after any run, a message is refused by the limiter if
      and only if its bucket already has `count` accepted messages inside the window. */
  lemma LimitedIffWindowIsFull(l: Limits, asks: seq<Ask>, a: Ask)
    requires LimitsOk(l) && Monotone(asks + [a])
    ensures var d := Decide(l, Run(l, asks).0, a);
            d.verdict.RateLimited? <==> WindowFull(l, Times(Run(l, asks).1, d.bucket), a.now)
  {
    var before := LastNow(asks, a);
    RunKeepsInv(l, asks);
    assert Inv(l, Run(l, asks).0.recent, Run(l, asks).1, before);
    LimitedStep(l, Run(l, asks).0, Run(l, asks).1, a, before);
  }

  lemma LimitedStep(l: Limits, s: State, h: History, a: Ask, before: real)
    requires LimitsOk(l) && Inv(l, s.recent, h, before) && before <= a.now
    ensures var d := Decide(l, s, a); d.verdict.RateLimited? <==> WindowFull(l, Times(h, d.bucket), a.now)
  {
    SweptInv(l, s, h, before, a.now);
    LimitedIs(l, s, a);
    LiveIffFull(l, SweptIfDue(l, s, a.now), h, a.now, Decide(l, s, a).bucket);
  }

  /** Main result, the limiter's answer to the next message after any run, on the run alone. A message
      counts for its own sender unless that one is unknown and 1023 buckets are known; when a sweep is
      due, only buckets with a timestamp inside the window are. It is accepted, and its time added to
      the bucket's history, exactly when the window is not full and the budget allows it. */
  lemma VerdictIsExact(l: Limits, asks: seq<Ask>, a: Ask)
    requires LimitsOk(l) && Monotone(asks + [a])
    ensures var s, h, d := Run(l, asks).0, Run(l, asks).1, Decide(l, Run(l, asks).0, a);
            var due := s.counter + 1 >= 64 || |s.recent| >= 1024;
            var known := if due then InsideWindow(l, s.recent, a.now) else s.recent.Keys;
            && d.bucket == (if a.identity !in known && |known| >= 1023 then l.overflow else a.identity)
            && d.verdict == (if WindowFull(l, Times(h, d.bucket), a.now) then RateLimited
                             else if a.budget then Accepted else BudgetExhausted)
            && d.state.counter == (if due then 0 else s.counter + 1)
            && d.state.recent.Keys == known + {d.bucket}
            && Run(l, asks + [a])
               == (d.state, if d.verdict.Accepted? then h[d.bucket := Times(h, d.bucket) + [a.now]] else h)
  {
    LimitedIffWindowIsFull(l, asks, a);
    DecideIs(l, Run(l, asks).0, a);
    assert (asks + [a])[..|asks|] == asks;
  }

  lemma DecideIs(l: Limits, s: State, a: Ask)
    ensures var d := Decide(l, s, a);
            var due := s.counter + 1 >= 64 || |s.recent| >= 1024;
            var known := if due then InsideWindow(l, s.recent, a.now) else s.recent.Keys;
            && d.bucket == (if a.identity !in known && |known| >= 1023 then l.overflow else a.identity)
            && (!d.verdict.RateLimited? ==> d.verdict == if a.budget then Accepted else BudgetExhausted)
            && d.state.counter == (if due then 0 else s.counter + 1)
            && d.state.recent.Keys == known + {d.bucket}
  {
    SweptKeys(l, s.recent, a.now);
  }

  /** The buckets with a timestamp inside the window. */
  ghost function InsideWindow(l: Limits, recent: map<string, seq<real>>, now: real): set<string> {
    set b | b in recent && exists i :: 0 <= i < |recent[b]| && now - recent[b][i] <= l.window
  }

  /** A sweep keeps exactly those, each without its old timestamps. */
  lemma SweptKeys(l: Limits, recent: map<string, seq<real>>, now: real)
    ensures Sweep(recent, now, l.window).Keys == InsideWindow(l, recent, now)
    ensures |Sweep(recent, now, l.window)| == |InsideWindow(l, recent, now)|
    ensures forall b :: b in Sweep(recent, now, l.window) ==>
              Pruned(recent[b], Sweep(recent, now, l.window)[b], now, l.window)
  {
    forall b | b in recent
      ensures Pruned(recent[b], Live(recent[b], now, l.window), now, l.window)
      ensures Live(recent[b], now, l.window) != []
              <==> exists i :: 0 <= i < |recent[b]| && now - recent[b][i] <= l.window
    {
      var times := recent[b];
      LiveIsPruned(times, now, l.window);
      var live := Live(times, now, l.window);
      if live != [] { assert times[|times| - |live|] == live[0]; }
    }
    assert |Sweep(recent, now, l.window).Keys| == |Sweep(recent, now, l.window)|;
  }

  /** The limiter's verdict depends on the live timestamps of the chosen bucket alone. */
  lemma LimitedIs(l: Limits, s: State, a: Ask)
    ensures var d := Decide(l, s, a);
            d.verdict.RateLimited? <==> |Live(Times(SweptIfDue(l, s, a.now), d.bucket), a.now, l.window)| >= l.count
  {
  }

  lemma LiveIffFull(l: Limits, recent: map<string, seq<real>>, h: History, now: real, b: string)
    requires LimitsOk(l) && Inv(l, recent, h, now)
    ensures |Live(Times(recent, b), now, l.window)| >= l.count <==> WindowFull(l, Times(h, b), now)
  {
    var times := PrunedBucket(l, recent, h, now, b);
    LiveHead(Times(recent, b), now, l.window);
    LiveFull(l, times, Times(h, b), now);
  }

  lemma LastNow(asks: seq<Ask>, a: Ask) returns (before: real)
    requires Monotone(asks + [a])
    ensures Monotone(asks) && before <= a.now
    ensures before == if asks == [] then a.now else asks[|asks|-1].now
  {
    before := if asks == [] then a.now else asks[|asks|-1].now;
    var all := asks + [a];
    forall i, j | 0 <= i < j < |asks| ensures asks[i].now <= asks[j].now {
      assert all[i].now <= all[j].now;
    }
    if asks != [] { assert all[|asks|-1].now <= all[|asks|].now; }
  }

  lemma {:induction false} LiveHead(times: seq<real>, now: real, window: real)
    ensures var live := Live(times, now, window); live != [] ==> now - live[0] <= window
    decreases |times|
  {
    if times != [] && now - times[0] > window {
      LiveHead(times[1..], now, window);
    }
  }

  lemma LiveFull(l: Limits, times: seq<real>, all: seq<real>, now: real)
    requires LimitsOk(l) && BucketInv(l, times, all, now)
    requires times != [] ==> now - times[0] <= l.window
    ensures |times| >= l.count <==> WindowFull(l, all, now)
  {
    if |times| >= l.count {
      assert times[|times| - l.count] == all[|all| - l.count] && times[0] == all[|all| - |times|];
    }
  }

  // ---- The number of buckets ----

  lemma SubsetSize<T>(a: set<T>, b: set<T>)
    requires a <= b
    ensures |a| <= |b| && (|a| == |b| ==> a == b)
  {
    assert b == a + (b - a);
  }

  lemma BucketsStep(l: Limits, s: State, a: Ask)
    requires BucketsOk(l, s.recent)
    ensures BucketsOk(l, Decide(l, s, a).state.recent)
  {
    SweepShrinks(l, s.recent, a.now);
    var recent := SweptIfDue(l, s, a.now);
    AddBucket(l, recent, Bucket(l, recent, a.identity), a.identity);
    assert Decide(l, s, a).state.recent.Keys == recent.Keys + {Bucket(l, recent, a.identity)};
  }

  lemma SweepShrinks(l: Limits, recent: map<string, seq<real>>, now: real)
    requires BucketsOk(l, recent)
    ensures BucketsOk(l, Sweep(recent, now, l.window))
  {
    var swept := Sweep(recent, now, l.window);
    SubsetSize(swept.Keys, recent.Keys);
  }

  lemma AddBucket(l: Limits, recent: map<string, seq<real>>, b: string, identity: string)
    requires BucketsOk(l, recent) && b == Bucket(l, recent, identity)
    ensures |recent.Keys + {b}| <= MAX_BUCKETS
    ensures |recent.Keys + {b}| == MAX_BUCKETS ==> l.overflow in recent.Keys + {b}
  {
    if b in recent.Keys {
      assert recent.Keys + {b} == recent.Keys;
    }
  }

  /** Main result: there are never more than 1024 buckets, the overflow bucket included. */
  lemma {:induction false} AtMost1024Buckets(l: Limits, asks: seq<Ask>)
    ensures BucketsOk(l, Run(l, asks).0.recent)
  {
    if asks != [] {
      AtMost1024Buckets(l, asks[..|asks|-1]);
      BucketsStep(l, Run(l, asks[..|asks|-1]).0, asks[|asks|-1]);
    }
  }

  // ---- The mutable limiter ----

  class RateLimiter {
    const limits: Limits
    var recent: map<string, seq<real>>
    var counter: nat

    function View(): State
      reads this
    {
      State(recent, counter)
    }

    constructor (limits: Limits)
      ensures this.limits == limits && View() == State(map[], 0)
    {
      this.limits := limits;
      recent, counter := map[], 0;
    }

    method DropOld(times: seq<real>, now: real) returns (live: seq<real>)
      ensures live == Live(times, now, limits.window)
      ensures Pruned(times, live, now, limits.window)
    {
      LiveIsPruned(times, now, limits.window);
      live := times;
      while live != [] && now - live[0] > limits.window
        invariant Live(live, now, limits.window) == Live(times, now, limits.window)
        decreases |live|
      {
        live := live[1..];
      }
    }

    method SweepIdle(now: real)
      modifies this`recent
      ensures recent == Sweep(old(recent), now, limits.window)
    {
      var all := recent;
      var todo := recent.Keys;
      while todo != {}
        invariant todo <= all.Keys
        invariant forall k :: k in todo ==> k in recent && recent[k] == all[k]
        invariant forall k :: k in recent ==> k in todo || k in Sweep(all, now, limits.window)
        invariant forall k :: k in all && k !in todo ==>
                    (k in recent <==> k in Sweep(all, now, limits.window))
                    && (k in recent ==> recent[k] == Live(all[k], now, limits.window))
        decreases |todo|
      {
        var k :| k in todo;
        todo := todo - {k};
        var live := DropOld(recent[k], now);
        recent := if live == [] then recent - {k} else recent[k := live];
      }
      assert recent.Keys == Sweep(all, now, limits.window).Keys;
    }

    method SweepWhenDue(now: real)
      modifies this
      ensures recent == SweptIfDue(limits, old(View()), now)
      ensures counter == if SweepDue(old(View())) then 0 else old(counter) + 1
    {
      counter := counter + 1;
      if counter >= SWEEP_EVERY || |recent| >= MAX_BUCKETS {
        counter := 0;
        SweepIdle(now);
      }
    }

    /** Find the bucket that counts the message. */
    method FindBucket(identity: string) returns (bucket: string, times: seq<real>)
      ensures bucket == Bucket(limits, recent, identity) && times == Times(recent, bucket)
    {
      bucket := identity;
      if bucket !in recent && |recent| >= MAX_BUCKETS - 1 {
        bucket := limits.overflow;
      }
      times := if bucket in recent then recent[bucket] else [];
    }

    /** The limiter part of `should_speak`. */
    method ShouldSpeak(a: Ask) returns (bucket: string, verdict: Verdict)
      modifies this
      ensures Decision(View(), bucket, verdict) == Decide(limits, old(View()), a)
    {
      SweepWhenDue(a.now);
      var times;
      bucket, times := FindBucket(a.identity);
      times := DropOld(times, a.now);
      recent := recent[bucket := times];
      if |times| >= limits.count {
        verdict := RateLimited;
      } else if !a.budget {
        verdict := BudgetExhausted;
      } else {
        recent := recent[bucket := times + [a.now]];
        verdict := Accepted;
      }
    }
  }
}
