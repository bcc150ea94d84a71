/** Adaptive frame pacing (`botparty_robot/camera.py`), over exact reals. */
module Pacing {
  import opened Prelude

  /** The timing variables of the publish loop. */
  datatype Pace = Pace(nextAt: real, interval: real, overruns: nat, fps: real, stableSince: real)

  /** Rates fixed for one loop: the full rate and the floor for adaptive cuts. */
  datatype Rates = Rates(publishFps: real, minFps: real)

  function Max(a: real, b: real): real { if a >= b then a else b }
  function Min(a: real, b: real): real { if a <= b then a else b }

  /** `publish_fps` and `min_publish_fps` of the loop. */
  function LoopRates(cameraFps: real, requestedFps: real): Rates {
    var publish := if cameraFps > 0.0 then Min(cameraFps, Max(5.0, requestedFps)) else Max(5.0, requestedFps);
    Rates(publish, Max(8.0, publish * 0.6))
  }

  function Initial(r: Rates, start: real): Pace
    requires r.publishFps > 0.0
  {
    Pace(start, Interval(r.publishFps), 0, r.publishFps, start)
  }

  /** The effective rate is positive and between the floor and the full rate (the floor may lie above
      a low full rate), and the interval is its reciprocal. */
  ghost predicate Inv(r: Rates, p: Pace) {
    && r.publishFps > 0.0 && r.minFps > 0.0
    && 0.0 < Min(r.publishFps, r.minFps) <= p.fps <= r.publishFps
    && p.interval * p.fps == 1.0
  }

  /** One more overrun for a lag of more than one and a half intervals, one less otherwise. */
  function Overruns(now: real, p: Pace): nat {
    if now - p.nextAt > p.interval * 1.5 then p.overruns + 1 else if p.overruns > 0 then p.overruns - 1 else 0
  }

  function NewRate(r: Rates, now: real, p: Pace): real {
    if Overruns(now, p) >= 8 && p.fps > r.minFps then Max(r.minFps, p.fps - 2.0)
    else if p.fps < r.publishFps && now - p.stableSince >= 12.0 && now - p.nextAt <= p.interval * 0.5 then
      Min(r.publishFps, p.fps + 1.0)
    else p.fps
  }

  lemma RateInBounds(r: Rates, now: real, p: Pace)
    requires Min(r.publishFps, r.minFps) <= p.fps <= r.publishFps
    ensures Min(r.publishFps, r.minFps) <= NewRate(r, now, p) <= r.publishFps
  {
  }

  /** The pace after `_update_adaptive_publish_rate` for a frame taken at `now`. */
  function Adapted(r: Rates, now: real, p: Pace): (q: Pace)
    requires Inv(r, p)
    ensures Inv(r, q)
  {
    RateInBounds(r, now, p);
    var fps := NewRate(r, now, p);
    var interval := if fps == p.fps then p.interval else Interval(fps);
    Pace(if now - p.nextAt > interval * 2.0 then now else p.nextAt, interval,
         if fps < p.fps then 0 else Overruns(now, p), fps, if fps != p.fps then now else p.stableSince)
  }

  /** When the rate changes, and what else does. */
  lemma AdaptedIsExact(r: Rates, now: real, p: Pace, q: Pace)
    requires Inv(r, p) && q == Adapted(r, now, p)
    // A cut of at most 2 fps, down to the floor, exactly when eight overruns have piled up above it.
    // A lag of more than one and a half intervals is one overrun more, any other lag one less.
    ensures var lag := now - p.nextAt;
            var late := if lag > p.interval * 1.5 then p.overruns + 1 else if p.overruns > 0 then p.overruns - 1 else 0;
            && (q.fps < p.fps <==> late >= 8 && p.fps > r.minFps)
            && (q.fps > p.fps <==> !(late >= 8 && p.fps > r.minFps) && p.fps < r.publishFps
                                   && now - p.stableSince >= 12.0 && lag <= p.interval * 0.5)
            && q.overruns == if q.fps < p.fps then 0 else late
    ensures q.fps < p.fps ==> q.fps == Max(r.minFps, p.fps - 2.0)
    // Otherwise a recovery of at most 1 fps, up to the full rate, after twelve stable seconds on time.
    ensures q.fps > p.fps ==> q.fps == Min(r.publishFps, p.fps + 1.0)
    ensures q.stableSince == if q.fps != p.fps then now else p.stableSince
    // A schedule more than two intervals behind is moved to the present.
    ensures q.nextAt == if now - p.nextAt > q.interval * 2.0 then now else p.nextAt
  {
  }

  method UpdateAdaptiveRate(r: Rates, now: real, p: Pace) returns (q: Pace)
    requires Inv(r, p)
    ensures Inv(r, q) && q == Adapted(r, now, p)
  {
    var overruns, fps, interval, stableSince := p.overruns, p.fps, p.interval, p.stableSince;
    var lag := now - p.nextAt;
    if lag > interval * 1.5 {
      overruns := overruns + 1;
    } else if overruns > 0 {
      overruns := overruns - 1;
    }
    if overruns >= 8 && fps > r.minFps {
      fps := Max(r.minFps, fps - 2.0);
      interval := Interval(fps);
      overruns := 0;
      stableSince := now;
    } else if fps < r.publishFps && now - stableSince >= 12.0 && lag <= interval * 0.5 {
      fps := Min(r.publishFps, fps + 1.0);
      interval := Interval(fps);
      stableSince := now;
    }
    q := Pace(if lag > interval * 2.0 then now else p.nextAt, interval, overruns, fps, stableSince);
    assert q == Adapted(r, now, p);
  }

  function Interval(fps: real): (interval: real)
    requires fps > 0.0
    ensures interval * fps == 1.0
  {
    1.0 / fps
  }

  lemma IntervalPositive(interval: real, fps: real)
    requires fps > 0.0 && interval * fps == 1.0
    ensures interval > 0.0
  {
  }

  // ---- The bound on published frames ----

  /** Instants measured in slots of the full rate. */
  function InSlots(times: seq<real>, fps: real): seq<real> {
    seq(|times|, i requires 0 <= i < |times| => times[i] * fps)
  }

  /** The publications `xs` so far and the schedule they left behind, all in slots. `slack` is the
      longest interval in slots. */
  ghost predicate Spaced(start: real, slack: real, xs: seq<real>, next: real) {
    // Each publication uses up a slot.
    && next >= start + |xs| as real
    && (forall k :: 0 <= k < |xs| ==> xs[k] >= start + k as real)
    // So it does counted from any earlier publication, but for one interval of catching up.
    && (forall k :: 0 <= k < |xs| ==> next >= xs[k] - slack + (|xs| - k - 1) as real)
    && (forall j, k :: 0 <= j < k < |xs| ==> xs[k] >= xs[j] - slack + (k - j - 1) as real)
  }

  ghost predicate Paced(fps: real, slack: real, start: real, times: seq<real>, nextAt: real) {
    Spaced(start * fps, slack, InSlots(times, fps), nextAt * fps)
  }

  /** `slack` slots of the full rate are at least the longest interval the loop can use. */
  predicate CoversLongest(r: Rates, slack: real) {
    slack * Min(r.publishFps, r.minFps) >= r.publishFps
  }

  lemma SpacedGrows(start: real, slack: real, xs: seq<real>, next: real, now: real, newNext: real, interval: real)
    requires Spaced(start, slack, xs, next) && 1.0 <= interval <= slack
    requires now >= next && newNext >= next + interval && newNext >= now - interval
    ensures Spaced(start, slack, xs + [now], newNext)
  {
  }

  lemma PublishScaled(f: real, slack: real, start: real, times: seq<real>, nextAt: real, now: real, q: Pace)
    requires f > 0.0 && 1.0 <= q.interval * f <= slack
    requires Paced(f, slack, start, times, nextAt)
    requires now >= nextAt && q.nextAt >= nextAt && now - q.nextAt <= 2.0 * q.interval
    ensures Paced(f, slack, start, times + [now], q.nextAt + q.interval)
  {
    ScheduleInSlots(nextAt, now, q, f);
    InSlotsSnoc(times, now, f);
    SpacedGrows(start * f, slack, InSlots(times, f), nextAt * f, now * f, (q.nextAt + q.interval) * f, q.interval * f);
  }

  lemma PublishStep(r: Rates, slack: real, start: real, times: seq<real>, nextAt: real, now: real, q: Pace)
    requires Inv(r, q) && CoversLongest(r, slack) && Paced(r.publishFps, slack, start, times, nextAt)
    requires now >= nextAt && q.nextAt == if now - nextAt > q.interval * 2.0 then now else nextAt
    ensures Paced(r.publishFps, slack, start, times + [now], q.nextAt + q.interval)
    ensures nextAt <= q.nextAt + q.interval <= now + q.interval
    ensures Inv(r, q.(nextAt := q.nextAt + q.interval))
  {
    IntervalInSlots(r, slack, q);
    IntervalPositive(q.interval, q.fps);
    PublishScaled(r.publishFps, slack, start, times, nextAt, now, q);
  }

  lemma IntervalInSlots(r: Rates, slack: real, q: Pace)
    requires Inv(r, q) && CoversLongest(r, slack)
    ensures 1.0 <= q.interval * r.publishFps <= slack
  {
    var low, x := Min(r.publishFps, r.minFps), q.interval;
    IntervalPositive(x, q.fps);
    Scale(q.fps, r.publishFps, x);
    Scale(low, q.fps, x);
    Scale(r.publishFps, slack * low, x);
    assert slack > 0.0 by {
      if slack <= 0.0 { Scale(slack, 0.0, low); }
    }
    Scale(low * x, 1.0, slack);
    assert slack * low * x == low * x * slack;
  }

  lemma ScheduleInSlots(nextAt: real, now: real, q: Pace, f: real)
    requires f > 0.0 && now >= nextAt && q.nextAt >= nextAt && now - q.nextAt <= 2.0 * q.interval
    ensures now * f >= nextAt * f
    ensures (q.nextAt + q.interval) * f >= nextAt * f + q.interval * f
    ensures (q.nextAt + q.interval) * f >= now * f - q.interval * f
  {
    Scale(nextAt, now, f);
    Scale(nextAt + q.interval, q.nextAt + q.interval, f);
    Distribute(nextAt, q.interval, f);
    Scale(now - q.interval, q.nextAt + q.interval, f);
    Distribute(now, q.interval, f);
  }

  lemma InSlotsSnoc(times: seq<real>, now: real, f: real)
    ensures InSlots(times + [now], f) == InSlots(times, f) + [now * f]
  {
    forall i | 0 <= i < |times| + 1 ensures InSlots(times + [now], f)[i] == (InSlots(times, f) + [now * f])[i] {
    }
  }

  lemma Scale(a: real, b: real, f: real)
    requires f > 0.0 && a <= b
    ensures a * f <= b * f
  {
  }

  lemma Distribute(a: real, b: real, f: real)
    ensures (a + b) * f == a * f + b * f && (a - b) * f == a * f - b * f
    ensures (-b) * f == -(b * f)
  {
  }

  /** The frames that were due when they came. */
  function Due(frames: seq<real>, paces: seq<Pace>): seq<real>
    requires |paces| >= |frames|
  {
    if frames == [] then []
    else
      var n := |frames| - 1;
      Due(frames[..n], paces) + if frames[n] >= paces[n].nextAt then [frames[n]] else []
  }

  /** `paces[i]` is the pace before frame i: an early frame leaves it alone, a due one adapts the rate and
      advances the schedule by one interval. */
  ghost predicate Follows(r: Rates, frames: seq<real>, paces: seq<Pace>) {
    && |paces| == |frames| + 1 && (forall i :: 0 <= i < |paces| ==> Inv(r, paces[i]))
    && forall i :: 0 <= i < |frames| ==>
         paces[i+1] == if frames[i] < paces[i].nextAt then paces[i]
                       else var q := Adapted(r, frames[i], paces[i]); q.(nextAt := q.nextAt + q.interval)
  }

  /** `times` are the publications of `frames` under `paces`. */
  ghost predicate Published(r: Rates, frames: seq<real>, times: seq<real>, paces: seq<Pace>) {
    Follows(r, frames, paces) && times == Due(frames, paces) && Subseq(times, frames)
  }

  lemma PublishedSnoc(r: Rates, frames: seq<real>, i: nat, times: seq<real>, paces: seq<Pace>, q: Pace)
    requires i < |frames| && Published(r, frames[..i], times, paces) && Inv(r, q)
    requires var p := paces[i];
             q == if frames[i] < p.nextAt then p
                  else var a := Adapted(r, frames[i], p); a.(nextAt := a.nextAt + a.interval)
    ensures Published(r, frames[..i+1], if frames[i] < paces[i].nextAt then times else times + [frames[i]], paces + [q])
  {
    var before, now := frames[..i], frames[i];
    assert frames[..i+1] == before + [now] && (before + [now])[..i] == before;
    DuePrefix(before, paces, paces + [q]);
    if now < paces[i].nextAt { SubseqGrow(times, before, now); } else { SubseqSnoc(times, before, now); }
  }

  lemma {:induction false} DuePrefix(frames: seq<real>, paces: seq<Pace>, more: seq<Pace>)
    requires |frames| <= |paces| && paces <= more
    ensures Due(frames, more) == Due(frames, paces)
  {
    if frames != [] { DuePrefix(frames[..|frames|-1], paces, more); }
  }

  /** Main result: a frame is dropped only when it comes before the schedule, and the schedule starts at
      the loop's start and is never more than one interval after the last published frame. */
  lemma DueFramesArePublished(r: Rates, frames: seq<real>, times: seq<real>, paces: seq<Pace>, i: nat)
    requires Published(r, frames, times, paces) && i < |frames|
    ensures frames[i] >= paces[i].nextAt ==>
              frames[i] in times && paces[i].nextAt <= paces[i+1].nextAt <= frames[i] + paces[i+1].interval
    ensures frames[i] < paces[i].nextAt ==> paces[i+1].nextAt == paces[i].nextAt
  {
    if frames[i] >= paces[i].nextAt {
      DueIsIn(frames, paces, i);
      AdaptedSchedule(r, frames[i], paces[i]);
    }
  }

  lemma AdaptedSchedule(r: Rates, now: real, p: Pace)
    requires Inv(r, p) && now >= p.nextAt
    ensures var q := Adapted(r, now, p); p.nextAt <= q.nextAt + q.interval <= now + q.interval
  {
    var q := Adapted(r, now, p);
    IntervalPositive(q.interval, q.fps);
  }

  lemma {:induction false} DueIsIn(frames: seq<real>, paces: seq<Pace>, i: nat)
    requires i < |frames| <= |paces| && frames[i] >= paces[i].nextAt
    ensures frames[i] in Due(frames, paces)
  {
    if i < |frames| - 1 { DueIsIn(frames[..|frames|-1], paces, i); }
  }

  /** The publish loop over the instants at which a new frame is available: exactly the frames that are
      due are published. */
  method PublishLoop(r: Rates, ghost slack: real, start: real, frames: seq<real>)
    returns (times: seq<real>, ghost paces: seq<Pace>)
    requires r.publishFps > 0.0 && r.minFps > 0.0 && CoversLongest(r, slack)
    ensures Subseq(times, frames)
    ensures Published(r, frames, times, paces)
    ensures Paced(r.publishFps, slack, start, times, paces[|frames|].nextAt)
    ensures paces[0] == Pace(start, paces[0].interval, 0, r.publishFps, start)
    // The schedule is at most one interval after the last publication.
    ensures var p := paces[|frames|]; p.nextAt <= if times == [] then start else times[|times|-1] + p.interval
  {
    var p := Initial(r, start);
    times, paces := [], [p];
    var i := 0;
    while i < |frames|
      invariant 0 <= i <= |frames|
      invariant Inv(r, p) && Paced(r.publishFps, slack, start, times, p.nextAt)
      invariant Published(r, frames[..i], times, paces) && p == paces[i]
      invariant paces[0] == Pace(start, paces[0].interval, 0, r.publishFps, start)
      invariant p.nextAt <= if times == [] then start else times[|times|-1] + p.interval
    {
      if frames[i] < p.nextAt {
        PublishedSnoc(r, frames, i, times, paces, p);
        paces, i := paces + [p], i + 1;
        continue;
      }
      var q := Publish(r, slack, start, times, frames[i], p);
      PublishedSnoc(r, frames, i, times, paces, q);
      times, p, paces, i := times + [frames[i]], q, paces + [q], i + 1;
    }
    assert frames[..i] == frames;
  }

  /** Publish a frame that is due: adapt the rate and advance the schedule by one interval. */
  method Publish(r: Rates, ghost slack: real, ghost start: real, ghost times: seq<real>, now: real, p: Pace)
    returns (q: Pace)
    requires Inv(r, p) && CoversLongest(r, slack) && Paced(r.publishFps, slack, start, times, p.nextAt)
    requires now >= p.nextAt
    ensures Inv(r, q) && Paced(r.publishFps, slack, start, times + [now], q.nextAt)
    ensures var a := Adapted(r, now, p); q == a.(nextAt := a.nextAt + a.interval)
    ensures p.nextAt <= q.nextAt <= now + q.interval
  {
    q := UpdateAdaptiveRate(r, now, p);
    PublishStep(r, slack, start, times, p.nextAt, now, q);
    q := q.(nextAt := q.nextAt + q.interval);
  }

  /** Main result: through all lag resets, cuts and recoveries, by the time of the n-th publication at
      most 1 + (t - start) * publish_fps frames have been published. */
  lemma NeverFasterThanTheFullRate(fps: real, slack: real, start: real, times: seq<real>, nextAt: real, n: nat)
    requires fps > 0.0 && Paced(fps, slack, start, times, nextAt)
    requires 1 <= n <= |times|
    ensures n as real <= 1.0 + (times[n-1] - start) * fps
  {
    assert InSlots(times, fps)[n-1] >= start * fps + (n - 1) as real;
    Distribute(times[n-1], start, fps);
  }

  /** Main result: the same over every window of the run, not only from its start: from the j-th to the
      k-th publication there are at most 1 + elapsed * publish_fps frames, plus one longest interval
      of catching up. */
  lemma NoBurstInAnyWindow(fps: real, slack: real, start: real, times: seq<real>, nextAt: real, j: nat, k: nat)
    requires fps > 0.0 && Paced(fps, slack, start, times, nextAt)
    requires j < k < |times|
    ensures (k - j) as real <= 1.0 + (times[k] - times[j]) * fps + slack
  {
    var xs := InSlots(times, fps);
    assert xs[k] >= xs[j] - slack + (k - j - 1) as real;
    Distribute(times[k], times[j], fps);
  }

  /** With the loop's own rates, both positive, the floor is at least 60 % of the full rate, so five
      thirds of a slot cover the longest interval. */
  lemma LoopRatesArePositive(cameraFps: real, requestedFps: real)
    ensures var r := LoopRates(cameraFps, requestedFps);
            0.0 < r.publishFps && 0.0 < r.minFps && CoversLongest(r, 5.0 / 3.0)
    // The request, but at least 5 fps, and no more than the camera gives; the floor is at least 8 fps.
    ensures var publish := LoopRates(cameraFps, requestedFps).publishFps;
            && (cameraFps > 0.0 ==> publish <= cameraFps) && (publish <= 5.0 || publish <= requestedFps)
            && (publish == cameraFps || (publish >= 5.0 && publish >= requestedFps))
    ensures var r := LoopRates(cameraFps, requestedFps);
            r.minFps >= 8.0 && r.minFps >= r.publishFps * 0.6 && r.minFps in {8.0, r.publishFps * 0.6}
  {
    var r := LoopRates(cameraFps, requestedFps);
    assert Min(r.publishFps, r.minFps) >= r.publishFps * 0.6;
  }
}
