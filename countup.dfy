/**
  The count-up hook (`useCountUp`): it drives a displayed integer from 0 to a
  target over `durationMs` milliseconds, one animation frame at a time, and
  snaps straight to the target under reduced motion.

  The browser's frame scheduler is replaced by a fake clock: the effect runs
  at a clock reading `now`, and each call of `FrameStep` is the animation-frame
  callback firing with the frame's timestamp `t`. A requested frame that has
  not fired yet is the `pending` flag; `cancelAnimationFrame` clears it.
 */
module CountUp {
  import opened JsMath
  import opened Easing

  /** The hook's arguments, and the reduced-motion preference it reads. */
  datatype Options = Options(target: int, durationMs: real, startWhen: bool, reduce: bool)

  /** The default of the `durationMs` argument. */
  const DefaultDurationMs: real := 900.0

  /** The value every animated run starts from (`from` in the hook). */
  const From: int := 0

  /**
    The hook's state: the `value` state, the start stamp of the current run,
    and whether an animation frame is requested and not yet fired or cancelled.
   */
  datatype Hook = Hook(value: int, start: real, pending: bool)

  /** Right after `useState(0)`, before the effect has run. */
  const Initial: Hook := Hook(0, 0.0, false)

  predicate ValidOptions(o: Options) {
    o.durationMs > 0.0
  }

  /** Linear progress of a frame stamped `t`: clamped above at 1, not below. */
  function Progress(t: real, start: real, durationMs: real): (p: real)
    requires durationMs > 0.0
    ensures p <= 1.0
    ensures p == 1.0 <==> t - start >= durationMs
    ensures start <= t ==> 0.0 <= p
  {
    var linear := (t - start) / durationMs;
    assert linear >= 1.0 <==> t - start >= durationMs by {
      assert t - start == linear * durationMs;
    }
    Min(1.0, linear)
  }

  /** The value a frame at progress `p` emits: the eased value, rounded. */
  function FrameValue(target: int, p: real): (v: int)
    ensures p == 1.0 ==> v == target
    ensures p == 0.0 ==> v == From
  {
    Round(From as real + (target - From) as real * EaseOutCubic(p))
  }

  /** The effect body: nothing unless `startWhen`; a snap under reduced motion; else a run. */
  function RunEffect(o: Options, h: Hook, now: real): (r: Hook)
    ensures !o.startWhen ==> r == h
    ensures o.startWhen && o.reduce ==> r.value == o.target && r.pending == h.pending
    ensures o.startWhen && !o.reduce ==> r.value == h.value && r.start == now && r.pending
  {
    if !o.startWhen then h
    else if o.reduce then h.(value := o.target)
    else Hook(h.value, now, true)
  }

  /** The effect's cleanup, `cancelAnimationFrame(raf)`. */
  function Teardown(h: Hook): (r: Hook)
    ensures !r.pending && r.value == h.value
  {
    h.(pending := false)
  }

  /** The animation-frame callback firing at stamp `t`, if one is requested. */
  function FrameStep(o: Options, h: Hook, t: real): (r: Hook)
    requires ValidOptions(o)
    ensures r.start == h.start
    ensures !h.pending ==> r == h
    ensures h.pending ==> (r.pending <==> t - h.start < o.durationMs)
    ensures h.pending && t - h.start >= o.durationMs ==> r == Hook(o.target, h.start, false)
  {
    if !h.pending then h
    else
      var p := Progress(t, h.start, o.durationMs);
      Hook(FrameValue(o.target, p), h.start, p < 1.0)
  }

  /** The state after display frames stamped `ts` have passed. */
  function Frames(o: Options, h: Hook, ts: seq<real>): (r: Hook)
    requires ValidOptions(o)
    decreases |ts|
  {
    if ts == [] then h else Frames(o, FrameStep(o, h, ts[0]), ts[1..])
  }

  /** The value shown after each of the display frames stamped `ts`. */
  function Values(o: Options, h: Hook, ts: seq<real>): (vs: seq<int>)
    requires ValidOptions(o)
    ensures |vs| == |ts|
    decreases |ts|
  {
    if ts == [] then []
    else
      var h1 := FrameStep(o, h, ts[0]);
      [h1.value] + Values(o, h1, ts[1..])
  }

  predicate Ascending(ts: seq<real>) {
    forall i, j :: 0 <= i <= j < |ts| ==> ts[i] <= ts[j]
  }

  predicate NonDecreasing(vs: seq<int>) {
    forall i, j :: 0 <= i <= j < |vs| ==> vs[i] <= vs[j]
  }

  lemma ProgressMonotone(t1: real, t2: real, start: real, durationMs: real)
    requires durationMs > 0.0 && t1 <= t2
    ensures Progress(t1, start, durationMs) <= Progress(t2, start, durationMs)
  {
    assert (t1 - start) / durationMs <= (t2 - start) / durationMs by {
      assert (t2 - start) / durationMs - (t1 - start) / durationMs == (t2 - t1) / durationMs;
    }
  }

  /** For a non-negative target the emitted value never decreases with progress. */
  lemma FrameValueMonotone(target: int, p: real, q: real)
    requires 0 <= target && p <= q
    ensures FrameValue(target, p) <= FrameValue(target, q)
  {
    EaseMonotone(p, q);
    var k := target as real;
    assert k * EaseOutCubic(p) <= k * EaseOutCubic(q) by {
      assert k * EaseOutCubic(q) - k * EaseOutCubic(p) == k * (EaseOutCubic(q) - EaseOutCubic(p));
    }
    RoundMonotone(k * EaseOutCubic(p), k * EaseOutCubic(q));
  }

  /**
    For a non-negative target, progress never above 1 shows at most the
    target, and non-negative progress shows at least 0.
   */
  lemma FrameValueWithin(target: int, p: real)
    requires 0 <= target && p <= 1.0
    ensures FrameValue(target, p) <= target
    ensures 0.0 <= p ==> 0 <= FrameValue(target, p)
  {
    FrameValueMonotone(target, p, 1.0);
    if 0.0 <= p {
      FrameValueMonotone(target, 0.0, p);
    }
  }

  /** Once no frame is requested, frames pass without changing anything. */
  lemma {:induction false} FramesIdle(o: Options, h: Hook, ts: seq<real>)
    requires ValidOptions(o) && !h.pending
    ensures Frames(o, h, ts) == h
    ensures forall i :: 0 <= i < |ts| ==> Values(o, h, ts)[i] == h.value
  {
    if ts != [] {
      FramesIdle(o, h, ts[1..]);
    }
  }

  /**
    Termination: once a frame lands `durationMs` or more after the start, the
    value is exactly the target, no frame is requested, and it stays so.
   */
  lemma {:induction false} FramesReachTarget(o: Options, h: Hook, ts: seq<real>, k: nat)
    requires ValidOptions(o) && h.pending
    requires k < |ts| && ts[k] - h.start >= o.durationMs
    ensures Frames(o, h, ts) == Hook(o.target, h.start, false)
    ensures forall i :: k <= i < |ts| ==> Values(o, h, ts)[i] == o.target
    decreases |ts|
  {
    var h1 := FrameStep(o, h, ts[0]);
    var vs := Values(o, h, ts);
    assert Frames(o, h, ts) == Frames(o, h1, ts[1..]);
    assert vs == [h1.value] + Values(o, h1, ts[1..]);
    if h1.pending {
      assert k > 0;
      assert ts[1..][k - 1] == ts[k];
      FramesReachTarget(o, h1, ts[1..], k - 1);
    } else {
      assert h1 == Hook(o.target, h.start, false);
      FramesIdle(o, h1, ts[1..]);
    }
    forall i | k <= i < |ts|
      ensures vs[i] == o.target
    {
      if i > 0 {
        assert vs[i] == Values(o, h1, ts[1..])[i - 1];
      }
    }
  }

  /**
    Between frames with non-decreasing stamps, none before `t0`, the values
    shown never decrease and stay within `[value, target]`. This holds for
    frames before the run's start too: only the lower bound 0 needs them at
    or after it.
   */
  lemma {:induction false} ValuesClimb(o: Options, h: Hook, t0: real, ts: seq<real>)
    requires ValidOptions(o) && 0 <= o.target && h.value <= o.target
    requires h.pending ==> h.value <= FrameValue(o.target, Progress(t0, h.start, o.durationMs))
    requires Ascending(ts)
    requires forall i :: 0 <= i < |ts| ==> t0 <= ts[i]
    ensures forall i :: 0 <= i < |ts| ==> h.value <= Values(o, h, ts)[i] <= o.target
    ensures NonDecreasing(Values(o, h, ts))
    decreases |ts|
  {
    if ts != [] {
      var t1 := ts[0];
      var h1 := FrameStep(o, h, t1);
      if h.pending {
        var p0 := Progress(t0, h.start, o.durationMs);
        var p1 := Progress(t1, h.start, o.durationMs);
        ProgressMonotone(t0, t1, h.start, o.durationMs);
        FrameValueMonotone(o.target, p0, p1);
        FrameValueMonotone(o.target, p1, 1.0);
      }
      ValuesClimb(o, h1, t1, ts[1..]);
      var vs := Values(o, h, ts);
      assert vs == [h1.value] + Values(o, h1, ts[1..]);
    }
  }

  /**
    After mount, the values shown at non-decreasing frame stamps never
    decrease and never exceed the target; when no frame is stamped before
    mount they also start from 0 and so stay within `[0, target]`.
   */
  lemma MountedValuesClimb(o: Options, now: real, ts: seq<real>)
    requires ValidOptions(o) && 0 <= o.target
    requires Ascending(ts)
    ensures forall i :: 0 <= i < |ts| ==> Values(o, RunEffect(o, Initial, now), ts)[i] <= o.target
    ensures NonDecreasing(Values(o, RunEffect(o, Initial, now), ts))
    ensures (forall i :: 0 <= i < |ts| ==> now <= ts[i]) ==>
      forall i :: 0 <= i < |ts| ==> 0 <= Values(o, RunEffect(o, Initial, now), ts)[i]
  {
    var h := RunEffect(o, Initial, now);
    if !h.pending {
      FramesIdle(o, h, ts);
    } else if ts != [] {
      var h1 := FrameStep(o, h, ts[0]);
      var p1 := Progress(ts[0], now, o.durationMs);
      FrameValueWithin(o.target, p1);
      assert h.start == now && h1.value == FrameValue(o.target, p1);
      assert forall i :: 0 <= i < |ts[1..]| ==> ts[0] <= ts[1..][i] by {
        forall i | 0 <= i < |ts[1..]|
          ensures ts[0] <= ts[1..][i]
        {
          assert ts[1..][i] == ts[i + 1];
        }
      }
      ValuesClimb(o, h1, ts[0], ts[1..]);
      var v, rest := h1.value, Values(o, h1, ts[1..]);
      var vs := Values(o, h, ts);
      assert vs == [v] + rest;
      ClimbFromFirst(v, rest, o.target);
      forall i | 0 <= i < |ts|
        ensures v <= vs[i] <= o.target
      {
        assert vs[i] == ([v] + rest)[i];
      }
    }
  }

  /** A first value followed by values that climb from it within a bound still climbs within it. */
  lemma ClimbFromFirst(v: int, rest: seq<int>, target: int)
    requires v <= target && NonDecreasing(rest)
    requires forall i :: 0 <= i < |rest| ==> v <= rest[i] <= target
    ensures NonDecreasing([v] + rest)
    ensures forall i :: 0 <= i < |rest| + 1 ==> v <= ([v] + rest)[i] <= target
  {
    var vs := [v] + rest;
    forall i, j | 0 <= i <= j < |vs|
      ensures vs[i] <= vs[j]
    {
      if i > 0 {
        assert vs[i] == rest[i - 1] && vs[j] == rest[j - 1];
      }
    }
  }

  /** Reduced motion: the value is the target at once and no frame is ever requested. */
  lemma {:induction false} ReducedMotionSnaps(o: Options, h: Hook, now: real, ts: seq<real>)
    requires ValidOptions(o) && o.startWhen && o.reduce
    ensures RunEffect(o, Teardown(h), now).value == o.target
    ensures Frames(o, RunEffect(o, Teardown(h), now), ts) == RunEffect(o, Teardown(h), now)
    ensures forall i :: 0 <= i < |ts| ==> Values(o, RunEffect(o, Teardown(h), now), ts)[i] == o.target
  {
    FramesIdle(o, RunEffect(o, Teardown(h), now), ts);
  }

  /** With `startWhen` false the effect does nothing: the value keeps its initial 0. */
  lemma {:induction false} NotStartedStaysZero(o: Options, now: real, ts: seq<real>)
    requires ValidOptions(o) && !o.startWhen
    ensures Frames(o, RunEffect(o, Initial, now), ts).value == 0
    ensures forall i :: 0 <= i < |ts| ==> Values(o, RunEffect(o, Initial, now), ts)[i] == 0
  {
    FramesIdle(o, Initial, ts);
  }

  /** After teardown no frame that still arrives changes the value. */
  lemma {:induction false} TeardownFreezes(o: Options, h: Hook, ts: seq<real>)
    requires ValidOptions(o)
    ensures Frames(o, Teardown(h), ts).value == h.value
    ensures forall i :: 0 <= i < |ts| ==> Values(o, Teardown(h), ts)[i] == h.value
  {
    FramesIdle(o, Teardown(h), ts);
  }

  /**
    Progress is not clamped below 0: a frame stamped before the run's start
    can show a negative value (here 100 ms early, target 99, 900 ms: -37).
   */
  lemma FrameBeforeStartGoesNegative()
    ensures FrameStep(Options(99, 900.0, true, false), Hook(0, 1000.0, true), 900.0).value == -37
  {
    var p := Progress(900.0, 1000.0, 900.0);
    assert p == -1.0 / 9.0;
    assert EaseOutCubic(p) == -271.0 / 729.0;
    assert 99.0 * EaseOutCubic(p) == -26829.0 / 729.0;
  }

  /** A frame only 1 ms early still rounds to 0: `99 * eased` is about -0.33. */
  lemma FrameJustBeforeStartShowsZero()
    ensures FrameStep(Options(99, 900.0, true, false), Hook(0, 1000.0, true), 999.0).value == 0
  {
    var p := Progress(999.0, 1000.0, 900.0);
    assert p == -1.0 / 900.0;
    assert EaseOutCubic(p) == -2432701.0 / 729000000.0;
    assert 99.0 * EaseOutCubic(p) == -240837399.0 / 729000000.0;
  }

  /**
    The hero's KPI counters, `useCountUp(target, 900, true)`: with the default
    duration, any frame 900 ms or more after mount leaves the target shown,
    under either motion preference.
   */
  lemma DefaultRunReachesTarget(target: int, reduce: bool, now: real, ts: seq<real>, k: nat)
    requires k < |ts| && ts[k] - now >= DefaultDurationMs
    ensures var o := Options(target, DefaultDurationMs, true, reduce);
      Frames(o, RunEffect(o, Initial, now), ts).value == target
  {
    var o := Options(target, DefaultDurationMs, true, reduce);
    var h := RunEffect(o, Initial, now);
    if reduce {
      FramesIdle(o, h, ts);
    } else {
      FramesReachTarget(o, h, ts, k);
    }
  }

  /** One mounted `useCountUp`: the hook's state and the frame it may have requested. */
  class Counter {
    var options: Options
    var value: int
    var start: real
    var pending: bool

    ghost predicate Valid()
      reads this
    {
      ValidOptions(options)
    }

    function State(): Hook
      reads this
    {
      Hook(value, start, pending)
    }

    /** Mount at clock reading `now`: `useState(0)`, then the effect's first run. */
    constructor (o: Options, now: real)
      requires ValidOptions(o)
      ensures Valid() && options == o
      ensures State() == RunEffect(o, Initial, now)
    {
      options := o;
      value, start, pending := 0, 0.0, false;
      if o.startWhen {
        if o.reduce {
          value := o.target;
        } else {
          start := now;
          pending := true;
        }
      }
    }

    /** The requested animation frame fires with timestamp `t`. */
    method Tick(t: real)
      requires Valid()
      modifies this
      ensures Valid() && options == old(options)
      ensures State() == FrameStep(options, old(State()), t)
    {
      if pending {
        var p := Min(1.0, (t - start) / options.durationMs);
        var eased := 1.0 - Cube(1.0 - p);
        value := Round(From as real + (options.target - From) as real * eased);
        pending := p < 1.0;
      }
    }

    /** Unmount: the effect's cleanup cancels the requested frame. */
    method Cancel()
      modifies this
      ensures options == old(options)
      ensures State() == Teardown(old(State()))
    {
      pending := false;
    }

    /** A dependency changed: the old run is cleaned up and the effect runs again at `now`. */
    method Update(o: Options, now: real)
      requires ValidOptions(o) && o != options
      modifies this
      ensures Valid() && options == o
      ensures State() == RunEffect(o, Teardown(old(State())), now)
    {
      Cancel();
      options := o;
      if o.startWhen {
        if o.reduce {
          value := o.target;
        } else {
          start := now;
          pending := true;
        }
      }
    }
  }
}
