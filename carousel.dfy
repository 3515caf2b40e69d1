/**
  The testimonial carousel (`TestimonialCarousel`): an index into the
  testimonials, advanced by one (wrapping) every 5200 ms by an interval timer
  and set directly when a dot is clicked. Under reduced motion no timer is
  installed, so only clicks move it.

  The timer is replaced by explicit `Fire` events; a click on dot `i` is
  `Click(i)`. A click does not restart the timer.
 */
module Carousel {

  /** The timer period in milliseconds. */
  const IntervalMs: nat := 5200

  /** The carousel shows four testimonials. */
  const TestimonialCount: nat := 4

  /** The `idx` state and whether the interval timer is installed. */
  datatype State = State(idx: int, interval: bool)

  /** The timer firing, or a click on the dot of testimonial `i`. */
  datatype Event = Fire | Click(i: int)

  /** The timer's update `(v + 1) % items.length`. */
  function Advance(v: nat, len: nat): (w: nat)
    requires len > 0
    ensures w < len
    ensures v < len ==> w == if v + 1 == len then 0 else v + 1
  {
    (v + 1) % len
  }

  /** Mount: `useState(0)`, and the effect installs the timer unless motion is reduced. */
  function Mount(reduce: bool): (s: State)
    ensures s.idx == 0 && (s.interval <==> !reduce)
  {
    State(0, !reduce)
  }

  /** Unmount: the effect's cleanup `clearInterval`. */
  function ClearInterval(s: State): (r: State)
    ensures r.idx == s.idx && !r.interval
  {
    s.(interval := false)
  }

  /** One event: a firing advances the index while the timer is installed; a click sets it. */
  function Step(len: nat, s: State, e: Event): (r: State)
    requires len > 0 && 0 <= s.idx
    ensures r.interval == s.interval
    ensures e.Click? ==> r.idx == e.i
    ensures e.Fire? && !s.interval ==> r == s
    ensures e.Fire? && s.interval && s.idx < len ==> r.idx == if s.idx + 1 == len then 0 else s.idx + 1
  {
    match e
    case Fire => if s.interval then s.(idx := Advance(s.idx, len)) else s
    case Click(i) => s.(idx := i)
  }

  /** A click only ever names one of the dots, `0 <= i < len`. */
  predicate ValidClicks(len: nat, es: seq<Event>) {
    forall k :: 0 <= k < |es| && es[k].Click? ==> 0 <= es[k].i < len
  }

  /** The state after the events `es`, in order. */
  function Replay(len: nat, s: State, es: seq<Event>): (r: State)
    requires len > 0 && 0 <= s.idx < len && ValidClicks(len, es)
    ensures 0 <= r.idx < len
    ensures r.interval == s.interval
    decreases |es|
  {
    if es == [] then s
    else
      assert ValidClicks(len, es[1..]) by {
        forall k | 0 <= k < |es| - 1 && es[1..][k].Click?
          ensures 0 <= es[1..][k].i < len
        {
          assert es[1..][k] == es[k + 1];
        }
      }
      Replay(len, Step(len, s, es[0]), es[1..])
  }

  /** The number of firings of the timer in the first `elapsedMs` milliseconds after mount. */
  function FiringsWithin(elapsedMs: nat): (k: nat)
    ensures k * IntervalMs <= elapsedMs < (k + 1) * IntervalMs
  {
    elapsedMs / IntervalMs
  }

  /** `k` firings of the timer with no click in between. */
  function Ticks(k: nat): (es: seq<Event>)
    ensures |es| == k && forall j :: 0 <= j < k ==> es[j] == Fire
  {
    seq(k, _ => Fire)
  }

  /** The index that the clicks alone leave: the last dot clicked, or `v` if none. */
  function LastClicked(v: int, es: seq<Event>): (last: int)
    decreases |es|
  {
    if es == [] then v
    else LastClicked(if es[0].Click? then es[0].i else v, es[1..])
  }

  lemma AdvanceAdds(v: nat, len: nat)
    requires len > 0
    ensures Advance(v % len, len) == (v + 1) % len
  {
    var q, r := v / len, v % len;
    assert v == q * len + r;
    assert v + 1 == q * len + (r + 1);
    if r + 1 < len {
      assert (v + 1) % len == r + 1 by {
        ModOfMultiplePlus(q, len, r + 1);
      }
    } else {
      assert v + 1 == (q + 1) * len;
      ModOfMultiplePlus(q + 1, len, 0);
    }
  }

  lemma ModOfMultiplePlus(q: int, len: nat, r: nat)
    requires len > 0 && r < len && q * len + r >= 0
    ensures (q * len + r) % len == r
  {
    var n := q * len + r;
    var q', r' := n / len, n % len;
    assert n == q' * len + r';
    var d := q - q';
    assert d * len == r' - r by {
      assert q * len - q' * len == d * len;
    }
    if d >= 1 {
      AtLeastOnce(d, len);
    } else if d <= -1 {
      AtLeastOnce(-d, len);
    }
  }

  lemma AtLeastOnce(d: int, len: nat)
    requires d >= 1
    ensures d * len >= len
  {
    assert d * len == len + (d - 1) * len;
    assert (d - 1) * len >= 0;
  }

  /** After `k` firings from index `v`, the index is `(v + k) % len`. */
  lemma {:induction false} TicksWrap(len: nat, v: nat, k: nat)
    requires 0 <= v < len
    ensures Replay(len, State(v, true), Ticks(k)).idx == (v + k) % len
    decreases k
  {
    if k == 0 {
      assert Ticks(0) == [];
      assert v % len == v by {
        ModOfMultiplePlus(0, len, v);
      }
    } else {
      var next := Advance(v, len);
      assert Ticks(k)[1..] == Ticks(k - 1);
      assert Replay(len, State(v, true), Ticks(k)) == Replay(len, State(next, true), Ticks(k - 1));
      TicksWrap(len, next, k - 1);
      AdvanceAdds(v, len);
      assert v % len == v by {
        ModOfMultiplePlus(0, len, v);
      }
      AddModTwice(next, k - 1, v + 1, len);
    }
  }

  /** `(a + b) % n` only depends on `a % n`. */
  lemma AddModTwice(a: nat, b: nat, c: nat, len: nat)
    requires len > 0 && a == c % len
    ensures (a + b) % len == (c + b) % len
  {
    var q := c / len;
    assert c == q * len + a;
    var n := a + b;
    ModOfMultiplePlus(n / len, len, n % len);
    assert c + b == (q + n / len) * len + n % len;
    ModOfMultiplePlus(q + n / len, len, n % len);
  }

  /** From mount under full motion, `k` firings leave the index at `k % len`. */
  lemma TicksFromMount(len: nat, k: nat)
    requires len > 0
    ensures Replay(len, Mount(false), Ticks(k)).idx == k % len
  {
    TicksWrap(len, 0, k);
  }

  /** A click on dot `i` followed by a firing of the timer shows `(i + 1) % len`. */
  lemma ClickThenTick(len: nat, s: State, i: int)
    requires 0 <= s.idx < len && s.interval && 0 <= i < len
    ensures Replay(len, s, [Click(i), Fire]).idx == (i + 1) % len
  {
    assert [Click(i), Fire][1..] == [Fire];
    assert [Fire][1..] == [];
  }

  /** Under reduced motion there is no timer: the index is the last dot clicked, or 0. */
  lemma {:induction false} ReducedMotionOnlyClicks(len: nat, s: State, es: seq<Event>)
    requires 0 <= s.idx < len && !s.interval && ValidClicks(len, es)
    ensures Replay(len, s, es) == State(LastClicked(s.idx, es), false)
    decreases |es|
  {
    if es != [] {
      var s1 := Step(len, s, es[0]);
      assert s1.idx == if es[0].Click? then es[0].i else s.idx;
      ReducedMotionOnlyClicks(len, s1, es[1..]);
    }
  }

  /** After the cleanup no firing that still arrives moves the index. */
  lemma {:induction false} ClearedTimerFreezes(len: nat, s: State, k: nat)
    requires 0 <= s.idx < len
    ensures Replay(len, ClearInterval(s), Ticks(k)) == ClearInterval(s)
    decreases k
  {
    if k > 0 {
      assert Ticks(k)[1..] == Ticks(k - 1);
      ClearedTimerFreezes(len, s, k - 1);
    }
  }

  /** The four testimonials: three firings show testimonial 3; dot 1 then a firing shows 2. */
  lemma FourTestimonials()
    ensures Replay(TestimonialCount, Mount(false), Ticks(3)).idx == 3
    ensures Replay(TestimonialCount, Mount(false), [Click(1), Fire]).idx == 2
  {
    TicksFromMount(TestimonialCount, 3);
    ClickThenTick(TestimonialCount, Mount(false), 1);
  }

  /**
    With the four testimonials, the index after `elapsedMs` of uninterrupted
    timer is the number of 5200 ms periods passed, modulo 4, and it is back at
    the first testimonial after 20800 ms.
   */
  lemma IndexAfterElapsed(elapsedMs: nat)
    ensures Replay(TestimonialCount, Mount(false), Ticks(FiringsWithin(elapsedMs))).idx
      == (elapsedMs / IntervalMs) % TestimonialCount
    ensures Replay(TestimonialCount, Mount(false), Ticks(FiringsWithin(4 * IntervalMs))).idx == 0
  {
    TicksFromMount(TestimonialCount, FiringsWithin(elapsedMs));
    TicksFromMount(TestimonialCount, FiringsWithin(4 * IntervalMs));
  }

  /** One mounted carousel. */
  class TestimonialCarousel {
    const count: nat
    var idx: int
    var interval: bool

    ghost predicate Valid()
      reads this
    {
      count > 0 && 0 <= idx < count
    }

    function Current(): State
      reads this
    {
      State(idx, interval)
    }

    /** Mount with `count` testimonials under the given motion preference. */
    constructor (count: nat, reduce: bool)
      requires count > 0
      ensures Valid() && this.count == count
      ensures Current() == Mount(reduce)
    {
      this.count := count;
      idx := 0;
      interval := !reduce;
    }

    /** The interval timer fires: `setIdx((v) => (v + 1) % items.length)`. */
    method IntervalFires()
      requires Valid()
      modifies this
      ensures Valid()
      ensures Current() == Step(count, old(Current()), Fire)
    {
      if interval {
        idx := (idx + 1) % count;
      }
    }

    /** A click on dot `i`: `setIdx(i)`. The timer keeps its schedule. */
    method SelectDot(i: int)
      requires Valid() && 0 <= i < count
      modifies this
      ensures Valid()
      ensures Current() == Step(count, old(Current()), Click(i))
    {
      idx := i;
    }

    /** Unmount: the cleanup clears the timer. */
    method Unmount()
      requires Valid()
      modifies this
      ensures Valid()
      ensures Current() == ClearInterval(old(Current()))
    {
      interval := false;
    }
  }
}
