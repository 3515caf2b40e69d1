# NeonOps animation and synthetic-telemetry engine, in Dafny

NeonOps is a React landing page for an operations product. Almost all of it
is markup. The behaviour lives in a few small routines of `src/neon.jsx`:

- the count-up hook `useCountUp`, which animates a KPI from 0 to its target with a cubic ease-out;
- the particle field generator;
- the random telemetry series behind the charts;
- the orbit layout of the integration tiles;
- the testimonial carousel's index timer;
- the cursor-following glow;
- the `cx` class-name joiner.

This project models those routines and proves what they promise. The clock,
`Math.random()` and the browser's event machinery become inputs:

- a frame callback is a call of `FrameStep` with the frame's timestamp;
- a random draw is the next element of an input sequence of reals in `[0, 1)`;
- a timer firing, a dot click and a mouse move are events.

The modules, one per file:

- `JsMath` (jsmath.dfy): `Math.round` as `(x + 0.5).Floor`, `Math.min`, random draws, decimal rendering of a number.
- `Easing` (easing.dfy): `1 - (1 - p)^3`, its endpoints, its range and its monotonicity.
- `CountUp` (countup.dfy): the hook's state (`value`, run start, frame pending) and its step functions (effect, frame callback, cleanup) with the run-level lemmas. The class `Counter` holds the same state as fields, and its methods are tied to the step functions.
- `Particles` (particles.dfy): the generator loop as a method proved against `ParticleAt`.
- `Telemetry` (telemetry.dfy): the heat, spark, hero line and correlation series.
- `Orbit` (orbit.dfy): the angle fraction and ring radius of each node, with positions for given cosine and sine values.
- `Carousel` (carousel.dfy): the index state machine, with the class `TestimonialCarousel`.
- `CursorGlow` (cursor.dfy): pointer-to-percent mapping and the listener state, with the class `GlowElement`.
- `ClassNames` (classnames.dfy): `cx` as filter and join, and a split that recovers the names.

Where the code differs from its documented design, the model follows the code:

- Progress is clamped at 1 only (`Math.min(1, …)`), not at 0. A frame stamped before the run's start gives negative progress and can give a negative value: 100 ms early, with target 99 and 900 ms, it shows -37 (`CountUp.FrameBeforeStartGoesNegative`), while 1 ms early it still rounds to 0 (`CountUp.FrameJustBeforeStartShowsZero`). Only the lower bound 0 in `CountUp.MountedValuesClimb` therefore assumes frames at or after mount; early frames still never make the values decrease or exceed the target.
- The correlation series (src/neon.jsx:625-628) is built inside the markup. It is drawn again on every render of the console, not once per mount. The model gives it as a function of its draws, like the other series.
- Nothing guards an empty testimonial list. The list is a literal of four items, and `(v + 1) % 0` would be `NaN`. Hence the carousel requires a positive count.
- A click on a dot does not restart the timer. The next firing advances from the clicked index (`Carousel.ClickThenTick`).

## Model

| member | source | states |
|---|---|---|
| JsMath.Round | src/neon.jsx:47 | the result is the nearest integer to `x`, halves rounded up: `x - 0.5 < n <= x + 0.5` |
| JsMath.Min | src/neon.jsx:44 | `Math.min` is at most both arguments and equal to one of them |
| JsMath.Decimal | src/neon.jsx:420 | the template literal's rendering of `i + 1` is a non-empty string of decimal digits |
| JsMath.DecimalRoundTrip | src/neon.jsx:420 | reading the printed digits back gives the number again |
| Easing.EaseOutCubic | src/neon.jsx:46 | eased progress is 0 at progress 0 and 1 at progress 1 |
| Easing.EaseWithinUnit | src/neon.jsx:46 | for `p` in `[0, 1]` the eased progress is in `[0, 1]` |
| Easing.EaseMonotone | src/neon.jsx:46 | the easing never decreases as progress grows, for all reals |
| Easing.EaseAheadOfLinear | src/neon.jsx:45-46 | ease-out: on `[0, 1]` the eased progress is never below the linear progress |
| CountUp.Progress | src/neon.jsx:44 | progress never exceeds 1; it is exactly 1 iff `t - start >= durationMs`; it is non-negative once `t >= start` |
| CountUp.FrameValue | src/neon.jsx:42-47 | the emitted value is exactly `target` at progress 1 and `from` (0) at progress 0 |
| CountUp.FrameValueMonotone | src/neon.jsx:46-47 | for `target >= 0` the emitted value never decreases with progress |
| CountUp.FrameValueWithin | src/neon.jsx:44-47 | for `target >= 0`, progress at most 1 (as `Math.min(1, …)` ensures) shows at most `target`, and non-negative progress shows at least 0 |
| CountUp.RunEffect | src/neon.jsx:33-50 | without `startWhen` nothing changes; under reduced motion the value becomes `target`; otherwise a run starts at `now` with a frame requested and the value kept |
| CountUp.Teardown | src/neon.jsx:51 | the cleanup leaves no frame pending and keeps the value |
| CountUp.FrameStep | src/neon.jsx:43-48 | with no frame pending nothing changes; a fired frame requests the next frame exactly while `t - start < durationMs`; at or past the duration the value is `target` and no frame is requested |
| CountUp.FramesIdle | src/neon.jsx:48 | with no frame pending, any number of display frames changes neither state nor value |
| CountUp.FramesReachTarget | src/neon.jsx:44-48 | once a frame lands `durationMs` after the start, the value is exactly `target`, no frame is pending, and every later value is `target` |
| CountUp.ValuesClimb | src/neon.jsx:43-48 | for frames at non-decreasing stamps, including stamps before the run's start, the values never decrease and stay within `[value, target]` |
| CountUp.MountedValuesClimb | src/neon.jsx:29-50 | after mount, the values shown at non-decreasing frame stamps never decrease and never exceed `target`; when every frame is stamped at or after mount they are also at least 0 |
| CountUp.ReducedMotionSnaps | src/neon.jsx:35-38 | under reduced motion the value becomes `target` in one step and no frame is ever scheduled |
| CountUp.NotStartedStaysZero | src/neon.jsx:34 | with `startWhen` false the value stays at its initial 0 whatever frames pass |
| CountUp.TeardownFreezes | src/neon.jsx:51 | after the cleanup no frame that still arrives changes the value |
| CountUp.FrameBeforeStartGoesNegative | src/neon.jsx:41-47 | a frame stamped 100 ms before the start (target 99, 900 ms) shows -37 |
| CountUp.FrameJustBeforeStartShowsZero | src/neon.jsx:41-47 | a frame stamped 1 ms before the start (target 99, 900 ms) still shows 0, since `99 * eased` is above -0.5 |
| CountUp.DefaultRunReachesTarget | src/neon.jsx:956-958 | a KPI counter with the default 900 ms duration shows its target after any frame 900 ms or more after mount, with or without reduced motion |
| CountUp.Counter.constructor | src/neon.jsx:29-50 | mount: the state is the effect's first run from value 0 |
| CountUp.Counter.Tick | src/neon.jsx:43-48 | the new state is `FrameStep` of the old state at the frame stamp |
| CountUp.Counter.Cancel | src/neon.jsx:51 | the new state is the cleanup of the old one |
| CountUp.Counter.Update | src/neon.jsx:33-52 | a change of one of the dependencies cleans up the old run, then runs the effect with the new options |
| Particles.ParticleAt | src/neon.jsx:225-231 | particle `i` has `id = i`; with draws in `[0, 1)` it has `x, y` in `[0, 100)`, `s` in `[1, 3.2)`, `o` in `[0.15, 0.5)`, `d` in `[6, 16)` |
| Particles.Generate | src/neon.jsx:220-235 | exactly `count` particles (none for a non-positive count), particle `i` with `id = i` made from draws `5i`..`5i+4`, all in range given valid draws |
| Particles.DefaultField | src/neon.jsx:220-235 | `<Particles />` with the default count yields exactly 28 particles, particle `i` made from draws `5i`..`5i+4`, all in range given valid draws |
| Telemetry.Sample | src/neon.jsx:421 | with a draw in `[0, 1)`, `Math.round(lo + r * span)` lies in `[lo, lo + span]` |
| Telemetry.SampleRangeIsTight | src/neon.jsx:421 | both ends of that range are reached by some draw |
| Telemetry.Series | src/neon.jsx:428-431 | `n` points with `x = i`, each value in `[lo, lo + span]` given valid draws |
| Telemetry.Heat | src/neon.jsx:419-422 | 12 cells named `S1`..`S12` with integer `v` in `[30, 100]` |
| Telemetry.HeatLabelEnds | src/neon.jsx:420 | the first bar is labelled `S1` and the last `S12` |
| Telemetry.HeatLabelsDistinct | src/neon.jsx:420 | no two heat cells share a label |
| Telemetry.Spark | src/neon.jsx:428-431 | 18 points with `x = i` and integer `y` in `[40, 90]` |
| Telemetry.HeroLine | src/neon.jsx:962-965 | 18 points named `i` with integer `v` in `[30, 90]` |
| Telemetry.Correlation | src/neon.jsx:625-628 | 14 points with `x = i` and integer `a` in `[20, 90]` |
| Orbit.Radius | src/neon.jsx:367 | the ring radius is 44 exactly for even indices and 36 exactly for odd ones |
| Orbit.Turn | src/neon.jsx:366 | the angle fraction `i / N` lies in `[0, 1)` and equals `i` when scaled by `N` |
| Orbit.Layout | src/neon.jsx:365-369 | one node per item, in order, with the item's name and tint, at turn `i / N` in `[0, 1)` and radius 44 for even `i`, 36 for odd `i`; no nodes for no items |
| Orbit.TurnsIncrease | src/neon.jsx:366 | the angles strictly increase with the index, so no two nodes share a direction |
| Orbit.NeighboursAlternateRings | src/neon.jsx:367 | neighbouring nodes use different rings, one at 44 and one at 36 |
| Orbit.IntegrationsLayout | src/neon.jsx:289-298 | the eight integrations sit every eighth of a turn, alternating between the outer and the inner ring |
| Orbit.Coordinate | src/neon.jsx:368 | with `cos` (or `sin`) in `[-1, 1]` a coordinate `50 + trig * r` lies in `[50 - r, 50 + r]` |
| Orbit.Position | src/neon.jsx:368-369 | with cosine and sine in `[-1, 1]` both coordinates lie in `[50 - r, 50 + r]` |
| Orbit.PositionWithinRing | src/neon.jsx:368-369 | the node lies within its ring's square and inside the container |
| Carousel.Advance | src/neon.jsx:823 | the next index is below the item count, and it is the index plus one, or 0 after the last item |
| Carousel.Mount | src/neon.jsx:819-823 | the index starts at 0, and the timer is installed iff motion is not reduced |
| Carousel.ClearInterval | src/neon.jsx:824 | the cleanup removes the timer and keeps the index |
| Carousel.Step | src/neon.jsx:823 | an event never adds or removes the timer; a click on dot `i` sets the index to `i`; a firing advances the index by one, wrapping, while the timer is installed and changes nothing otherwise |
| Carousel.FiringsWithin | src/neon.jsx:823 | the timer has fired `k` times after `elapsedMs` exactly when `k * 5200 <= elapsedMs < (k + 1) * 5200` |
| Carousel.Replay | src/neon.jsx:819-823 | from an index in range, with valid clicks, the index stays in `[0, len)` and the timer's presence never changes |
| Carousel.TicksWrap | src/neon.jsx:823 | `k` firings from index `v` leave the index at `(v + k) % len` |
| Carousel.TicksFromMount | src/neon.jsx:819-823 | `k` firings after mount leave the index at `k % len` |
| Carousel.ClickThenTick | src/neon.jsx:872 | a click on dot `i` followed by a firing gives `(i + 1) % len` |
| Carousel.ReducedMotionOnlyClicks | src/neon.jsx:822 | with no timer the index is the last dot clicked, or the starting index if none |
| Carousel.ClearedTimerFreezes | src/neon.jsx:824 | after the cleanup no firing moves the index |
| Carousel.FourTestimonials | src/neon.jsx:791-825 | with the four testimonials, three firings show item 3, and dot 1 then a firing shows item 2 |
| Carousel.IndexAfterElapsed | src/neon.jsx:818-825 | with four testimonials and no clicks, after `elapsedMs` the index is the number of 5200 ms periods passed modulo 4, back at 0 after 20800 ms |
| Carousel.TestimonialCarousel.constructor | src/neon.jsx:818-825 | mount: index 0, timer installed iff motion is not reduced |
| Carousel.TestimonialCarousel.IntervalFires | src/neon.jsx:823 | the new state is one `Fire` step of the old, and the index stays in range |
| Carousel.TestimonialCarousel.SelectDot | src/neon.jsx:872 | the new state is one `Click(i)` step of the old |
| Carousel.TestimonialCarousel.Unmount | src/neon.jsx:824 | the timer is cleared and the index kept |
| CursorGlow.Percent | src/neon.jsx:1226-1227 | the percentage is in `[0, 100]` iff the pointer is inside the box on that axis, and it maps back to the client coordinate |
| CursorGlow.Mount | src/neon.jsx:1219-1222 | the listener is installed iff motion is not reduced and the element exists; no property is set yet |
| CursorGlow.OnMove | src/neon.jsx:1224-1230 | without a listener a move changes nothing; with one it keeps listening |
| CursorGlow.RemoveListener | src/neon.jsx:1232 | the cleanup removes the listener and keeps the properties |
| CursorGlow.Moves | src/neon.jsx:1231 | a sequence of moves never installs or removes the listener |
| CursorGlow.MoveInsideBox | src/neon.jsx:1226-1227 | after a move the glow's centre is in `[0, 100]` on both axes iff the pointer is inside the box |
| CursorGlow.CenterFollowsLastMove | src/neon.jsx:1224-1230 | the glow's centre is the last move's percentages |
| CursorGlow.NotListeningIgnoresMoves | src/neon.jsx:1220-1222 | without a listener no move changes anything |
| CursorGlow.ReducedMotionStaysDefault | src/neon.jsx:1220 | under reduced motion the glow stays at its fallback 50% / 30% whatever the pointer does |
| CursorGlow.RemovedListenerFreezes | src/neon.jsx:1232 | after unmount moves no longer move the glow |
| CursorGlow.Center | src/neon.jsx:1242-1243 | the gradient's centre is a written `--x`/`--y` value, or the fallback 50% / 30% while a property is unset |
| CursorGlow.GlowElement.constructor | src/neon.jsx:1219-1222 | mount: the state is `Mount(reduce, attached)` |
| CursorGlow.GlowElement.MouseMove | src/neon.jsx:1224-1230 | the new state is `OnMove` of the old state |
| CursorGlow.GlowElement.Unmount | src/neon.jsx:1232 | the new state is `RemoveListener` of the old state |
| ClassNames.Kept | src/neon.jsx:26 | the filter keeps the string of every truthy argument and only truthy arguments' strings, never more than the arguments, and nothing exactly when no argument is truthy |
| ClassNames.KeptSnoc | src/neon.jsx:26 | the filter keeps argument order: a truthy argument added last is kept last, a falsy one is dropped |
| ClassNames.Join | src/neon.jsx:26 | the join starts with the first part, and of non-empty parts it is empty only when there are none |
| ClassNames.Cx | src/neon.jsx:25-27 | `cx` returns the empty string exactly when no argument is truthy |
| ClassNames.CxListsTruthyArgs | src/neon.jsx:25-27 | splitting `cx`'s output at spaces gives exactly the truthy arguments in argument order, when no argument contains a space |
| ClassNames.CxAppend | src/neon.jsx:25-27 | `cx` of two argument lists is their two outputs joined by one space, with an empty side dropped |
| ClassNames.SplitJoin | src/neon.jsx:26 | the join of non-empty, space-free names splits back into those names |

## Left out

- JSX markup, CSS, keyframes and Tailwind classes: presentation with no behaviour.
- recharts and framer-motion: foreign libraries. The reduced-motion signal from `useReducedMotion` becomes a parameter, and the scroll parallax is not modelled.
- `requestAnimationFrame`, `setInterval`, `addEventListener` and `performance.now`: replaced by explicit calls with a clock reading or timestamp. Frame timing is not simulated, and timer firings are events; the 5200 ms period enters only through `Carousel.FiringsWithin`, which counts the firings in an elapsed time.
- `Math.random`: its draws are an input sequence. `Particles.Generate` and the series require enough draws to be supplied.
- `Math.cos` and `Math.sin` in the orbit positions: trigonometry is not available. `Orbit.Position` takes the cosine and sine as parameters, and the bounds assume they lie in `[-1, 1]`.
- IEEE-754 arithmetic: the model uses exact reals. A zero or negative `durationMs` is excluded by `CountUp.ValidOptions`; every call site passes 900 (src/neon.jsx:956-958). With a zero duration the source's first frame depends on its stamp: after the start, progress is `Math.min(1, Infinity) = 1`, so it shows `target` and requests no further frame; exactly at the start, progress is `NaN`, so it shows `NaN` and stops; before the start, progress is `-Infinity`, so for a positive target (every call site) it shows `-Infinity` and requests another frame. A negative duration never ends: progress stays below 1, so frames are requested forever, and for a positive target the value shown falls ever lower. A zero-size box in the cursor glow is excluded by `CursorGlow.NonEmpty`.
- Formatting of the `--x`/`--y` values as `"<n>%"` strings: the model keeps the number.
- `getBoundingClientRect` and `style.setProperty`: the box arrives with each move, and the properties are fields.
- `EnergyToggle` and the console's tab selection: plain assignments of UI state.
- Memoisation (`useMemo`) and React re-rendering: a generator is a function of its draws, so a remount is a call with fresh draws.
- CountUp.MountedValuesClimb: the lower bound 0 is stated only when every frame is stamped at or after mount, because the source does not clamp progress below 0 (`CountUp.FrameBeforeStartGoesNegative`); monotonicity and the upper bound hold for all frames.
- ClassNames.CxListsTruthyArgs: stated only for arguments without spaces. The source passes multi-class strings such as `"absolute rounded-full"`, and those split into several names.
