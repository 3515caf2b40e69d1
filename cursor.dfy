/**
  The cursor glow (`CursorGlow`): on every mouse move it maps the pointer to
  percentages of the glow element's box, `(clientX - left) / width * 100` and
  `(clientY - top) / height * 100`, and writes them to the element's `--x` and
  `--y` style properties. The gradient falls back to 50% / 30% while they are
  unset. Under reduced motion, or without a mounted element, no listener is
  installed.

  The element's bounding box, read on each move, arrives with the move event.
 */
module CursorGlow {

  datatype Option<T> = None | Some(value: T)

  /** The element's bounding box in client coordinates. */
  datatype Box = Box(left: real, top: real, width: real, height: real)

  /** A mouse move at client coordinates, with the box read when it was handled. */
  datatype Move = Move(clientX: real, clientY: real, box: Box)

  /** Whether the move listener is installed, and the `--x`/`--y` properties once written. */
  datatype Glow = Glow(listening: bool, x: Option<real>, y: Option<real>)

  /** The gradient's fallbacks `var(--x, 50%)` and `var(--y, 30%)`. */
  const DefaultX: real := 50.0
  const DefaultY: real := 30.0

  predicate NonEmpty(b: Box) {
    b.width > 0.0 && b.height > 0.0
  }

  /** The pointer's offset along one axis as a percentage of the box's extent. */
  function Percent(client: real, origin: real, extent: real): (pct: real)
    requires extent > 0.0
    ensures 0.0 <= pct <= 100.0 <==> origin <= client <= origin + extent
    ensures origin + pct / 100.0 * extent == client
  {
    var f := (client - origin) / extent;
    assert f * extent == client - origin;
    assert 0.0 <= f <= 1.0 <==> origin <= client <= origin + extent by {
      if f < 0.0 {
        assert f * extent < 0.0;
      }
      if f > 1.0 {
        assert (f - 1.0) * extent > 0.0;
      }
    }
    f * 100.0
  }

  /** Mount: the effect installs the listener only with motion allowed and the element present. */
  function Mount(reduce: bool, attached: bool): (g: Glow)
    ensures g.x == None && g.y == None
    ensures g.listening <==> !reduce && attached
  {
    Glow(!reduce && attached, None, None)
  }

  /** The listener's handler, if it is installed. */
  function OnMove(g: Glow, m: Move): (r: Glow)
    requires NonEmpty(m.box)
    ensures r.listening == g.listening
    ensures !g.listening ==> r == g
  {
    if !g.listening then g
    else
      var b := m.box;
      Glow(true, Some(Percent(m.clientX, b.left, b.width)), Some(Percent(m.clientY, b.top, b.height)))
  }

  /** Unmount: the cleanup removes the listener. */
  function RemoveListener(g: Glow): (r: Glow)
    ensures !r.listening && r.x == g.x && r.y == g.y
  {
    g.(listening := false)
  }

  predicate ValidMoves(ms: seq<Move>) {
    forall k :: 0 <= k < |ms| ==> NonEmpty(ms[k].box)
  }

  function Moves(g: Glow, ms: seq<Move>): (r: Glow)
    requires ValidMoves(ms)
    ensures r.listening == g.listening
    decreases |ms|
  {
    if ms == [] then g
    else
      assert ValidMoves(ms[1..]) by {
        forall k | 0 <= k < |ms| - 1
          ensures NonEmpty(ms[1..][k].box)
        {
          assert ms[1..][k] == ms[k + 1];
        }
      }
      Moves(OnMove(g, ms[0]), ms[1..])
  }

  /** The glow's centre as the gradient sees it: a written property, else its fallback. */
  function Center(g: Glow): (c: (real, real))
    ensures g.x == None ==> c.0 == DefaultX
    ensures g.y == None ==> c.1 == DefaultY
    ensures g.x.Some? ==> c.0 == g.x.value
    ensures g.y.Some? ==> c.1 == g.y.value
  {
    (if g.x.Some? then g.x.value else DefaultX, if g.y.Some? then g.y.value else DefaultY)
  }

  /** A pointer inside the box puts the glow's centre within `[0, 100]` on both axes, and only then. */
  lemma MoveInsideBox(g: Glow, m: Move)
    requires g.listening && NonEmpty(m.box)
    ensures var c := Center(OnMove(g, m));
      (0.0 <= c.0 <= 100.0 && 0.0 <= c.1 <= 100.0) <==>
      (m.box.left <= m.clientX <= m.box.left + m.box.width &&
       m.box.top <= m.clientY <= m.box.top + m.box.height)
  {
    var b := m.box;
    var px := Percent(m.clientX, b.left, b.width);
    var py := Percent(m.clientY, b.top, b.height);
    assert Center(OnMove(g, m)) == (px, py);
  }

  /** The centre follows the latest move: after moves, it is the last one's percentages. */
  lemma {:induction false} CenterFollowsLastMove(g: Glow, ms: seq<Move>)
    requires g.listening && ValidMoves(ms) && ms != []
    ensures var m := ms[|ms| - 1];
      Center(Moves(g, ms)) ==
        (Percent(m.clientX, m.box.left, m.box.width), Percent(m.clientY, m.box.top, m.box.height))
    decreases |ms|
  {
    var g1 := OnMove(g, ms[0]);
    if |ms| > 1 {
      CenterFollowsLastMove(g1, ms[1..]);
      assert ms[1..][|ms[1..]| - 1] == ms[|ms| - 1];
    }
  }

  /** Without a listener, moves change nothing. */
  lemma {:induction false} NotListeningIgnoresMoves(g: Glow, ms: seq<Move>)
    requires !g.listening && ValidMoves(ms)
    ensures Moves(g, ms) == g
    decreases |ms|
  {
    if ms != [] {
      NotListeningIgnoresMoves(g, ms[1..]);
    }
  }

  /** Under reduced motion the glow stays at its fallback centre whatever the pointer does. */
  lemma {:induction false} ReducedMotionStaysDefault(attached: bool, ms: seq<Move>)
    requires ValidMoves(ms)
    ensures Center(Moves(Mount(true, attached), ms)) == (DefaultX, DefaultY)
  {
    NotListeningIgnoresMoves(Mount(true, attached), ms);
  }

  /** After unmount, moves no longer reach the element. */
  lemma {:induction false} RemovedListenerFreezes(g: Glow, ms: seq<Move>)
    requires ValidMoves(ms)
    ensures Center(Moves(RemoveListener(g), ms)) == Center(g)
  {
    NotListeningIgnoresMoves(RemoveListener(g), ms);
  }

  /** The glow element with its listener and its two style properties. */
  class GlowElement {
    var listening: bool
    var x: Option<real>
    var y: Option<real>

    function Current(): Glow
      reads this
    {
      Glow(listening, x, y)
    }

    constructor (reduce: bool, attached: bool)
      ensures Current() == Mount(reduce, attached)
    {
      x, y := None, None;
      listening := !reduce && attached;
    }

    /** A `mousemove` on the window, while the listener is installed. */
    method MouseMove(m: Move)
      requires NonEmpty(m.box)
      modifies this
      ensures Current() == OnMove(old(Current()), m)
    {
      if listening {
        var r := m.box;
        var px := (m.clientX - r.left) / r.width * 100.0;
        var py := (m.clientY - r.top) / r.height * 100.0;
        x, y := Some(px), Some(py);
      }
    }

    method Unmount()
      modifies this
      ensures Current() == RemoveListener(old(Current()))
    {
      listening := false;
    }
  }
}
