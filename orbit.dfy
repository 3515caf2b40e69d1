/**
  The orbit layout of the integrations section (`OrbitIntegrations`): node
  `i` of `N` sits at the fraction `i / N` of a full turn around the centre
  (50%, 50%), on the outer ring (radius 44%) when `i` is even and on the inner
  ring (36%) when it is odd.

  The angle in radians is `turn * 2 * pi`; the cosine and sine of it are not
  computed here. `Position` takes them as parameters.
 */
module Orbit {

  /** A tile on the orbit: its label and its tint colour. */
  datatype Integration = Integration(name: string, tint: string)

  /** A placed node: `turn` is the fraction of a full turn, `radius` is in percent. */
  datatype Node = Node(name: string, tint: string, turn: real, radius: int)

  const Cyan: string := "#00F5FF"
  const Purple: string := "#7A2CFF"
  const Magenta: string := "#FF2EEA"
  const HoloBlue: string := "#3AA0FF"

  /** The eight integrations the section shows, in order. */
  const Integrations: seq<Integration> := [
    Integration("Slack", Cyan), Integration("GitHub", Purple),
    Integration("Jira", Magenta), Integration("AWS", HoloBlue),
    Integration("GCP", Cyan), Integration("Okta", Purple),
    Integration("Datadog", Magenta), Integration("Splunk", HoloBlue)
  ]

  const OuterRadius: int := 44
  const InnerRadius: int := 36

  /** The ring radius of node `i`: even nodes on the outer ring, odd ones on the inner. */
  function Radius(i: nat): (r: int)
    ensures r == OuterRadius <==> i % 2 == 0
    ensures r == InnerRadius <==> i % 2 == 1
  {
    if i % 2 == 0 then OuterRadius else InnerRadius
  }

  /** The angle of node `i` of `n` as a fraction of a full turn: `i / n`. */
  function Turn(i: nat, n: nat): (f: real)
    requires i < n
    ensures 0.0 <= f < 1.0
    ensures f * n as real == i as real
  {
    i as real / n as real
  }

  /** The `items.map` over the integrations: node `i` at turn `i / N` on ring `Radius(i)`. */
  function Layout(items: seq<Integration>): (nodes: seq<Node>)
    ensures |nodes| == |items|
    ensures forall i :: 0 <= i < |nodes| ==>
      nodes[i].name == items[i].name && nodes[i].tint == items[i].tint
    ensures forall i :: 0 <= i < |nodes| ==> 0.0 <= nodes[i].turn < 1.0
    ensures forall i :: 0 <= i < |nodes| ==>
      nodes[i].radius == (if i % 2 == 0 then 44 else 36)
    ensures forall i :: 0 <= i < |nodes| ==> nodes[i].turn == Turn(i, |items|)
  {
    var n := |items|;
    seq(n, i requires 0 <= i < n => Node(items[i].name, items[i].tint, Turn(i, n), Radius(i)))
  }

  /** The angles strictly increase with the index, so no two nodes share a direction. */
  lemma TurnsIncrease(items: seq<Integration>, i: nat, j: nat)
    requires i < j < |items|
    ensures Layout(items)[i].turn < Layout(items)[j].turn
  {
    var n := |items| as real;
    assert Turn(j, |items|) - Turn(i, |items|) == (j - i) as real / n;
  }

  /** Neighbouring nodes sit on different rings. */
  lemma NeighboursAlternateRings(items: seq<Integration>, i: nat)
    requires i + 1 < |items|
    ensures Layout(items)[i].radius != Layout(items)[i + 1].radius
    ensures {Layout(items)[i].radius, Layout(items)[i + 1].radius} == {OuterRadius, InnerRadius}
  {
  }

  /** The section's eight nodes: a node every eighth of a turn, alternating outer and inner ring. */
  lemma IntegrationsLayout()
    ensures |Layout(Integrations)| == 8
    ensures forall i :: 0 <= i < 8 ==> Layout(Integrations)[i].turn == i as real / 8.0
    ensures forall i :: 0 <= i < 8 ==> Layout(Integrations)[i].radius == Radius(i)
  {
    var nodes := Layout(Integrations);
    forall i | 0 <= i < 8
      ensures nodes[i].turn == i as real / 8.0
    {
      assert nodes[i].turn == Turn(i, 8);
    }
  }

  /** A point in percent of the container. */
  datatype Spot = Spot(x: real, y: real)

  /**
    One coordinate of a node: `50 + trig * r`, `trig` the cosine or sine of
    its angle. With `trig` in `[-1, 1]` it stays within `[50 - r, 50 + r]`.
   */
  function Coordinate(radius: int, trig: real): (c: real)
    ensures 0 <= radius && -1.0 <= trig <= 1.0 ==> 50.0 - radius as real <= c <= 50.0 + radius as real
  {
    var r := radius as real;
    assert (50.0 + r) - (50.0 + trig * r) == (1.0 - trig) * r;
    assert (50.0 + trig * r) - (50.0 - r) == (trig + 1.0) * r;
    if 0 <= radius && -1.0 <= trig <= 1.0 then
      ProductNonNegative(1.0 - trig, r);
      ProductNonNegative(trig + 1.0, r);
      50.0 + trig * r
    else
      50.0 + trig * r
  }

  lemma ProductNonNegative(a: real, b: real)
    requires 0.0 <= a && 0.0 <= b
    ensures 0.0 <= a * b
  {
  }

  /**
    Centre-relative position `50 + cos(angle) * r`, `50 + sin(angle) * r`,
    given the cosine and sine of the node's angle.
   */
  function Position(radius: int, cosine: real, sine: real): (p: Spot)
    ensures 0 <= radius && -1.0 <= cosine <= 1.0 ==> 50.0 - radius as real <= p.x <= 50.0 + radius as real
    ensures 0 <= radius && -1.0 <= sine <= 1.0 ==> 50.0 - radius as real <= p.y <= 50.0 + radius as real
  {
    Spot(Coordinate(radius, cosine), Coordinate(radius, sine))
  }

  /**
    With cosine and sine in `[-1, 1]` a node stays within its ring's square
    `[50 - r, 50 + r]`, so inside the container on either ring.
   */
  lemma PositionWithinRing(radius: int, cosine: real, sine: real)
    requires 0 <= radius <= 50
    requires -1.0 <= cosine <= 1.0 && -1.0 <= sine <= 1.0
    ensures 50.0 - radius as real <= Position(radius, cosine, sine).x <= 50.0 + radius as real
    ensures 50.0 - radius as real <= Position(radius, cosine, sine).y <= 50.0 + radius as real
    ensures 0.0 <= Position(radius, cosine, sine).x <= 100.0
    ensures 0.0 <= Position(radius, cosine, sine).y <= 100.0
  {
  }
}
