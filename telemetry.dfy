/**
  The synthetic telemetry series behind the charts: the heat bars and the
  spark line of the demo console, the hero's line chart and the console's
  signal-correlation area chart. Each sample is `Math.round(lo + r * span)`
  for one draw `r` of `Math.random()`, taken in index order.
 */
module Telemetry {
  import opened JsMath

  /** A heat bar: its label `S<i+1>` and its value `v`. */
  datatype HeatCell = HeatCell(name: string, v: int)

  /**
    A numbered sample: `x` is the sample's index. The spark line calls the
    fields `x`/`y`, the hero line `name`/`v`, the correlation chart `x`/`a`.
   */
  datatype Point = Point(x: int, y: int)

  const HeatLength: nat := 12
  const SparkLength: nat := 18
  const HeroLineLength: nat := 18
  const CorrelationLength: nat := 14

  /** One sample: `Math.round(lo + r * span)`; a draw in `[0, 1)` lands in `[lo, lo + span]`. */
  function Sample(lo: int, span: nat, r: real): (v: int)
    ensures IsDraw(r) ==> lo <= v <= lo + span
  {
    var k := span as real;
    assert IsDraw(r) ==> 0.0 <= r * k <= k by {
      if IsDraw(r) {
        assert k - r * k == (1.0 - r) * k;
      }
    }
    Round(lo as real + r * k)
  }

  /** A series of `n` numbered samples, sample `i` made from draw `i`. */
  function Series(n: nat, lo: int, span: nat, draws: seq<real>): (ps: seq<Point>)
    requires n <= |draws|
    ensures |ps| == n
    ensures forall i :: 0 <= i < n ==> ps[i].x == i
    ensures AreDraws(draws) ==> forall i :: 0 <= i < n ==> lo <= ps[i].y <= lo + span
  {
    assert AreDraws(draws) ==> forall i :: 0 <= i < n ==> IsDraw(draws[i]);
    seq(n, i requires 0 <= i < n => Point(i, Sample(lo, span, draws[i])))
  }

  /** The demo console's heat bars: 12 cells `S1`..`S12` with values in `[30, 100]`. */
  function Heat(draws: seq<real>): (cells: seq<HeatCell>)
    requires HeatLength <= |draws|
    ensures |cells| == HeatLength
    ensures forall i :: 0 <= i < |cells| ==> cells[i].name == "S" + Decimal(i + 1)
    ensures AreDraws(draws) ==> forall i :: 0 <= i < |cells| ==> 30 <= cells[i].v <= 100
  {
    assert AreDraws(draws) ==> forall i :: 0 <= i < HeatLength ==> IsDraw(draws[i]);
    seq(HeatLength, i requires 0 <= i < HeatLength => HeatCell("S" + Decimal(i + 1), Sample(30, 70, draws[i])))
  }

  /** The demo console's spark line: 18 points with `x = i` and `y` in `[40, 90]`. */
  function Spark(draws: seq<real>): (ps: seq<Point>)
    requires SparkLength <= |draws|
    ensures |ps| == SparkLength
    ensures forall i :: 0 <= i < |ps| ==> ps[i].x == i
    ensures AreDraws(draws) ==> forall i :: 0 <= i < |ps| ==> 40 <= ps[i].y <= 90
  {
    Series(SparkLength, 40, 50, draws)
  }

  /** The hero's line chart: 18 points named by index with `v` in `[30, 90]`. */
  function HeroLine(draws: seq<real>): (ps: seq<Point>)
    requires HeroLineLength <= |draws|
    ensures |ps| == HeroLineLength
    ensures forall i :: 0 <= i < |ps| ==> ps[i].x == i
    ensures AreDraws(draws) ==> forall i :: 0 <= i < |ps| ==> 30 <= ps[i].y <= 90
  {
    Series(HeroLineLength, 30, 60, draws)
  }

  /** The signal-correlation chart: 14 points with `x = i` and `a` in `[20, 90]`. */
  function Correlation(draws: seq<real>): (ps: seq<Point>)
    requires CorrelationLength <= |draws|
    ensures |ps| == CorrelationLength
    ensures forall i :: 0 <= i < |ps| ==> ps[i].x == i
    ensures AreDraws(draws) ==> forall i :: 0 <= i < |ps| ==> 20 <= ps[i].y <= 90
  {
    Series(CorrelationLength, 20, 70, draws)
  }

  /** Both ends of a sample's range are reached: the draw 0 gives `lo`, a draw close to 1 gives `lo + span`. */
  lemma SampleRangeIsTight(lo: int, span: nat)
    requires span > 0
    ensures Sample(lo, span, 0.0) == lo
    ensures Sample(lo, span, 1.0 - 1.0 / (2.0 * span as real)) == lo + span
  {
    var k := span as real;
    assert (1.0 - 1.0 / (2.0 * k)) * k == k - 0.5;
  }

  /** Heat labels are distinct: the label determines the bar. */
  lemma HeatLabelsDistinct(draws: seq<real>, i: nat, j: nat)
    requires HeatLength <= |draws| && i < HeatLength && j < HeatLength
    ensures Heat(draws)[i].name == Heat(draws)[j].name ==> i == j
  {
    var cells := Heat(draws);
    if cells[i].name == cells[j].name {
      assert Decimal(i + 1) == cells[i].name[1..];
      assert Decimal(j + 1) == cells[j].name[1..];
      DecimalInjective(i + 1, j + 1);
    }
  }

  /** The first bar is labelled `S1` and the last `S12`. */
  lemma HeatLabelEnds(draws: seq<real>)
    requires HeatLength <= |draws|
    ensures Heat(draws)[0].name == "S1"
    ensures Heat(draws)[HeatLength - 1].name == "S12"
  {
    assert Decimal(12) == Decimal(1) + [Digit(2)];
  }

  lemma {:induction false} DecimalInjective(m: nat, n: nat)
    requires Decimal(m) == Decimal(n)
    ensures m == n
  {
    if m >= 10 && n >= 10 {
      var dm, dn := Decimal(m), Decimal(n);
      assert dm[..|dm| - 1] == Decimal(m / 10);
      assert dn[..|dn| - 1] == Decimal(n / 10);
      DecimalInjective(m / 10, n / 10);
      DigitInjective(m % 10, n % 10);
    } else if m < 10 && n < 10 {
      DigitInjective(m, n);
    }
  }

  lemma DigitInjective(a: nat, b: nat)
    requires a < 10 && b < 10 && Digit(a) == Digit(b)
    ensures a == b
  {
  }
}
