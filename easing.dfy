/**
  The cubic ease-out curve the count-up animator applies to its linear
  progress: `1 - (1 - p)^3`.
 */
module Easing {

  function Cube(x: real): (c: real) {
    x * x * x
  }

  /** Eased progress for linear progress `p`; it starts at 0 and lands on 1. */
  function EaseOutCubic(p: real): (e: real)
    ensures p == 0.0 ==> e == 0.0
    ensures p == 1.0 ==> e == 1.0
  {
    1.0 - Cube(1.0 - p)
  }

  /** Cubing preserves order on all reals. */
  lemma CubeMonotone(x: real, y: real)
    requires x <= y
    ensures Cube(x) <= Cube(y)
  {
    var d := y - x;
    var q := (y + x / 2.0) * (y + x / 2.0) + 3.0 * x * x / 4.0;
    assert y * y + x * y + x * x == q;
    SquareNonNegative(y + x / 2.0);
    SquareNonNegative(x);
    assert Cube(y) - Cube(x) == d * (y * y + x * y + x * x);
    assert d * q >= 0.0;
  }

  lemma SquareNonNegative(z: real)
    ensures z * z >= 0.0
  {
    if z < 0.0 {
      assert z * z == (-z) * (-z);
    }
  }

  /** On the unit interval the eased progress stays in the unit interval. */
  lemma EaseWithinUnit(p: real)
    requires 0.0 <= p <= 1.0
    ensures 0.0 <= EaseOutCubic(p) <= 1.0
  {
    var q := 1.0 - p;
    assert EaseOutCubic(p) == 1.0 - q * q * q;
    assert 0.0 <= q * q <= 1.0 by {
      assert q * q <= q * 1.0;
    }
    assert 0.0 <= q * q * q <= q * q by {
      assert q * q * q <= q * q * 1.0;
    }
  }

  /** The eased progress never decreases as the linear progress grows. */
  lemma EaseMonotone(p: real, q: real)
    requires p <= q
    ensures EaseOutCubic(p) <= EaseOutCubic(q)
  {
    CubeMonotone(1.0 - q, 1.0 - p);
  }

  /** Ease-out: the curve is never behind linear progress on the unit interval. */
  lemma EaseAheadOfLinear(p: real)
    requires 0.0 <= p <= 1.0
    ensures p <= EaseOutCubic(p)
  {
    var q := 1.0 - p;
    var sq := q * q;
    assert sq <= q by {
      assert q * q <= q * 1.0;
    }
    var cu := sq * q;
    assert cu <= sq by {
      assert sq * q <= sq * 1.0;
    }
    assert EaseOutCubic(p) == 1.0 - cu;
  }
}
