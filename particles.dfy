/**
  The particle field (`Particles`): `count` floating dots, each with a
  position in percent of the container, a size, an opacity and a drift period
  in seconds, all drawn from `Math.random()` once per mount.
 */
module Particles {
  import opened JsMath

  /** One dot: `id`, position `x`, `y` (%), size `s`, opacity `o`, period `d` (s). */
  datatype Particle = Particle(id: int, x: real, y: real, s: real, o: real, d: real)

  /** The default of the `count` prop. */
  const DefaultCount: nat := 28

  /** Each particle takes five draws, in the order x, y, s, o, d. */
  const DrawsPerParticle: nat := 5

  /** The ranges a particle's fields fall in when its draws are in `[0, 1)`. */
  predicate InRange(p: Particle) {
    0.0 <= p.x < 100.0 && 0.0 <= p.y < 100.0 &&
    1.0 <= p.s < 3.2 && 0.15 <= p.o < 0.5 && 6.0 <= p.d < 16.0
  }

  /** The number of particles a `count` prop yields: the loop runs zero times when it is not positive. */
  function Length(count: int): (n: nat) {
    if count < 0 then 0 else count
  }

  /** The `i`-th particle, made from draws `5i` to `5i + 4`. */
  function ParticleAt(i: nat, draws: seq<real>): (p: Particle)
    requires DrawsPerParticle * i + DrawsPerParticle <= |draws|
    ensures p.id == i
    ensures AreDraws(draws) ==> InRange(p)
  {
    var k := DrawsPerParticle * i;
    assert AreDraws(draws) ==>
      IsDraw(draws[k]) && IsDraw(draws[k + 1]) && IsDraw(draws[k + 2]) &&
      IsDraw(draws[k + 3]) && IsDraw(draws[k + 4]);
    Particle(i, draws[k] * 100.0, draws[k + 1] * 100.0, 1.0 + draws[k + 2] * 2.2,
             0.15 + draws[k + 3] * 0.35, 6.0 + draws[k + 4] * 10.0)
  }

  /**
    The generator loop: one particle per index, pushed in order, each reading
    the next five draws.
   */
  method Generate(count: int, draws: seq<real>) returns (arr: seq<Particle>)
    requires DrawsPerParticle * Length(count) <= |draws|
    ensures |arr| == Length(count)
    ensures forall i :: 0 <= i < |arr| ==> arr[i] == ParticleAt(i, draws)
    ensures forall i :: 0 <= i < |arr| ==> arr[i].id == i
    ensures AreDraws(draws) ==> forall i :: 0 <= i < |arr| ==> InRange(arr[i])
  {
    arr := [];
    var next := 0;
    var i := 0;
    while i < count
      invariant 0 <= i <= Length(count)
      invariant next == DrawsPerParticle * i
      invariant |arr| == i
      invariant forall j :: 0 <= j < i ==> arr[j] == ParticleAt(j, draws)
    {
      var x := draws[next] * 100.0;
      var y := draws[next + 1] * 100.0;
      var s := 1.0 + draws[next + 2] * 2.2;
      var o := 0.15 + draws[next + 3] * 0.35;
      var d := 6.0 + draws[next + 4] * 10.0;
      next := next + DrawsPerParticle;
      arr := arr + [Particle(i, x, y, s, o, d)];
      i := i + 1;
    }
  }

  /** `<Particles />` with the default `count`: 28 dots from 140 draws, each in range. */
  method DefaultField(draws: seq<real>) returns (arr: seq<Particle>)
    requires DrawsPerParticle * DefaultCount <= |draws|
    ensures |arr| == DefaultCount
    ensures forall i :: 0 <= i < |arr| ==> arr[i] == ParticleAt(i, draws)
    ensures AreDraws(draws) ==> forall i :: 0 <= i < |arr| ==> InRange(arr[i])
  {
    arr := Generate(DefaultCount, draws);
  }
}
