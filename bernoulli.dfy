/**
 * Law L07, Bernoulli's principle between two sections of a pipe:
 * P2 = P1 + 0.5 * rho * (v1^2 - v2^2). Each dynamic-pressure term chains
 * rho with its velocity; the downstream pressure pools P1 and both dynamic
 * terms, weighted by their absolute magnitudes.
 */
module Bernoulli {
  import opened Primitives
  import opened Sums
  import opened Operators

  const Rho := Reading(1000.0, 0.02)
  const P1 := Reading(200000.0, 0.10)
  const V1 := Reading(1.5, 0.30)
  const V2 := Reading(3.0, 0.20)

  /** 0.5 * rho * v^2. */
  function DynamicPressure(v: Reading): real
  {
    0.5 * Rho.m * (v.m * v.m)
  }

  lemma DynamicPressures()
    ensures DynamicPressure(V1) == 1125.0 && DynamicPressure(V2) == 4500.0
  {
  }

  /** The classical lane: P2, which is P1 plus dyn1 minus dyn2. */
  function DownstreamPressure(): (p: real)
    ensures p == 196625.0
    ensures p == P1.m + DynamicPressure(V1) - DynamicPressure(V2)
  {
    P1.m + 0.5 * Rho.m * (V1.m * V1.m - V2.m * V2.m)
  }

  /** a_dyn = sum([rho_a, v_a]). */
  function DynamicAlignment(h: MathLib, v: Reading): real
  {
    SumChain(h, [Rho.a, v.a])
  }

  /** The three pool inputs: +P1, +dyn1 and -dyn2, each weighted by its absolute magnitude. */
  function PoolPairs(h: MathLib): seq<Pair>
  {
    [Pair(P1.a, P1.m), Pair(DynamicAlignment(h, V1), DynamicPressure(V1)), Pair(DynamicAlignment(h, V2), DynamicPressure(V2))]
  }

  /** a_P2: the pool of the three terms. */
  function DownstreamAlignment(h: MathLib): real
  {
    Pooled(h, PoolPairs(h))
  }

  method Run(h: MathLib) returns (m: real, a: real)
    ensures m == DownstreamPressure() && a == DownstreamAlignment(h)
  {
    m := P1.m + 0.5 * Rho.m * (V1.m * V1.m - V2.m * V2.m);
    var aDyn1 := AlignSum(h, [Rho.a, V1.a]);
    var aDyn2 := AlignSum(h, [Rho.a, V2.a]);
    var dyn1 := 0.5 * Rho.m * (V1.m * V1.m);
    var dyn2 := 0.5 * Rho.m * (V2.m * V2.m);
    a := AlignWeighted(h, [Pair(P1.a, P1.m), Pair(aDyn1, dyn1), Pair(aDyn2, dyn2)]);
  }

  /** rho_a is non-negative, so each dynamic term's alignment is at least its velocity's. */
  lemma DynamicAlignmentsDominate(h: MathLib)
    requires h.Laws()
    ensures DynamicAlignment(h, V1) >= 0.30 && DynamicAlignment(h, V2) >= 0.20
  {
    SumChainAtLeast(h, [Rho.a, V1.a], 1);
    SumChainAtLeast(h, [Rho.a, V2.a], 1);
  }

  /**
   * The dyn2 term is subtracted in the classical lane, but the pool weighs
   * it by |m|: passing its signed magnitude -dyn2 would change nothing.
   */
  lemma SubtractedTermWeighedPositively(h: MathLib)
    ensures var ps := PoolPairs(h);
      DownstreamAlignment(h) == Pooled(h, [ps[0], ps[1], Pair(ps[2].a, -ps[2].m)])
  {
    var ps := PoolPairs(h);
    PooledIgnoresMagnitudeSign(h, ps, [ps[0], ps[1], Pair(ps[2].a, -ps[2].m)]);
  }

  /**
   * a_P2 lies between the smallest and the largest clamped alignment of the
   * three terms, hence at least P1_a = 0.10.
   */
  lemma DownstreamAlignmentBetween(h: MathLib)
    requires h.Laws()
    ensures var ps := PoolPairs(h);
      var c0, c1, c2 := Clamp(ps[0].a, ClampEps), Clamp(ps[1].a, ClampEps), Clamp(ps[2].a, ClampEps);
      Min(c0, Min(c1, c2)) <= DownstreamAlignment(h) <= Max(c0, Max(c1, c2))
    ensures 0.10 <= DownstreamAlignment(h) < 1.0
  {
    var ps := PoolPairs(h);
    var c0, c1, c2 := Clamp(ps[0].a, ClampEps), Clamp(ps[1].a, ClampEps), Clamp(ps[2].a, ClampEps);
    TotalOfTriple(Weight, ps[0], ps[1], ps[2]);
    assert ps == [ps[0], ps[1], ps[2]];
    PooledBetween(h, ps, Min(c0, Min(c1, c2)), Max(c0, Max(c1, c2)));
    DynamicAlignmentsDominate(h);
    ClampMonotone(0.30, ps[1].a, ClampEps);
    ClampMonotone(0.20, ps[2].a, ClampEps);
  }
}
