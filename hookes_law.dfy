/**
 * Law L03, Hooke's law F = k * x. Two displacement readings are pooled, and
 * the pooled alignment is chained with the spring constant's alignment by
 * the product operator.
 */
module HookesLaw {
  import opened Primitives
  import opened Operators

  const K := Reading(200.0, 0.08)
  const X1 := Reading(0.045, 0.60)
  const X2 := Reading(0.055, 0.10)

  /** The classical lane: the spring constant times the average displacement. */
  function Force(): (f: real)
    ensures f == 10.0
  {
    K.m * (0.5 * (X1.m + X2.m))
  }

  /** a_x: the pooled alignment of the two displacement readings. */
  function DisplacementAlignment(h: MathLib): real
  {
    Pooled(h, [X1.ToPair(), X2.ToPair()])
  }

  /** a_F = product(k_a, a_x). */
  function ForceAlignment(h: MathLib): real
  {
    AlignProduct(h, K.a, DisplacementAlignment(h))
  }

  method Run(h: MathLib) returns (m: real, a: real)
    ensures m == Force() && a == ForceAlignment(h)
  {
    var xAvg := 0.5 * (X1.m + X2.m);
    m := K.m * xAvg;
    var aX := AlignWeighted(h, [X1.ToPair(), X2.ToPair()]);
    a := AlignProduct(h, K.a, aX);
  }

  /** The pooled displacement alignment lies between 0.10 and 0.60. */
  lemma DisplacementAlignmentBetween(h: MathLib)
    requires h.Laws()
    ensures 0.10 <= DisplacementAlignment(h) <= 0.60
  {
    PooledPairBetween(h, X1.ToPair(), X2.ToPair());
  }

  /** Drift-positive: a_F is positive, at least each input, and inside (-1, 1). */
  lemma ForceDriftPositive(h: MathLib)
    requires h.Laws()
    ensures ForceAlignment(h) >= Max(K.a, DisplacementAlignment(h))
    ensures 0.0 < ForceAlignment(h) < 1.0
  {
    DisplacementAlignmentBetween(h);
    ProductDominates(h, K.a, DisplacementAlignment(h));
    ProductClosedForm(h, K.a, DisplacementAlignment(h));
  }
}
