/**
 * Law L02, Newton's second law F = m * a. Two acceleration readings are
 * pooled, and the pooled alignment is chained with the mass's alignment by
 * the product operator.
 */
module NewtonsSecondLaw {
  import opened Primitives
  import opened Operators

  const Mass := Reading(20.0, 0.05)
  const A1 := Reading(0.90, 0.65)
  const A2 := Reading(1.10, 0.10)

  /** The classical lane: the mass times the average acceleration. */
  function Force(): (f: real)
    ensures f == 20.0
  {
    Mass.m * (0.5 * (A1.m + A2.m))
  }

  /** a_accel: the pooled alignment of the two acceleration readings. */
  function AccelerationAlignment(h: MathLib): real
  {
    Pooled(h, [A1.ToPair(), A2.ToPair()])
  }

  /** a_F = product(m_a, a_accel). */
  function ForceAlignment(h: MathLib): real
  {
    AlignProduct(h, Mass.a, AccelerationAlignment(h))
  }

  method Run(h: MathLib) returns (m: real, a: real)
    ensures m == Force() && a == ForceAlignment(h)
  {
    var aAvg := 0.5 * (A1.m + A2.m);
    m := Mass.m * aAvg;
    var aAccel := AlignWeighted(h, [A1.ToPair(), A2.ToPair()]);
    a := AlignProduct(h, Mass.a, aAccel);
  }

  lemma AccelerationAlignmentBetween(h: MathLib)
    requires h.Laws()
    ensures 0.10 <= AccelerationAlignment(h) <= 0.65
  {
    PooledPairBetween(h, A1.ToPair(), A2.ToPair());
  }

  /** Drift-positive: every input alignment is positive, and so is a_F. */
  lemma ForceDriftPositive(h: MathLib)
    requires h.Laws()
    ensures ForceAlignment(h) >= Max(Mass.a, AccelerationAlignment(h))
    ensures 0.0 < ForceAlignment(h) < 1.0
  {
    AccelerationAlignmentBetween(h);
    ProductDominates(h, Mass.a, AccelerationAlignment(h));
    ProductClosedForm(h, Mass.a, AccelerationAlignment(h));
  }
}
