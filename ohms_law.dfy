/**
 * Law L01, Ohm's law V = I * R. Two current readings are pooled into one
 * current alignment, which is chained with the resistance's alignment by
 * the product operator.
 */
module OhmsLaw {
  import opened Primitives
  import opened Operators

  const I1 := Reading(1.92, 0.72)
  const I2 := Reading(1.98, 0.05)
  const R := Reading(6.10, 0.10)

  /** The classical lane: the average current times the resistance. */
  function Voltage(): (v: real)
    ensures v == 11.895
  {
    0.5 * (I1.m + I2.m) * R.m
  }

  /** a_I: the pooled alignment of the two current readings. */
  function CurrentAlignment(h: MathLib): real
  {
    Pooled(h, [I1.ToPair(), I2.ToPair()])
  }

  /** a_V = product(a_I, R_a). */
  function VoltageAlignment(h: MathLib): real
  {
    AlignProduct(h, CurrentAlignment(h), R.a)
  }

  /** The script's top level: the magnitude and alignment of its SSM line. */
  method Run(h: MathLib) returns (m: real, a: real)
    ensures m == Voltage() && a == VoltageAlignment(h)
  {
    var iAvg := 0.5 * (I1.m + I2.m);
    m := iAvg * R.m;
    var aI := AlignWeighted(h, [I1.ToPair(), I2.ToPair()]);
    a := AlignProduct(h, aI, R.a);
  }

  /** The pooled current alignment lies between the two readings' alignments. */
  lemma CurrentAlignmentBetween(h: MathLib)
    requires h.Laws()
    ensures 0.05 <= CurrentAlignment(h) <= 0.72
  {
    PooledPairBetween(h, I1.ToPair(), I2.ToPair());
  }

  /**
   * Drift-positive: a_V is positive and at least as large as each of the
   * alignments it chains.
   */
  lemma VoltageDriftPositive(h: MathLib)
    requires h.Laws()
    ensures VoltageAlignment(h) >= Max(CurrentAlignment(h), R.a)
    ensures 0.0 < VoltageAlignment(h) < 1.0
  {
    CurrentAlignmentBetween(h);
    ProductDominates(h, CurrentAlignment(h), R.a);
    ProductClosedForm(h, CurrentAlignment(h), R.a);
  }
}
