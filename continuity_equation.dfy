/**
 * Law L09, the continuity equation A1 * v1 = A2 * v2, solved for the
 * downstream velocity v2 = (A1 / A2) * v1. The upstream velocity is pooled
 * from two readings; the area ratio's alignment is a quotient, chained with
 * the pooled velocity.
 */
module ContinuityEquation {
  import opened Primitives
  import opened Operators

  const A1 := Reading(0.0100, 0.10)
  const A2 := Reading(0.0060, 0.15)
  const V11 := Reading(1.80, 0.45)
  const V12 := Reading(2.00, 0.20)

  function InletVelocity(): (v: real)
    ensures v == 1.9
  {
    0.5 * (V11.m + V12.m)
  }

  /** The classical lane: v2 = (A1 / A2) * v1_avg. */
  function OutletVelocity(): (v: real)
    ensures v == 19.0 / 6.0
  {
    (A1.m / A2.m) * InletVelocity()
  }

  function InletAlignment(h: MathLib): real
  {
    Pooled(h, [V11.ToPair(), V12.ToPair()])
  }

  /** a_ratio = div(A1_a, A2_a). */
  function RatioAlignment(h: MathLib): real
  {
    AlignDiv(h, A1.a, A2.a)
  }

  /** a_v2 = sum([a_ratio, a_v1]). */
  function OutletAlignment(h: MathLib): real
  {
    SumChain(h, [RatioAlignment(h), InletAlignment(h)])
  }

  method Run(h: MathLib) returns (m: real, a: real)
    ensures m == OutletVelocity() && a == OutletAlignment(h)
  {
    var v1 := 0.5 * (V11.m + V12.m);
    m := (A1.m / A2.m) * v1;
    var aV1 := AlignWeighted(h, [V11.ToPair(), V12.ToPair()]);
    var aRatio := AlignDiv(h, A1.a, A2.a);
    a := AlignSum(h, [aRatio, aV1]);
  }

  lemma InletAlignmentBetween(h: MathLib)
    requires h.Laws()
    ensures 0.20 <= InletAlignment(h) <= 0.45
  {
    PooledPairBetween(h, V11.ToPair(), V12.ToPair());
  }

  /**
   * A1_a = 0.10 is below A2_a = 0.15, so the ratio's alignment is negative:
   * exactly (0.10 - 0.15) / (1 - 0.10 * 0.15) = -10 / 197.
   */
  lemma RatioAlignmentNegative(h: MathLib)
    requires h.Laws()
    ensures RatioAlignment(h) == -10.0 / 197.0
    ensures RatioAlignment(h) < 0.0
  {
    DivClosedForm(h, A1.a, A2.a);
  }

  /**
   * The ratio's small negative alignment does not outweigh the pooled
   * velocity's: v2's alignment is positive, inside (-1, 1).
   */
  lemma OutletAlignmentPositive(h: MathLib)
    requires h.Laws()
    ensures 0.0 < OutletAlignment(h) < 1.0
  {
    var r, v := RatioAlignment(h), InletAlignment(h);
    RatioAlignmentNegative(h);
    InletAlignmentBetween(h);
    SumChainPair(h, r, v);
    ProductClosedForm(h, r, v);
    var cr, cv := Clamp(r, ClampEps), Clamp(v, ClampEps);
    assert cr + cv > 0.0;
    QuotientOfPositives(cr + cv, 1.0 + cr * cv);
  }
}
