/**
 * Law L04, the ideal gas law P = n * R * T / V. Two temperature readings
 * are pooled; the pooled alignment is sum-chained with those of n and R,
 * and the result is divided by the volume's alignment.
 */
module IdealGasLaw {
  import opened Primitives
  import opened Operators

  const N := Reading(1.00, 0.02)
  /** The gas constant, whose alignment is exactly 0. */
  const R := Reading(8.314, 0.00)
  const V := Reading(0.0100, 0.10)
  const T1 := Reading(295.0, 0.55)
  const T2 := Reading(305.0, 0.12)

  /** The classical lane: n * R * T_avg / V with T_avg = 300. */
  function Pressure(): (p: real)
    ensures p == 249420.0
  {
    (N.m * R.m * (0.5 * (T1.m + T2.m))) / V.m
  }

  /** a_T: the pooled alignment of the two temperature readings. */
  function TemperatureAlignment(h: MathLib): real
  {
    Pooled(h, [T1.ToPair(), T2.ToPair()])
  }

  /** a_nRT = sum([n_a, R_a, a_T]). */
  function NrtAlignment(h: MathLib): real
  {
    SumChain(h, [N.a, R.a, TemperatureAlignment(h)])
  }

  /** a_P = div(a_nRT, V_a). */
  function PressureAlignment(h: MathLib): real
  {
    AlignDiv(h, NrtAlignment(h), V.a)
  }

  method Run(h: MathLib) returns (m: real, a: real)
    ensures m == Pressure() && a == PressureAlignment(h)
  {
    var tAvg := 0.5 * (T1.m + T2.m);
    m := (N.m * R.m * tAvg) / V.m;
    var aT := AlignWeighted(h, [T1.ToPair(), T2.ToPair()]);
    var aNrt := AlignSum(h, [N.a, R.a, aT]);
    a := AlignDiv(h, aNrt, V.a);
  }

  lemma TemperatureAlignmentBetween(h: MathLib)
    requires h.Laws()
    ensures 0.12 <= TemperatureAlignment(h) <= 0.55
  {
    PooledPairBetween(h, T1.ToPair(), T2.ToPair());
  }

  /** The gas constant's exact-zero alignment contributes nothing to a_nRT. */
  lemma GasConstantDropsOut(h: MathLib)
    requires h.Laws()
    ensures NrtAlignment(h) == SumChain(h, [N.a, TemperatureAlignment(h)])
  {
    var rest := [N.a, TemperatureAlignment(h)];
    assert [N.a, R.a, TemperatureAlignment(h)] == rest[..1] + [0.0] + rest[1..];
    SumChainDropsZero(h, rest, 1);
  }

  /**
   * Drift-positive: a_nRT is at least the pooled temperature alignment, so
   * at least 0.12, which exceeds V_a = 0.10; the quotient's alignment is
   * therefore positive.
   */
  lemma PressureDriftPositive(h: MathLib)
    requires h.Laws()
    ensures NrtAlignment(h) >= 0.12
    ensures 0.0 < PressureAlignment(h) < 1.0
  {
    var aT := TemperatureAlignment(h);
    TemperatureAlignmentBetween(h);
    SumChainAtLeast(h, [N.a, R.a, aT], 2);
    ClampMonotone(0.12, aT, ClampEps);
    ClampMonotone(0.12, NrtAlignment(h), ClampEps);
    DivSign(h, NrtAlignment(h), V.a);
    DivClosedForm(h, NrtAlignment(h), V.a);
  }
}
