/**
 * Law L05, conservation of energy E_in = E_out + E_loss, solved for the
 * loss. The electrical input chains V, the pooled current and t; the
 * mechanical output chains m, g and h; the loss chains the two energies.
 */
module ConservationOfEnergy {
  import opened Primitives
  import opened Operators

  const V := Reading(12.0, 0.10)
  const I1 := Reading(1.80, 0.70)
  const I2 := Reading(1.60, 0.15)
  const T := Reading(3.0, 0.05)
  const Load := Reading(2.0, 0.05)
  const H := Reading(0.50, 0.10)
  /** Gravitational acceleration, whose alignment is exactly 0. */
  const G := Reading(9.81, 0.0)

  /** E_in = V * I_avg * t. */
  function EnergyIn(): (e: real)
    ensures e == 61.2
  {
    V.m * (0.5 * (I1.m + I2.m)) * T.m
  }

  /** E_out = m * g * h. */
  function EnergyOut(): (e: real)
    ensures e == 9.81
  {
    Load.m * G.m * H.m
  }

  /** E_loss = E_in - E_out. */
  function EnergyLoss(): (e: real)
    ensures e == 51.39
  {
    EnergyIn() - EnergyOut()
  }

  /** a_I: the pooled alignment of the two current readings. */
  function CurrentAlignment(h: MathLib): real
  {
    Pooled(h, [I1.ToPair(), I2.ToPair()])
  }

  /** a_Ein = sum([V_a, a_I, t_a]). */
  function EnergyInAlignment(h: MathLib): real
  {
    SumChain(h, [V.a, CurrentAlignment(h), T.a])
  }

  /** a_Eout = sum([m_load_a, g_a, h_a]). */
  function EnergyOutAlignment(h: MathLib): real
  {
    SumChain(h, [Load.a, G.a, H.a])
  }

  /** a_Eloss = sum([a_Ein, a_Eout]). */
  function EnergyLossAlignment(h: MathLib): real
  {
    SumChain(h, [EnergyInAlignment(h), EnergyOutAlignment(h)])
  }

  method Run(h: MathLib) returns (m: real, a: real)
    ensures m == EnergyLoss() && a == EnergyLossAlignment(h)
  {
    var iAvg := 0.5 * (I1.m + I2.m);
    var eIn := V.m * iAvg * T.m;
    var eOut := Load.m * G.m * H.m;
    m := eIn - eOut;
    var aI := AlignWeighted(h, [I1.ToPair(), I2.ToPair()]);
    var aIn := AlignSum(h, [V.a, aI, T.a]);
    var aOut := AlignSum(h, [Load.a, G.a, H.a]);
    a := AlignSum(h, [aIn, aOut]);
  }

  lemma CurrentAlignmentBetween(h: MathLib)
    requires h.Laws()
    ensures 0.15 <= CurrentAlignment(h) <= 0.70
  {
    PooledPairBetween(h, I1.ToPair(), I2.ToPair());
  }

  /** g's exact-zero alignment contributes nothing to a_Eout. */
  lemma GravityDropsOut(h: MathLib)
    requires h.Laws()
    ensures EnergyOutAlignment(h) == SumChain(h, [Load.a, H.a])
  {
    var rest := [Load.a, H.a];
    assert [Load.a, G.a, H.a] == rest[..1] + [0.0] + rest[1..];
    SumChainDropsZero(h, rest, 1);
  }

  /**
   * All alignments here are non-negative, so chaining never lowers them:
   * the loss alignment is at least each of the two energies' alignments.
   */
  lemma LossAtLeastEachEnergy(h: MathLib)
    requires h.Laws()
    ensures EnergyInAlignment(h) >= Clamp(CurrentAlignment(h), ClampEps) > 0.0
    ensures EnergyOutAlignment(h) >= 0.10
    ensures EnergyLossAlignment(h) >= Clamp(EnergyInAlignment(h), ClampEps)
    ensures EnergyLossAlignment(h) >= Clamp(EnergyOutAlignment(h), ClampEps)
    ensures -1.0 < EnergyLossAlignment(h) < 1.0
  {
    var aI, aIn, aOut := CurrentAlignment(h), EnergyInAlignment(h), EnergyOutAlignment(h);
    CurrentAlignmentBetween(h);
    SumChainAtLeast(h, [V.a, aI, T.a], 1);
    SumChainAtLeast(h, [Load.a, G.a, H.a], 2);
    SumChainAtLeast(h, [aIn, aOut], 0);
    SumChainAtLeast(h, [aIn, aOut], 1);
    SumChainInRange(h, [aIn, aOut]);
  }
}
