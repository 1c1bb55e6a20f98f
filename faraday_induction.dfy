/**
 * Law L10, Faraday's law of induction |eps| = N * |dPhi/dt| with
 * dPhi/dt = (Phi2 - Phi1) / dt. The flux change chains the two flux
 * samples, the rate divides it by the interval, and the EMF chains the
 * rate with the number of turns. Every operator here is a sum or a
 * quotient, so each alignment has an exact rational value.
 */
module FaradayInduction {
  import opened Primitives
  import opened Sums
  import opened Operators

  const N := Reading(200.0, 0.02)
  const Phi1 := Reading(0.012, 0.60)
  const Phi2 := Reading(0.004, 0.25)
  const Dt := Reading(0.040, 0.10)

  /** dPhi/dt = (Phi2 - Phi1) / dt. */
  function FluxRate(phi1: real, phi2: real, dt: real): real
    requires dt != 0.0
  {
    (phi2 - phi1) / dt
  }

  /** |eps| = N * |dPhi/dt|. */
  function EmfMagnitude(turns: real, phi1: real, phi2: real, dt: real): real
    requires dt != 0.0
  {
    turns * Abs(FluxRate(phi1, phi2, dt))
  }

  /** The rate is -0.2 Wb/s for these samples, and the EMF magnitude 40 V. */
  lemma ClassicalValues()
    ensures FluxRate(Phi1.m, Phi2.m, Dt.m) == -0.2
    ensures EmfMagnitude(N.m, Phi1.m, Phi2.m, Dt.m) == 40.0
  {
  }

  /** Thanks to abs, the EMF magnitude is non-negative and ignores the order of the samples. */
  lemma EmfMagnitudeIgnoresFluxOrder(turns: real, phi1: real, phi2: real, dt: real)
    requires dt != 0.0 && turns >= 0.0
    ensures EmfMagnitude(turns, phi1, phi2, dt) >= 0.0
    ensures EmfMagnitude(turns, phi1, phi2, dt) == EmfMagnitude(turns, phi2, phi1, dt)
  {
    assert (phi1 - phi2) / dt == -((phi2 - phi1) / dt);
  }

  /** a_dPhi = sum([Phi1_a, Phi2_a]). */
  function FluxChangeAlignment(h: MathLib): real
  {
    SumChain(h, [Phi1.a, Phi2.a])
  }

  /** a_dPhi_dt = div(a_dPhi, dt_a). */
  function FluxRateAlignment(h: MathLib): real
  {
    AlignDiv(h, FluxChangeAlignment(h), Dt.a)
  }

  /** a_eps = sum([N_a, a_dPhi_dt]). */
  function EmfAlignment(h: MathLib): real
  {
    SumChain(h, [N.a, FluxRateAlignment(h)])
  }

  method Run(h: MathLib) returns (m: real, a: real)
    ensures m == EmfMagnitude(N.m, Phi1.m, Phi2.m, Dt.m) && a == EmfAlignment(h)
  {
    var rate := (Phi2.m - Phi1.m) / Dt.m;
    m := N.m * Abs(rate);
    var aChange := AlignSum(h, [Phi1.a, Phi2.a]);
    var aRate := AlignDiv(h, aChange, Dt.a);
    a := AlignSum(h, [N.a, aRate]);
  }

  /** The three alignments in closed form. */
  lemma ExactAlignments(h: MathLib)
    requires h.Laws()
    ensures FluxChangeAlignment(h) == 17.0 / 23.0
    ensures FluxRateAlignment(h) == 49.0 / 71.0
    ensures EmfAlignment(h) == 2521.0 / 3599.0
  {
    SumChainPair(h, Phi1.a, Phi2.a);
    ProductClosedForm(h, Phi1.a, Phi2.a);
    DivClosedForm(h, 17.0 / 23.0, Dt.a);
    SumChainPair(h, N.a, 49.0 / 71.0);
    ProductClosedForm(h, N.a, 49.0 / 71.0);
  }

  /**
   * No intermediate reaches the clamp band, so the whole graph flattens to
   * one signed sum of rapidities: atanh(a_eps) = atanh(N_a) + atanh(Phi1_a)
   * + atanh(Phi2_a) - atanh(dt_a).
   */
  lemma GraphFlattens(h: MathLib)
    requires h.Laws()
    ensures Rapidity(h, EmfAlignment(h))
      == Rapidity(h, N.a) + Rapidity(h, Phi1.a) + Rapidity(h, Phi2.a) - Rapidity(h, Dt.a)
  {
    ExactAlignments(h);
    RapidityOfSumChain(h, [Phi1.a, Phi2.a]);
    TotalOfPair(RapidityFn(h), Phi1.a, Phi2.a);
    RapidityOfDiv(h, FluxChangeAlignment(h), Dt.a);
    RapidityOfSumChain(h, [N.a, FluxRateAlignment(h)]);
    TotalOfPair(RapidityFn(h), N.a, FluxRateAlignment(h));
  }
}
