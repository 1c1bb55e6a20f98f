# Bounded classical laws: the alignment algebra and the runner protocol

This project models, in Dafny, the core of a set of "bounded classical law"
scenarios. Each scenario computes a classical magnitude `m` for one law, such
as Ohm's law or Bernoulli's equation. It also computes an *alignment* `a` in
(-1, 1) that tracks how much drift the inputs carry. Each scenario then prints
one summary line, `SSM: m=<magnitude>, a=<alignment>`. A runner executes the
scenarios, takes the first such line of each script's output, parses it, and
puts the alignment into a calm, borderline or stressed band.

The model has four parts:

- `primitives.dfy` (module `Primitives`) holds `clamp` and the rapidity
  algebra.
  - The scripts call Python's `math.log` and `math.tanh`. Here they are a
    parameter `MathLib(log, tanh)`, together with `Laws()`, the laws the
    proofs rely on:
    - log turns products into sums and is strictly increasing;
    - tanh(½·log r) = (r − 1)/(r + 1) for r > 0;
    - tanh is strictly increasing;
    - every real is ½·log r for some r > 0 (log takes every real value).
  - atanh is written the way the scripts write it: `0.5 * log((1 + a)/(1 - a))`.
- `sums.dfy` (module `Sums`) holds the left-to-right accumulation that both
  loops perform, with its algebra. The algebra covers concatenation,
  permutation invariance and bounds.
- `operators.dfy` (module `Operators`) holds the four composition operators
  every scenario script carries:
  - `ssm_align_weighted` (`Pooled`, with the loop `AlignWeighted`);
  - `ssm_align_sum` (`SumChain`, with the loop `AlignSum`);
  - `ssm_align_product` (`AlignProduct`);
  - `ssm_align_div` (`AlignDiv`).

  The file proves their closed forms, bounds, identities, symmetries,
  permutation invariance and monotonicity.
- The ten scenarios, one module per script: `ohms_law.dfy`, `newton_fma.dfy`,
  `hookes_law.dfy`, `ideal_gas_law.dfy`, `conservation_of_energy.dfy`,
  `conservation_of_momentum.dfy`, `bernoulli.dfy`, `snells_law.dfy`,
  `continuity_equation.dfy` and `faraday_induction.dfy`. Each one holds:
  - the script's literal readings;
  - its classical magnitude, in exact real arithmetic;
  - its composition graph of operators;
  - a `Run` method that follows the script's top level;
  - lemmas for the claims the script's comments make (exact classical
    values, "drift-positive" alignments, pool bounds).
- `text.dfy` (module `Text`) and `runner.dfy` (module `Runner`) model the
  runner's text protocol from `scripts/run_all_laws.py`:
  - `classify_band`;
  - `parse_ssm_line`: the prefix, the comma split, the strip, the first `m=`
    and `a=` parts, and `float`, where every failure becomes `(None, None)`;
  - the first-`SSM:`-line scan and summary of `run_script`;
  - the scenario selection in `main`.

  `Text` supplies the string operations: `str.strip`, `str.split`,
  `str.splitlines` on `'\n'`, and a plain signed-decimal `float()`.

## Model

| member | source | states |
|---|---|---|
| Primitives.Clamp | scripts/scenario_L01_ohms_law.py:7-8 | For 0 < e < 1 the result lies in [-1+e, 1-e]. An input already in that band is returned unchanged. An input above or below the band saturates to the nearest bound. |
| Primitives.ClampIdempotent | scripts/scenario_L01_ohms_law.py:7-8 | Clamping twice is the same as clamping once. |
| Primitives.ClampMonotone | scripts/scenario_L03_hookes_law.py:8-9 | a ≤ b implies clamp(a, e) ≤ clamp(b, e). |
| Primitives.ClampOdd | scripts/scenario_L08_snells_law.py:6-7 | clamp(−a, e) = −clamp(a, e): the band is symmetric. |
| Primitives.Odds | scripts/scenario_L01_ohms_law.py:20-21 | The argument (1+a)/(1−a) of the log is positive for a in (-1,1); it is below, at or above 1 exactly as a is below, at or above 0. |
| Primitives.FromOdds | scripts/scenario_L01_ohms_law.py:25 | (r−1)/(r+1), which is what tanh(½·log r) yields, lies in (-1,1) and has the sign of r − 1. |
| Primitives.Atanh | scripts/scenario_L01_ohms_law.py:20-21 | The code's atanh, ½·log((1+a)/(1−a)). TanhOfAtanh and AtanhOfTanh prove it is the inverse of tanh in both directions. AtanhSign, AtanhOdd and AtanhStrictlyIncreasing give its sign, oddness and order. |
| Primitives.FromOddsOfOdds | scripts/scenario_L01_ohms_law.py:20-25 | Mapping an alignment to its odds and back returns the alignment. |
| Primitives.OddsOfFromOdds | scripts/scenario_L01_ohms_law.py:20-25 | Mapping positive odds to an alignment and back returns the odds. |
| Primitives.TanhOfAtanh | scripts/scenario_L01_ohms_law.py:20-25 | tanh(atanh c) = c on (-1,1), with atanh written as ½·log((1+c)/(1−c)). |
| Primitives.AtanhOfTanh | scripts/scenario_L01_ohms_law.py:20-25 | For every real u, tanh(u) lies in (-1,1) and atanh(tanh u) = u. |
| Primitives.TanhOfZero | scripts/scenario_L01_ohms_law.py:25 | tanh(0) = 0. |
| Primitives.TanhMonotone | scripts/scenario_L01_ohms_law.py:25 | tanh is monotone. |
| Primitives.AtanhStrictlyIncreasing | scripts/scenario_L01_ohms_law.py:20-21 | The code's atanh is strictly increasing on (-1,1). |
| Primitives.AtanhMonotone | scripts/scenario_L01_ohms_law.py:20-21 | The code's atanh is monotone on (-1,1). |
| Primitives.AtanhOfZero | scripts/scenario_L01_ohms_law.py:20-21 | atanh(0) = 0. |
| Primitives.AtanhSign | scripts/scenario_L01_ohms_law.py:20-21 | atanh(c) is negative, zero or positive exactly when c is. |
| Primitives.AtanhOdd | scripts/scenario_L01_ohms_law.py:20-21 | atanh(−c) = −atanh(c). |
| Primitives.AdditionLaw | scripts/scenario_L01_ohms_law.py:28-37 | tanh(atanh c1 + atanh c2) = (c1+c2)/(1+c1·c2), with a positive denominator and a result in (-1,1). |
| Primitives.SubtractionLaw | scripts/scenario_L04_ideal_gas_law.py:41-50 | tanh(atanh cn − atanh cd) = (cn−cd)/(1−cn·cd), with a positive denominator and a result in (-1,1). |
| Primitives.SubtractionAntisymmetric | scripts/scenario_L04_ideal_gas_law.py:41-50 | Swapping the operands of the rapidity difference negates tanh of it. |
| Sums.TotalConcat | scripts/scenario_L04_ideal_gas_law.py:34-37 | The accumulated sum over xs + ys is the sum over xs plus the sum over ys. |
| Sums.TotalPermutation | scripts/scenario_L04_ideal_gas_law.py:34-37 | The accumulated sum does not depend on the order of the items. |
| Sums.TotalBetween | scripts/scenario_L01_ohms_law.py:16-24 | If l·w(x) ≤ f(x) ≤ u·w(x) for every item, the same bounds hold between the sums U and W. |
| Sums.TotalAtLeastTerm | scripts/scenario_L04_ideal_gas_law.py:34-37 | A sum of non-negative terms is at least each term. |
| Sums.TotalNonNegative | scripts/scenario_L01_ohms_law.py:16-24 | A sum of non-negative terms is non-negative. |
| Sums.TotalOfZeros | scripts/scenario_L01_ohms_law.py:16-24 | A sum of zero terms is zero. |
| Operators.Rapidity | scripts/scenario_L01_ohms_law.py:19-21 | u = atanh(clamp(a, 1e-6)). RapiditiesBetween bounds it by the clamped alignment. RapidityOfSumChain and RapidityOfDiv show that the chains add and subtract these values. |
| Operators.Pooled | scripts/scenario_L01_ohms_law.py:11-25 | ssm_align_weighted as a value: tanh(U / max(W, 1e-12)), where U sums \|m\|·u and W sums \|m\|. The loop AlignWeighted computes it. PooledInRange, PooledBetween, PooledPermutation, PooledIgnoresMagnitudeSign, PooledSingle and PooledAllZeroWeights state what it promises. |
| Operators.AlignWeighted | scripts/scenario_L01_ohms_law.py:11-25 | The loop that accumulates U and W pair by pair returns tanh(U / max(W, eps)), which is the pool `Pooled`. |
| Operators.PooledInRange | scripts/scenario_L01_ohms_law.py:11-25 | The pooled alignment always lies in [-1+1e-6, 1-1e-6], and so strictly in (-1,1). |
| Operators.PooledBetween | scripts/scenario_L01_ohms_law.py:11-25 | If every clamped input lies in [lo, hi], the pool lies in [lo, hi] whenever W ≥ eps. It lies in [min(lo,0), max(hi,0)] always. |
| Operators.PooledPairBetween | scripts/scenario_L01_ohms_law.py:11-25 | A two-pair pool with W ≥ eps lies between its two clamped alignments. |
| Operators.PooledPermutation | scripts/scenario_L06_conservation_of_momentum.py:24-38 | Reordering the pairs does not change the pool. |
| Operators.PooledIgnoresMagnitudeSign | scripts/scenario_L01_ohms_law.py:22 | Flipping the sign of any magnitude does not change the pool, because the weight is \|m\|. |
| Operators.PooledSingle | scripts/scenario_L02_newton_fma.py:12-26 | A single pair (a, m) with \|m\| ≥ eps pools to exactly clamp(a). |
| Operators.PooledSingleBelowFloor | scripts/scenario_L02_newton_fma.py:12-26 | A single pair with 0 < \|m\| < eps is pulled strictly toward 0 by the floor max(W, eps). |
| Operators.PooledAllZeroWeights | scripts/scenario_L02_newton_fma.py:15-24 | When every magnitude is 0, U = W = 0 and the pool is tanh(0) = 0. |
| Operators.PooledDropsZeroWeight | scripts/scenario_L06_conservation_of_momentum.py:24-38 | Inserting a pair of magnitude 0 anywhere does not change the pool. |
| Operators.EqualWeightsAverage | scripts/scenario_L01_ohms_law.py:11-25 | When every weight is the same w > 0 and the total weight reaches the floor, the pool is tanh of the mean rapidity: plain averaging in rapidity space. |
| Operators.WeightsNonNegative | scripts/scenario_L01_ohms_law.py:22-24 | The total weight W is non-negative. |
| Operators.RapiditiesBetween | scripts/scenario_L01_ohms_law.py:19-21 | Clamped alignments in [lo, hi] have rapidities in [atanh lo, atanh hi]. |
| Operators.PoolArgumentBetween | scripts/scenario_L01_ohms_law.py:16-25 | For weighted terms bounded by l·w and u·w, U / max(W, eps) lies in [min(l,0), max(u,0)], and in [l, u] once W ≥ eps. |
| Operators.TanhBetween | scripts/scenario_L01_ohms_law.py:25 | tanh maps the rapidity bounds of the pool back to the alignment bounds. |
| Operators.SumChain | scripts/scenario_L04_ideal_gas_law.py:29-38 | ssm_align_sum as a value: tanh of the sum of the items' rapidities. The loop AlignSum computes it. SumChainClosedForm, SumChainInRange, SumChainEmpty, SumChainSingleton and SumChainPermutation state what it promises. |
| Operators.AlignSum | scripts/scenario_L04_ideal_gas_law.py:29-38 | The loop that accumulates U item by item returns tanh(U), which is the chain `SumChain`. |
| Operators.OddsProduct | scripts/scenario_L04_ideal_gas_law.py:34-37 | The product of the clamped items' odds is positive. |
| Operators.RapiditySumIsHalfLog | scripts/scenario_L04_ideal_gas_law.py:34-37 | The accumulated U equals ½·log of the product of the items' odds. |
| Operators.SumChainClosedForm | scripts/scenario_L04_ideal_gas_law.py:29-38 | The sum chain equals (P−1)/(P+1), where P is the product of the clamped items' odds. |
| Operators.SumChainInRange | scripts/scenario_L07_bernoulli.py:12-21 | The sum chain lies strictly in (-1,1) for any list. |
| Operators.SumChainEmpty | scripts/scenario_L10_faraday_induction.py:8-17 | sum([]) = 0. |
| Operators.SumChainSingleton | scripts/scenario_L09_continuity_equation.py:24-33 | sum([a]) = clamp(a). |
| Operators.SumChainPermutation | scripts/scenario_L06_conservation_of_momentum.py:12-21 | Reordering the list does not change the sum chain. |
| Operators.SumChainDropsZero | scripts/scenario_L04_ideal_gas_law.py:29-38 | Inserting an alignment of exactly 0 anywhere does not change the sum chain. |
| Operators.SumChainAtLeast | scripts/scenario_L05_conservation_of_energy.py:29-38 | For non-negative items, the chain is at least each clamped item. |
| Operators.SumChainNonNegative | scripts/scenario_L05_conservation_of_energy.py:29-38 | For non-negative items, the chain is non-negative. |
| Operators.RapidityOfSumChain | scripts/scenario_L10_faraday_induction.py:8-17 | If the chain's result is inside the clamp band, its rapidity is the sum of the items' rapidities. |
| Operators.AlignProduct | scripts/scenario_L01_ohms_law.py:28-37 | ssm_align_product: tanh(atanh c1 + atanh c2) on clamped inputs. ProductClosedForm, ProductSymmetric, ProductIdentity, ProductInverse, ProductDominates and SumChainPair state what it promises. |
| Operators.ProductClosedForm | scripts/scenario_L01_ohms_law.py:28-37 | product(a1, a2) = (c1+c2)/(1+c1·c2) on clamped inputs, and lies strictly in (-1,1). |
| Operators.ProductSymmetric | scripts/scenario_L02_newton_fma.py:29-38 | product(a1, a2) = product(a2, a1). |
| Operators.SumChainPair | scripts/scenario_L01_ohms_law.py:28-37 | product(a1, a2) = sum([a1, a2]): the product is the two-item sum chain. |
| Operators.ProductIdentity | scripts/scenario_L01_ohms_law.py:28-37 | product(a, 0) = clamp(a). |
| Operators.ProductInverse | scripts/scenario_L03_hookes_law.py:29-38 | product(a, −a) = 0. |
| Operators.ProductDominates | scripts/scenario_L01_ohms_law.py:28-37 | With both clamped inputs ≥ 0, the product is at least their maximum, and positive if either is positive. |
| Operators.AdditionLawDominates | scripts/scenario_L01_ohms_law.py:28-37 | For c1, c2 in [0,1), (c1+c2)/(1+c1·c2) ≥ max(c1, c2), and it is positive if either is. |
| Operators.AlignDiv | scripts/scenario_L04_ideal_gas_law.py:41-50 | ssm_align_div: tanh(atanh cn − atanh cd) on clamped inputs. DivClosedForm, DivSelf, DivByZeroAlignment, DivAntisymmetric, DivSign and DivMonotone state what it promises. |
| Operators.DivClosedForm | scripts/scenario_L04_ideal_gas_law.py:41-50 | div(an, ad) = (cn−cd)/(1−cn·cd) on clamped inputs, and lies strictly in (-1,1). |
| Operators.DivSelf | scripts/scenario_L04_ideal_gas_law.py:41-50 | div(a, a) = 0. |
| Operators.DivByZeroAlignment | scripts/scenario_L10_faraday_induction.py:19-28 | div(a, 0) = clamp(a). |
| Operators.DivAntisymmetric | scripts/scenario_L08_snells_law.py:39-48 | div(x, y) = −div(y, x). |
| Operators.DivIsSumWithNegation | scripts/scenario_L08_snells_law.py:27-48 | div(x, y) = sum([x, −y]), because clamp is odd. |
| Operators.DivSign | scripts/scenario_L09_continuity_equation.py:35-44 | div is negative, zero or positive exactly as cn is below, equal to or above cd. |
| Operators.DivMonotone | scripts/scenario_L09_continuity_equation.py:35-44 | div increases with the numerator and decreases with the denominator. |
| Operators.RapidityOfDiv | scripts/scenario_L10_faraday_induction.py:19-28 | If the result is inside the clamp band, its rapidity is the numerator's rapidity minus the denominator's. |
| OhmsLaw.Voltage | scripts/scenario_L01_ohms_law.py:49-50 | V = ½(1.92+1.98)·6.10 = 11.895 exactly, which matches the printed 11.8950. |
| OhmsLaw.Run | scripts/scenario_L01_ohms_law.py:40-62 | The script's top level yields the magnitude V and the alignment product(pool(I1, I2), R_a). |
| OhmsLaw.CurrentAlignmentBetween | scripts/scenario_L01_ohms_law.py:53-57 | The pooled current alignment a_I lies in [0.05, 0.72]. |
| OhmsLaw.VoltageDriftPositive | scripts/scenario_L01_ohms_law.py:53-62 | a_V ≥ max(a_I, R_a) and 0 < a_V < 1: the line is drift-positive. |
| NewtonsSecondLaw.Force | scripts/scenario_L02_newton_fma.py:52-53 | F = 20.0·½(0.90+1.10) = 20 exactly, which matches 20.0000. |
| NewtonsSecondLaw.Run | scripts/scenario_L02_newton_fma.py:40-70 | Yields F and product(m_a, pool(a1, a2)). |
| NewtonsSecondLaw.AccelerationAlignmentBetween | scripts/scenario_L02_newton_fma.py:59-63 | The pooled acceleration alignment lies in [0.10, 0.65]. |
| NewtonsSecondLaw.ForceDriftPositive | scripts/scenario_L02_newton_fma.py:59-70 | a_F ≥ max(m_a, a_accel) and 0 < a_F < 1. |
| HookesLaw.Force | scripts/scenario_L03_hookes_law.py:52-53 | F = 200.0·½(0.045+0.055) = 10 exactly, which matches 10.0000. |
| HookesLaw.Run | scripts/scenario_L03_hookes_law.py:40-70 | Yields F and product(k_a, pool(x1, x2)). |
| HookesLaw.DisplacementAlignmentBetween | scripts/scenario_L03_hookes_law.py:59-63 | The pooled displacement alignment lies in [0.10, 0.60]. |
| HookesLaw.ForceDriftPositive | scripts/scenario_L03_hookes_law.py:59-70 | a_F ≥ max(k_a, a_x) and 0 < a_F < 1. |
| IdealGasLaw.Pressure | scripts/scenario_L04_ideal_gas_law.py:70-71 | P = 1.00·8.314·300/0.0100 = 249420 exactly. |
| IdealGasLaw.Run | scripts/scenario_L04_ideal_gas_law.py:53-91 | Yields P and div(sum([n_a, R_a, a_T]), V_a). |
| IdealGasLaw.TemperatureAlignmentBetween | scripts/scenario_L04_ideal_gas_law.py:77-81 | a_T lies in [0.12, 0.55]. |
| IdealGasLaw.GasConstantDropsOut | scripts/scenario_L04_ideal_gas_law.py:84 | The exact-zero R_a (line 59) contributes nothing: a_nRT = sum([n_a, a_T]). |
| IdealGasLaw.PressureDriftPositive | scripts/scenario_L04_ideal_gas_law.py:77-91 | a_nRT ≥ 0.12 > V_a, so 0 < a_P < 1. |
| ConservationOfEnergy.EnergyIn | scripts/scenario_L05_conservation_of_energy.py:63-64 | E_in = 12·1.7·3 = 61.2. |
| ConservationOfEnergy.EnergyOut | scripts/scenario_L05_conservation_of_energy.py:65 | E_out = 2·9.81·0.5 = 9.81. |
| ConservationOfEnergy.EnergyLoss | scripts/scenario_L05_conservation_of_energy.py:66 | E_loss = 61.2 − 9.81 = 51.39. |
| ConservationOfEnergy.Run | scripts/scenario_L05_conservation_of_energy.py:41-97 | Yields E_loss and sum([a_Ein, a_Eout]). |
| ConservationOfEnergy.CurrentAlignmentBetween | scripts/scenario_L05_conservation_of_energy.py:72-76 | a_I lies in [0.15, 0.70]. |
| ConservationOfEnergy.GravityDropsOut | scripts/scenario_L05_conservation_of_energy.py:82 | g_a = 0 (line 58) drops out: a_Eout = sum([m_load_a, h_a]). |
| ConservationOfEnergy.LossAtLeastEachEnergy | scripts/scenario_L05_conservation_of_energy.py:79-85 | a_Ein ≥ clamp(a_I) > 0 and a_Eout ≥ 0.10. a_Eloss is at least clamp(a_Ein) and clamp(a_Eout), and lies in (-1,1). |
| ConservationOfMomentum.MomentumBefore | scripts/scenario_L06_conservation_of_momentum.py:58 | p_before = 1.50·1.20 + 1.00·0.00 = 1.8. |
| ConservationOfMomentum.MomentumAfter | scripts/scenario_L06_conservation_of_momentum.py:59 | p_after = 1.50·0.70 + 1.00·0.80 = 1.85. |
| ConservationOfMomentum.MomentumChange | scripts/scenario_L06_conservation_of_momentum.py:60 | Delta_p = −0.05, which is negative. |
| ConservationOfMomentum.Run | scripts/scenario_L06_conservation_of_momentum.py:41-101 | Yields Delta_p and sum([a_before, a_after]). |
| ConservationOfMomentum.BeforeIsFirstCart | scripts/scenario_L06_conservation_of_momentum.py:74-79 | Cart 2 starts at rest, so it has weight 0 and a_before = clamp(a_p1_before). |
| ConservationOfMomentum.OrderDoesNotMatter | scripts/scenario_L06_conservation_of_momentum.py:81-89 | Listing the after-carts, or the two sides, the other way round gives the same alignments. |
| ConservationOfMomentum.AlignmentsInRange | scripts/scenario_L06_conservation_of_momentum.py:66-89 | Every per-cart, per-side and final alignment lies strictly in (-1,1). |
| Bernoulli.DynamicPressures | scripts/scenario_L07_bernoulli.py:67-68 | dyn1 = 1125 and dyn2 = 4500. |
| Bernoulli.DownstreamPressure | scripts/scenario_L07_bernoulli.py:57 | P2 = 200000 + ½·1000·(1.5² − 3.0²) = 196625 = P1 + dyn1 − dyn2. |
| Bernoulli.Run | scripts/scenario_L07_bernoulli.py:41-91 | Yields P2 and the three-pair pool of (P1, dyn1, dyn2). |
| Bernoulli.DynamicAlignmentsDominate | scripts/scenario_L07_bernoulli.py:63-64 | a_dyn1 ≥ 0.30 and a_dyn2 ≥ 0.20, because rho_a ≥ 0. |
| Bernoulli.SubtractedTermWeighedPositively | scripts/scenario_L07_bernoulli.py:70-80 | The pool is the same with dyn2's magnitude negated: the subtracted term is weighed like the added ones. |
| Bernoulli.DownstreamAlignmentBetween | scripts/scenario_L07_bernoulli.py:72-80 | a_P2 lies between the smallest and largest clamped input alignment, and in [0.10, 1). |
| SnellsLaw.IncidentAngle | scripts/scenario_L08_snells_law.py:68 | theta1_avg = 30.25 exactly. |
| SnellsLaw.RefractedAngle | scripts/scenario_L08_snells_law.py:69 | theta2_avg = 19.1 exactly. |
| SnellsLaw.Run | scripts/scenario_L08_snells_law.py:51-111 | Yields n1·sin(theta1)/sin(theta2), with sine in degrees as a parameter, and div(sum([n1_a, a_theta1]), a_theta2). |
| SnellsLaw.AngleAlignmentsBetween | scripts/scenario_L08_snells_law.py:80-90 | a_theta1 lies in [0.25, 0.35] and a_theta2 in [0.12, 0.20]. |
| SnellsLaw.RefractiveIndexAlignmentPositive | scripts/scenario_L08_snells_law.py:93-99 | a_num ≥ 0.25 > a_den, so 0 < a_n2 < 1. |
| ContinuityEquation.InletVelocity | scripts/scenario_L09_continuity_equation.py:59 | v1_avg = 1.9. |
| ContinuityEquation.OutletVelocity | scripts/scenario_L09_continuity_equation.py:60 | v2 = (0.0100/0.0060)·1.9 = 19/6. |
| ContinuityEquation.Run | scripts/scenario_L09_continuity_equation.py:46-85 | Yields v2 and sum([div(A1_a, A2_a), a_v1]). |
| ContinuityEquation.InletAlignmentBetween | scripts/scenario_L09_continuity_equation.py:65-69 | a_v1 lies in [0.20, 0.45]. |
| ContinuityEquation.RatioAlignmentNegative | scripts/scenario_L09_continuity_equation.py:72 | a_ratio = −10/197 < 0, because A1_a < A2_a. |
| ContinuityEquation.OutletAlignmentPositive | scripts/scenario_L09_continuity_equation.py:75 | 0 < a_v2 < 1. |
| FaradayInduction.ClassicalValues | scripts/scenario_L10_faraday_induction.py:45-46 | dPhi/dt = (0.004 − 0.012)/0.040 = −0.2 and \|eps\| = 200·0.2 = 40. |
| FaradayInduction.EmfMagnitudeIgnoresFluxOrder | scripts/scenario_L10_faraday_induction.py:46 | The EMF magnitude is non-negative and the same whichever flux sample comes first. |
| FaradayInduction.Run | scripts/scenario_L10_faraday_induction.py:30-66 | Yields \|eps\| and sum([N_a, div(sum([Phi1_a, Phi2_a]), dt_a)]). |
| FaradayInduction.ExactAlignments | scripts/scenario_L10_faraday_induction.py:51-57 | a_dPhi = 17/23, a_dPhi_dt = 49/71 and a_eps = 2521/3599 exactly. |
| FaradayInduction.GraphFlattens | scripts/scenario_L10_faraday_induction.py:51-57 | atanh(a_eps) = atanh(N_a) + atanh(Phi1_a) + atanh(Phi2_a) − atanh(dt_a). |
| Runner.ClassifyBand | scripts/run_all_laws.py:9-17 | classify_band. BandThresholds states each band as an if-and-only-if on \|a\|. BandBoundaries, BandIgnoresSign and BandMonotone state the rest. |
| Runner.BandThresholds | scripts/run_all_laws.py:9-17 | \|a\| < 0.20 gives calm, 0.20 ≤ \|a\| < 0.50 gives borderline, and \|a\| ≥ 0.50 gives stressed, each as an if-and-only-if. |
| Runner.BandBoundaries | scripts/run_all_laws.py:12-17 | ±0.20 is borderline and ±0.50 is stressed: a boundary falls into the worse band. |
| Runner.BandIgnoresSign | scripts/run_all_laws.py:9-11 | classify_band(−a) = classify_band(a). |
| Runner.BandMonotone | scripts/run_all_laws.py:11-17 | A larger \|a\| never gives a calmer band. |
| Runner.StripEach | scripts/run_all_laws.py:29 | Each part is stripped and none is dropped. |
| Runner.WithPrefix | scripts/run_all_laws.py:30-31 | The filtered parts all start with the prefix. |
| Runner.FirstWithPrefix | scripts/run_all_laws.py:30-31 | `[p for p in parts if p.startswith(prefix)][0]`, or None where that raises IndexError. It also picks the first "SSM:" line (scripts/run_all_laws.py:65). FirstWithPrefixAt and FirstWithPrefixNone specify both outcomes. |
| Runner.FirstWithPrefixAt | scripts/run_all_laws.py:30-31 | The first element that starts with the prefix is the one picked. |
| Runner.FirstWithPrefixNone | scripts/run_all_laws.py:30-31 | With no element that starts with the prefix, nothing is picked, which is the IndexError path. |
| Runner.FieldValue | scripts/run_all_laws.py:32-33 | `part.split("=", 1)[1]`, or None where that raises IndexError. FieldValueAfterKey states that it returns the text after "k=". |
| Runner.FieldValueAfterKey | scripts/run_all_laws.py:32-33 | split("=", 1)[1] of "k=text" is text. |
| Runner.ParseFields | scripts/run_all_laws.py:29-36 | The two results are always both present or both absent. |
| Runner.ParseSsmLine | scripts/run_all_laws.py:20-36 | The same for a whole line: never one component without the other. |
| Runner.FirstMatchingPartsWin | scripts/run_all_laws.py:29-36 | The result is built from the first m= part and the first a= part, in either order. Other parts are ignored. A failed float makes both None. |
| Runner.MissingFieldFails | scripts/run_all_laws.py:30-36 | A missing m= or a= part yields (None, None). |
| Runner.ParseSsmLineRoundTrip | scripts/run_all_laws.py:26-34 | A line `SSM: m=<decimal>, a=<signed decimal>`, in the scenarios' shape (scripts/scenario_L01_ohms_law.py:62), parses back to the two decimals' values. A decimal may have no fraction. |
| Runner.ParseSsmLineWithoutPrefix | scripts/run_all_laws.py:27-29 | The "SSM:" prefix is optional: the bare field list parses to the same values. |
| Runner.ParseSsmLineSwapped | scripts/run_all_laws.py:29-33 | Fields in the order a=, m= parse to the same values. |
| Runner.ParseSsmLineExample | scripts/run_all_laws.py:22-24 | "SSM: m=11.8950, a=+0.5173" parses to (11.895, 0.5173). |
| Runner.ParseAfterPrefix | scripts/run_all_laws.py:27-29 | After "SSM: ", the rest is split on commas and each part is stripped. |
| Runner.TwoFields | scripts/run_all_laws.py:29 | "f1, f2", split on ',' and stripped, gives exactly [f1, f2]. |
| Runner.Summarize | scripts/run_all_laws.py:70-77 | "could not parse" when either value is None, else both values with a's band. ScenarioOutputSummarized and FirstSsmLineWins state it for whole outputs. |
| Runner.SummarizeOutput | scripts/run_all_laws.py:62-77 | The summary of a script's output. The loop ScanOutput computes it. FirstSsmLineWins, SummaryOfFirstSsmLine, NoSsmLine and ScenarioOutputSummarized state what it promises. |
| Runner.ScanOutput | scripts/run_all_laws.py:62-77 | The loop over the output's lines stops at the first "SSM:" line and summarizes that line only. Without one, the result is "could not parse". |
| Runner.FirstSsmLineWins | scripts/run_all_laws.py:65-71 | In printed output, the first "SSM:" line decides the summary. If it is malformed, the summary is "could not parse", whatever follows. |
| Runner.SummaryOfFirstSsmLine | scripts/run_all_laws.py:65-77 | For any output, if line i starts with "SSM:" and no earlier line does, the summary is that of line i. Later lines are not read. |
| Runner.NoSsmLine | scripts/run_all_laws.py:63-71 | Output without an "SSM:" line cannot be parsed. |
| Runner.ScenarioOutputSummarized | scripts/run_all_laws.py:62-77 | A scenario's output, whose first "SSM:" line is its summary line, is summarized as those m and a values with a's band. |
| Runner.SsmLineIsOneLine | scripts/run_all_laws.py:65-66 | A summary line has no newline and starts with "SSM:". |
| Runner.SelectScenarios | scripts/run_all_laws.py:83-100 | argv[1:] when there is an argument, else the ten names main lists. DefaultSelection and ExplicitSelection state both cases. |
| Runner.DefaultSelection | scripts/run_all_laws.py:83-100 | With no argument, the run list has ten names. The i-th is scenario_L(i+1)_<law>.py for the i-th law, so the list runs L01 to L10 with one script per law. |
| Runner.ListedScenarioAt | scripts/run_all_laws.py:84-93 | The i-th name built as scenario_L(i+1)_<law>.py is the i-th name main lists, as spelled there. |
| Runner.ListedScenariosInLawOrder | scripts/run_all_laws.py:83-94 | The i-th listed script is that of law L(i+1). |
| Runner.ListedScenariosDistinct | scripts/run_all_laws.py:83-94 | No listed script appears twice. |
| Runner.ExplicitSelection | scripts/run_all_laws.py:97-98 | With arguments, the run list is exactly argv[1:], in order. |
| Runner.RunScript | scripts/run_all_laws.py:39-79 | run_script: a script without output in the map is reported as not found. Otherwise it is summarized by SummarizeOutput. RunAll states it for each selected script. |
| Runner.RunAll | scripts/run_all_laws.py:102-104 | Each selected script gets one report, in order. A missing script is reported as not found; otherwise its output is summarized. |
| Text.StripLeft | scripts/run_all_laws.py:28-29 | Only leading whitespace is removed, all of it. |
| Text.StripRight | scripts/run_all_laws.py:28-29 | Only trailing whitespace is removed, all of it. |
| Text.Strip | scripts/run_all_laws.py:28-29 | str.strip, as StripRight after StripLeft. StripUnpadded and StripLeadingSpaces state what it returns on the texts the runner meets. |
| Text.Split | scripts/run_all_laws.py:29 | str.split always yields at least one part, and no part contains the separator. |
| Text.JoinSplit | scripts/run_all_laws.py:29 | Joining the parts of a split with the separator restores the string. |
| Text.SplitJoin | scripts/run_all_laws.py:29 | Splitting a join of separator-free parts restores the parts. |
| Text.SplitOnce | scripts/run_all_laws.py:32-33 | split(sep, 1) yields the whole string when sep is absent. Otherwise it yields two parts around the first sep. |
| Text.Lines | scripts/run_all_laws.py:65 | str.splitlines on '\n'. LinesOfPrinted states that it returns the printed lines. |
| Text.LinesOfPrinted | scripts/run_all_laws.py:65 | The lines of printed output (each line followed by '\n') are the printed lines. |
| Text.ParseFloat | scripts/run_all_laws.py:32-33 | float(): strip, then a signed decimal, else None. Runner.ParseFloatOfText and ParseDecimalText state that it reads a decimal's text back as its value. |
| Text.ParseDecimalText | scripts/run_all_laws.py:32-33 | float() of a decimal's text is that decimal's value. |
| Text.ParseUnsignedText | scripts/run_all_laws.py:32-33 | float() of digits with an optional fraction is their value. |
| Text.DecimalTextPlain | scripts/run_all_laws.py:29-33 | A decimal's text is non-empty. It contains no whitespace, ',', '=' or newline, so splitting and stripping leave it whole. |

## Left out

- Launching scripts: `subprocess.run` and the `os.path.exists` check (scripts/run_all_laws.py:42-51) are not modelled. Each script's standard output is a parameter instead: a map from script name to its output. A script that is not a key of the map is reported as not found.
- Echo and print formatting: the runner's echo of stdout and stderr, its banner, and the `:.4f` and `:+.4f` formatting of the summary (scripts/run_all_laws.py:41, 53-60, 74-79, 102) are output only. Each summary is modelled as a value.
- Scenario output formatting: a scenario's `:.4f`, `:+.4f`, `:.3f`, `:.2f` and `:.0f` output is modelled as a decimal datatype: an optional sign, digits, and an optional fraction. Rounding to that many digits is not modelled. A summary line's values are those of the decimals written in it.
- IEEE-754 floating point: all arithmetic is exact over the reals. Exact classical values, such as 11.895 for L01, are proved over the reals and not as rounded doubles.
- Operators.ProductClosedForm, Operators.DivClosedForm and the other closed forms rest on `MathLib.Laws()`: laws assumed of `math.log` and `math.tanh`, which real ln and tanh satisfy. Nothing here proves that Python's implementations satisfy them.
- Concrete alignment values: the printed alignments, such as a_V ≈ +0.51, need tanh and log of non-rational arguments. Only signs and bounds are proved. The exception is L10, whose alignments are rational and are proved exactly.
- SnellsLaw.Run: `math.sin` and `math.radians` (scripts/scenario_L08_snells_law.py:71-74) are a parameter. Only the angle averages are proved.
- Operators.Pooled: every call site passes gamma = 1.0, so the weight is fixed at |m|. General real exponents `abs(m) ** gamma` are not modelled. Clamping uses the default 1e-6 and the pool's floor is the 1e-12 every call passes; other tolerances are not modelled.
- Operators.PooledBetween: the bounds [lo, hi] are stated for W ≥ 1e-12 only. For 0 < W < 1e-12 the floor pulls the result toward 0 (Operators.PooledSingleBelowFloor), so only [min(lo,0), max(hi,0)] holds.
- Text.ParseDecimalText: the model's `float()` accepts an optional sign followed by digits with at most one '.' and at least one digit (so `.5` and `5.` are accepted, as in Python), surrounded by the whitespace `str.strip` removes among the first 256 code points. Exponents, `inf`/`nan`, underscores and whitespace beyond those code points are not modelled.
- Text.Strip: whitespace is the set `str.strip` removes among the first 256 code points. Runner.StripEach and Text.ParseFloat use the same set. Whitespace beyond those code points is not modelled.
- Text.LinesOfPrinted: `str.splitlines` is modelled as splitting on '\n' only, dropping one empty final line. The other line terminators that splitlines recognises are not modelled.
