/**
 * Law L08, Snell's law n2 = n1 * sin(theta1) / sin(theta2). Each angle is
 * pooled from two readings; the numerator chains n1 with theta1, the
 * denominator inherits theta2's alignment, and n2's alignment is their
 * quotient.
 */
module SnellsLaw {
  import opened Primitives
  import opened Operators

  const N1 := Reading(1.000, 0.01)
  const Theta11 := Reading(30.0, 0.25)
  const Theta12 := Reading(30.5, 0.35)
  const Theta21 := Reading(19.2, 0.20)
  const Theta22 := Reading(19.0, 0.12)

  /** The averages of the incident and of the refracted angle, in degrees. */
  function IncidentAngle(): (d: real)
    ensures d == 30.25
  {
    0.5 * (Theta11.m + Theta12.m)
  }

  function RefractedAngle(): (d: real)
    ensures d == 19.1
  {
    0.5 * (Theta21.m + Theta22.m)
  }

  /**
   * n2 = n1 * sin(theta1) / sin(theta2), where sinDegrees is
   * math.sin(math.radians(.)), received as a parameter.
   */
  function RefractiveIndex(sinDegrees: real -> real): real
    requires sinDegrees(RefractedAngle()) != 0.0
  {
    N1.m * sinDegrees(IncidentAngle()) / sinDegrees(RefractedAngle())
  }

  function IncidentAlignment(h: MathLib): real
  {
    Pooled(h, [Theta11.ToPair(), Theta12.ToPair()])
  }

  function RefractedAlignment(h: MathLib): real
  {
    Pooled(h, [Theta21.ToPair(), Theta22.ToPair()])
  }

  /** a_num = sum([n1_a, a_theta1]). */
  function NumeratorAlignment(h: MathLib): real
  {
    SumChain(h, [N1.a, IncidentAlignment(h)])
  }

  /** a_n2 = div(a_num, a_den) with a_den = a_theta2. */
  function RefractiveIndexAlignment(h: MathLib): real
  {
    AlignDiv(h, NumeratorAlignment(h), RefractedAlignment(h))
  }

  method Run(h: MathLib, sinDegrees: real -> real) returns (m: real, a: real)
    requires sinDegrees(RefractedAngle()) != 0.0
    ensures m == RefractiveIndex(sinDegrees) && a == RefractiveIndexAlignment(h)
  {
    var theta1 := 0.5 * (Theta11.m + Theta12.m);
    var theta2 := 0.5 * (Theta21.m + Theta22.m);
    m := N1.m * sinDegrees(theta1) / sinDegrees(theta2);
    var aTheta1 := AlignWeighted(h, [Theta11.ToPair(), Theta12.ToPair()]);
    var aTheta2 := AlignWeighted(h, [Theta21.ToPair(), Theta22.ToPair()]);
    var aNum := AlignSum(h, [N1.a, aTheta1]);
    a := AlignDiv(h, aNum, aTheta2);
  }

  lemma AngleAlignmentsBetween(h: MathLib)
    requires h.Laws()
    ensures 0.25 <= IncidentAlignment(h) <= 0.35
    ensures 0.12 <= RefractedAlignment(h) <= 0.20
  {
    PooledPairBetween(h, Theta11.ToPair(), Theta12.ToPair());
    PooledPairBetween(h, Theta21.ToPair(), Theta22.ToPair());
  }

  /**
   * The numerator's alignment is at least 0.25 and the denominator's at most
   * 0.20, so n2's alignment is positive, and it stays inside (-1, 1).
   */
  lemma RefractiveIndexAlignmentPositive(h: MathLib)
    requires h.Laws()
    ensures NumeratorAlignment(h) >= 0.25
    ensures 0.0 < RefractiveIndexAlignment(h) < 1.0
  {
    AngleAlignmentsBetween(h);
    SumChainAtLeast(h, [N1.a, IncidentAlignment(h)], 1);
    ClampMonotone(0.25, IncidentAlignment(h), ClampEps);
    ClampMonotone(0.25, NumeratorAlignment(h), ClampEps);
    DivSign(h, NumeratorAlignment(h), RefractedAlignment(h));
    DivClosedForm(h, NumeratorAlignment(h), RefractedAlignment(h));
  }
}
