/**
 * The alignment primitives: clamping into the open interval (-1, 1) and the
 * rapidity transform atanh(a) = 0.5 * ln((1 + a) / (1 - a)).
 *
 * The scenario scripts call math.log and math.tanh. Neither can be written
 * out over Dafny's reals, so the model receives them as a parameter of type
 * MathLib and states, in Laws(), the five facts about them that the algebra
 * relies on. The real natural logarithm and hyperbolic tangent satisfy all
 * five; every lemma that needs them says so with `requires h.Laws()`.
 *
 * The argument of the logarithm, (1 + a) / (1 - a), is called the odds of a
 * below. A sum of rapidities is half the logarithm of a product of odds, and
 * tanh(0.5 * ln r) = (r - 1) / (r + 1), so every closed form the algebra
 * promises reduces to rational arithmetic on odds.
 */
module Primitives {

  /** The two routines of Python's math module that the algebra calls. */
  datatype MathLib = MathLib(log: real -> real, tanh: real -> real)
  {
    /**
     * What the algebra assumes of math.log and math.tanh. Each law fires only
     * on an explicit mention of its guard, so that the lemmas below decide
     * where it is used.
     */
    ghost predicate Laws()
    {
      // ln(x * y) = ln x + ln y on positive arguments
      && (forall x, y, z {:trigger IsProduct(x, y, z)} ::
            IsProduct(x, y, z) ==> log(z) == log(x) + log(y))
      // ln is strictly increasing on positive arguments
      && (forall x, y {:trigger PositiveBelow(x, y)} ::
            PositiveBelow(x, y) ==> log(x) < log(y))
      // tanh(u) = (e^(2u) - 1) / (e^(2u) + 1), written for e^(2u) = r
      && (forall r {:trigger Positive(r)} ::
            Positive(r) ==> tanh(0.5 * log(r)) == (r - 1.0) / (r + 1.0))
      // tanh is strictly increasing
      && (forall u, v {:trigger Below(u, v)} ::
            Below(u, v) ==> tanh(u) < tanh(v))
      // ln takes every real value: u = 0.5 * ln(e^(2u))
      && (forall u {:trigger Reached(u)} ::
            Reached(u) ==> exists r :: 0.0 < r && 0.5 * log(r) == u)
    }
  }

  ghost predicate IsProduct(x: real, y: real, z: real) { 0.0 < x && 0.0 < y && z == x * y }

  ghost predicate PositiveBelow(x: real, y: real) { 0.0 < x < y }

  ghost predicate Positive(r: real) { 0.0 < r }

  ghost predicate Below(u: real, v: real) { u < v }

  ghost predicate Reached(u: real) { true }

  function Min(x: real, y: real): real { if x <= y then x else y }

  function Max(x: real, y: real): real { if x >= y then x else y }

  function Abs(x: real): real { if x < 0.0 then -x else x }

  /** clamp(a, e) = max(-1 + e, min(1 - e, a)). */
  function Clamp(a: real, e: real): (c: real)
    ensures 0.0 < e < 1.0 ==> -1.0 + e <= c <= 1.0 - e
    ensures -1.0 + e <= a <= 1.0 - e ==> c == a
    ensures e <= 1.0 && a > 1.0 - e ==> c == 1.0 - e
    ensures e <= 1.0 && a < -1.0 + e ==> c == -1.0 + e
  {
    Max(-1.0 + e, Min(1.0 - e, a))
  }

  lemma ClampIdempotent(a: real, e: real)
    requires 0.0 < e < 1.0
    ensures Clamp(Clamp(a, e), e) == Clamp(a, e)
  {
  }

  lemma ClampMonotone(a: real, b: real, e: real)
    requires a <= b
    ensures Clamp(a, e) <= Clamp(b, e)
  {
  }

  /** Clamping commutes with negation: the band [-1 + e, 1 - e] is symmetric. */
  lemma ClampOdd(a: real, e: real)
    requires 0.0 < e < 1.0
    ensures Clamp(-a, e) == -Clamp(a, e)
  {
  }

  lemma QuotientOfPositives(x: real, y: real)
    requires 0.0 < x && 0.0 < y
    ensures 0.0 < x / y
  {
  }

  /** The odds (1 + c) / (1 - c) of an alignment: the argument of ln in atanh. */
  function Odds(c: real): (o: real)
    requires -1.0 < c < 1.0
    ensures 0.0 < o
    ensures (c < 0.0 ==> o < 1.0) && (c == 0.0 ==> o == 1.0) && (c > 0.0 ==> o > 1.0)
  {
    var o := (1.0 + c) / (1.0 - c);
    QuotientOfPositives(1.0 + c, 1.0 - c);
    assert o - 1.0 == 2.0 * c / (1.0 - c);
    o
  }

  /** The alignment whose odds are o; tanh(0.5 * ln o) under Laws(). */
  function FromOdds(o: real): (c: real)
    requires 0.0 < o
    ensures -1.0 < c < 1.0
    ensures (o < 1.0 ==> c < 0.0) && (o == 1.0 ==> c == 0.0) && (o > 1.0 ==> c > 0.0)
  {
    var c := (o - 1.0) / (o + 1.0);
    assert c == 1.0 - 2.0 / (o + 1.0);
    assert c + 1.0 == 2.0 * o / (o + 1.0);
    c
  }

  /** atanh as the scenario scripts write it: 0.5 * ln((1 + c) / (1 - c)). */
  function Atanh(h: MathLib, c: real): real
    requires -1.0 < c < 1.0
  {
    0.5 * h.log(Odds(c))
  }

  lemma FromOddsOfOdds(c: real)
    requires -1.0 < c < 1.0
    ensures FromOdds(Odds(c)) == c
  {
    var o := Odds(c);
    assert o * (1.0 - c) == 1.0 + c;
    assert (o - 1.0) * (1.0 - c) == 2.0 * c;
    assert (o + 1.0) * (1.0 - c) == 2.0;
  }

  lemma OddsOfFromOdds(o: real)
    requires 0.0 < o
    ensures Odds(FromOdds(o)) == o
  {
    var c := FromOdds(o);
    assert c * (o + 1.0) == o - 1.0;
    assert (1.0 + c) * (o + 1.0) == 2.0 * o;
    assert (1.0 - c) * (o + 1.0) == 2.0;
  }

  lemma LogOfProduct(h: MathLib, x: real, y: real)
    requires h.Laws()
    requires 0.0 < x && 0.0 < y
    ensures h.log(x * y) == h.log(x) + h.log(y)
  {
    assert IsProduct(x, y, x * y);
  }

  lemma LogOfOne(h: MathLib)
    requires h.Laws()
    ensures h.log(1.0) == 0.0
  {
    LogOfProduct(h, 1.0, 1.0);
  }

  lemma LogOfQuotient(h: MathLib, x: real, y: real)
    requires h.Laws()
    requires 0.0 < x && 0.0 < y
    ensures h.log(x / y) == h.log(x) - h.log(y)
  {
    var q := x / y;
    assert q * y == x;
    assert IsProduct(q, y, x);
  }

  /** tanh(0.5 * ln r) is the alignment whose odds are r. */
  lemma TanhOfHalfLog(h: MathLib, r: real)
    requires h.Laws()
    requires 0.0 < r
    ensures h.tanh(0.5 * h.log(r)) == FromOdds(r)
  {
    assert Positive(r);
  }

  lemma TanhOfZero(h: MathLib)
    requires h.Laws()
    ensures h.tanh(0.0) == 0.0
  {
    LogOfOne(h);
    TanhOfHalfLog(h, 1.0);
  }

  /** tanh undoes atanh on (-1, 1). */
  lemma TanhOfAtanh(h: MathLib, c: real)
    requires h.Laws()
    requires -1.0 < c < 1.0
    ensures h.tanh(Atanh(h, c)) == c
  {
    TanhOfHalfLog(h, Odds(c));
    FromOddsOfOdds(c);
  }

  /** atanh undoes tanh: every real rapidity maps into (-1, 1) and back. */
  lemma AtanhOfTanh(h: MathLib, u: real)
    requires h.Laws()
    ensures -1.0 < h.tanh(u) < 1.0
    ensures Atanh(h, h.tanh(u)) == u
  {
    assert Reached(u);
    var r :| 0.0 < r && 0.5 * h.log(r) == u;
    TanhOfHalfLog(h, r);
    AtanhOfFromOdds(h, r);
  }

  /** atanh of the alignment with odds o is half the logarithm of o. */
  lemma AtanhOfFromOdds(h: MathLib, o: real)
    requires 0.0 < o
    ensures Atanh(h, FromOdds(o)) == 0.5 * h.log(o)
  {
    OddsOfFromOdds(o);
  }

  lemma TanhStrictlyIncreasing(h: MathLib, u: real, v: real)
    requires h.Laws()
    requires u < v
    ensures h.tanh(u) < h.tanh(v)
  {
    assert Below(u, v);
  }

  lemma TanhMonotone(h: MathLib, u: real, v: real)
    requires h.Laws()
    requires u <= v
    ensures h.tanh(u) <= h.tanh(v)
  {
    if u < v {
      assert Below(u, v);
    }
  }

  lemma OddsStrictlyIncreasing(c: real, d: real)
    requires -1.0 < c < d < 1.0
    ensures Odds(c) < Odds(d)
  {
    var oc, od := Odds(c), Odds(d);
    var k := (1.0 - c) * (1.0 - d);
    assert 0.0 < k;
    assert oc * k == (1.0 + c) * (1.0 - d);
    assert od * k == (1.0 + d) * (1.0 - c);
    assert (od - oc) * k == 2.0 * (d - c);
  }

  /** atanh is strictly increasing on (-1, 1). */
  lemma AtanhStrictlyIncreasing(h: MathLib, c: real, d: real)
    requires h.Laws()
    requires -1.0 < c < d < 1.0
    ensures Atanh(h, c) < Atanh(h, d)
  {
    OddsStrictlyIncreasing(c, d);
    assert PositiveBelow(Odds(c), Odds(d));
  }

  lemma AtanhMonotone(h: MathLib, c: real, d: real)
    requires h.Laws()
    requires -1.0 < c <= d < 1.0
    ensures Atanh(h, c) <= Atanh(h, d)
  {
    if c < d {
      AtanhStrictlyIncreasing(h, c, d);
    }
  }

  lemma AtanhOfZero(h: MathLib)
    requires h.Laws()
    ensures Atanh(h, 0.0) == 0.0
  {
    LogOfOne(h);
  }

  /** atanh has the sign of its argument. */
  lemma AtanhSign(h: MathLib, c: real)
    requires h.Laws()
    requires -1.0 < c < 1.0
    ensures c < 0.0 <==> Atanh(h, c) < 0.0
    ensures c == 0.0 <==> Atanh(h, c) == 0.0
    ensures c > 0.0 <==> Atanh(h, c) > 0.0
  {
    AtanhOfZero(h);
    if c < 0.0 {
      AtanhStrictlyIncreasing(h, c, 0.0);
    } else if c > 0.0 {
      AtanhStrictlyIncreasing(h, 0.0, c);
    }
  }

  /** atanh is odd. */
  lemma AtanhOdd(h: MathLib, c: real)
    requires h.Laws()
    requires -1.0 < c < 1.0
    ensures Atanh(h, -c) == -Atanh(h, c)
  {
    var o := Odds(c);
    OddsOfNegation(c);
    LogOfQuotient(h, 1.0, o);
    LogOfOne(h);
  }

  /** Adding two rapidities: tanh gives back the alignment whose odds are the product. */
  lemma TanhOfAtanhSum(h: MathLib, c1: real, c2: real)
    requires h.Laws()
    requires -1.0 < c1 < 1.0 && -1.0 < c2 < 1.0
    ensures h.tanh(Atanh(h, c1) + Atanh(h, c2)) == FromOdds(Odds(c1) * Odds(c2))
  {
    var o1, o2 := Odds(c1), Odds(c2);
    var p := o1 * o2;
    LogOfProduct(h, o1, o2);
    assert Atanh(h, c1) == 0.5 * h.log(o1);
    assert Atanh(h, c2) == 0.5 * h.log(o2);
    assert h.log(p) == h.log(o1) + h.log(o2);
    assert Atanh(h, c1) + Atanh(h, c2) == 0.5 * h.log(p);
    TanhOfHalfLog(h, p);
  }

  /** Subtracting two rapidities: the alignment whose odds are the quotient. */
  lemma TanhOfAtanhDifference(h: MathLib, cn: real, cd: real)
    requires h.Laws()
    requires -1.0 < cn < 1.0 && -1.0 < cd < 1.0
    ensures 0.0 < Odds(cn) / Odds(cd)
    ensures Atanh(h, cn) - Atanh(h, cd) == 0.5 * h.log(Odds(cn) / Odds(cd))
    ensures h.tanh(Atanh(h, cn) - Atanh(h, cd)) == FromOdds(Odds(cn) / Odds(cd))
  {
    var q := Odds(cn) / Odds(cd);
    QuotientOfPositives(Odds(cn), Odds(cd));
    LogOfQuotient(h, Odds(cn), Odds(cd));
    assert Atanh(h, cn) - Atanh(h, cd) == 0.5 * h.log(q);
    TanhOfHalfLog(h, q);
  }

  /**
   * The addition law in alignment space: adding two rapidities multiplies
   * their odds, and the alignment with odds Odds(c1) * Odds(c2) is
   * (c1 + c2) / (1 + c1 * c2).
   */
  lemma FromOddsOfProduct(c1: real, c2: real)
    requires -1.0 < c1 < 1.0 && -1.0 < c2 < 1.0
    ensures 1.0 + c1 * c2 > 0.0
    ensures FromOdds(Odds(c1) * Odds(c2)) == (c1 + c2) / (1.0 + c1 * c2)
  {
    var o1, o2 := Odds(c1), Odds(c2);
    var p := o1 * o2;
    var b := (1.0 - c1) * (1.0 - c2);
    assert o1 * (1.0 - c1) == 1.0 + c1;
    assert o2 * (1.0 - c2) == 1.0 + c2;
    assert 0.0 < b;
    assert p * b == (1.0 + c1) * (1.0 + c2);
    assert (p - 1.0) * b == 2.0 * (c1 + c2);
    assert (p + 1.0) * b == 2.0 * (1.0 + c1 * c2);
    assert 1.0 + c1 * c2 > 0.0;
  }

  /** The subtraction law: the alignment with odds Odds(cn) / Odds(cd). */
  lemma FromOddsOfQuotient(cn: real, cd: real)
    requires -1.0 < cn < 1.0 && -1.0 < cd < 1.0
    ensures 1.0 - cn * cd > 0.0
    ensures FromOdds(Odds(cn) / Odds(cd)) == (cn - cd) / (1.0 - cn * cd)
  {
    OddsOfNegation(cd);
    assert Odds(cn) / Odds(cd) == Odds(cn) * Odds(-cd);
    FromOddsOfProduct(cn, -cd);
    assert cn + -cd == cn - cd && 1.0 + cn * -cd == 1.0 - cn * cd;
  }

  /** Negating an alignment inverts its odds. */
  lemma OddsOfNegation(c: real)
    requires -1.0 < c < 1.0
    ensures Odds(-c) == 1.0 / Odds(c)
  {
    var o := Odds(c);
    assert o * (1.0 - c) == 1.0 + c;
  }

  /** tanh(atanh(c1) + atanh(c2)) = (c1 + c2) / (1 + c1 * c2), the relativistic addition law. */
  lemma AdditionLaw(h: MathLib, c1: real, c2: real)
    requires h.Laws()
    requires -1.0 < c1 < 1.0 && -1.0 < c2 < 1.0
    ensures 1.0 + c1 * c2 > 0.0
    ensures h.tanh(Atanh(h, c1) + Atanh(h, c2)) == (c1 + c2) / (1.0 + c1 * c2)
    ensures -1.0 < h.tanh(Atanh(h, c1) + Atanh(h, c2)) < 1.0
  {
    TanhOfAtanhSum(h, c1, c2);
    FromOddsOfProduct(c1, c2);
  }

  /** tanh(atanh(cn) - atanh(cd)) = (cn - cd) / (1 - cn * cd), the subtraction law. */
  lemma SubtractionLaw(h: MathLib, cn: real, cd: real)
    requires h.Laws()
    requires -1.0 < cn < 1.0 && -1.0 < cd < 1.0
    ensures 1.0 - cn * cd > 0.0
    ensures h.tanh(Atanh(h, cn) - Atanh(h, cd)) == (cn - cd) / (1.0 - cn * cd)
    ensures -1.0 < h.tanh(Atanh(h, cn) - Atanh(h, cd)) < 1.0
  {
    TanhOfAtanhDifference(h, cn, cd);
    FromOddsOfQuotient(cn, cd);
  }

  /** Swapping the operands of the subtraction law negates the result. */
  lemma SubtractionAntisymmetric(h: MathLib, c1: real, c2: real)
    requires h.Laws()
    requires -1.0 < c1 < 1.0 && -1.0 < c2 < 1.0
    ensures h.tanh(Atanh(h, c2) - Atanh(h, c1)) == -h.tanh(Atanh(h, c1) - Atanh(h, c2))
  {
    SubtractionLaw(h, c1, c2);
    SubtractionLaw(h, c2, c1);
    NegatedQuotient(c1, c2);
  }

  lemma NegatedQuotient(x: real, y: real)
    requires 1.0 - x * y > 0.0
    ensures (y - x) / (1.0 - y * x) == -((x - y) / (1.0 - x * y))
  {
    var d := 1.0 - x * y;
    assert 1.0 - y * x == d;
    assert (y - x) / d == -((x - y) / d);
  }
}
