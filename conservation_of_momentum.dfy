/**
 * Law L06, conservation of momentum in one dimension. Each cart's momentum
 * alignment chains its mass and velocity alignments; each side of the
 * balance pools the two carts weighted by |p|; the imbalance chains the two
 * sides.
 */
module ConservationOfMomentum {
  import opened Primitives
  import opened Operators

  const M1 := Reading(1.50, 0.05)
  const M2 := Reading(1.00, 0.05)
  const U1 := Reading(1.20, 0.40)
  /** Cart 2 stands still before the collision. */
  const U2 := Reading(0.00, 0.05)
  const V1 := Reading(0.70, 0.35)
  const V2 := Reading(0.80, 0.20)

  function MomentumBefore(): (p: real)
    ensures p == 1.8
  {
    M1.m * U1.m + M2.m * U2.m
  }

  function MomentumAfter(): (p: real)
    ensures p == 1.85
  {
    M1.m * V1.m + M2.m * V2.m
  }

  /** Delta_p = p_before - p_after: negative for these readings. */
  function MomentumChange(): (d: real)
    ensures d == -0.05 && d < 0.0
  {
    MomentumBefore() - MomentumAfter()
  }

  /** a_p of one cart: sum([mass_a, velocity_a]). */
  function CartAlignment(h: MathLib, mass: Reading, velocity: Reading): real
  {
    SumChain(h, [mass.a, velocity.a])
  }

  /** The pool inputs of one side: each cart's alignment weighted by its momentum. */
  function SidePairs(h: MathLib, u1: Reading, u2: Reading): seq<Pair>
  {
    [Pair(CartAlignment(h, M1, u1), M1.m * u1.m), Pair(CartAlignment(h, M2, u2), M2.m * u2.m)]
  }

  /** a_before: the pool of a_p1_before and a_p2_before. */
  function BeforeAlignment(h: MathLib): real
  {
    Pooled(h, SidePairs(h, U1, U2))
  }

  /** a_after: the pool of a_p1_after and a_p2_after. */
  function AfterAlignment(h: MathLib): real
  {
    Pooled(h, SidePairs(h, V1, V2))
  }

  /** a_delta_p = sum([a_before, a_after]). */
  function ChangeAlignment(h: MathLib): real
  {
    SumChain(h, [BeforeAlignment(h), AfterAlignment(h)])
  }

  method Run(h: MathLib) returns (m: real, a: real)
    ensures m == MomentumChange() && a == ChangeAlignment(h)
  {
    var pBefore := M1.m * U1.m + M2.m * U2.m;
    var pAfter := M1.m * V1.m + M2.m * V2.m;
    m := pBefore - pAfter;
    var a1Before := AlignSum(h, [M1.a, U1.a]);
    var a2Before := AlignSum(h, [M2.a, U2.a]);
    var a1After := AlignSum(h, [M1.a, V1.a]);
    var a2After := AlignSum(h, [M2.a, V2.a]);
    var aBefore := AlignWeighted(h, [Pair(a1Before, M1.m * U1.m), Pair(a2Before, M2.m * U2.m)]);
    var aAfter := AlignWeighted(h, [Pair(a1After, M1.m * V1.m), Pair(a2After, M2.m * V2.m)]);
    a := AlignSum(h, [aBefore, aAfter]);
  }

  /**
   * Cart 2's momentum before is 0, so it has weight 0 and the before side is
   * exactly cart 1's clamped alignment.
   */
  lemma BeforeIsFirstCart(h: MathLib)
    requires h.Laws()
    ensures BeforeAlignment(h) == Clamp(CartAlignment(h, M1, U1), ClampEps)
  {
    var first := Pair(CartAlignment(h, M1, U1), M1.m * U1.m);
    var second := CartAlignment(h, M2, U2);
    assert SidePairs(h, U1, U2) == [first][..1] + [Pair(second, 0.0)] + [first][1..];
    PooledDropsZeroWeight(h, [first], 1, second);
    PooledSingle(h, first.a, first.m);
  }

  /** Neither the order of the carts nor the order of the two sides matters. */
  lemma OrderDoesNotMatter(h: MathLib)
    ensures AfterAlignment(h) == Pooled(h, [SidePairs(h, V1, V2)[1], SidePairs(h, V1, V2)[0]])
    ensures ChangeAlignment(h) == SumChain(h, [AfterAlignment(h), BeforeAlignment(h)])
  {
    var ps := SidePairs(h, V1, V2);
    assert multiset(ps) == multiset([ps[1], ps[0]]);
    PooledPermutation(h, ps, [ps[1], ps[0]]);
    var both := [BeforeAlignment(h), AfterAlignment(h)];
    assert multiset(both) == multiset([both[1], both[0]]);
    SumChainPermutation(h, both, [both[1], both[0]]);
  }

  /** Every intermediate alignment, and the final one, lies strictly inside (-1, 1). */
  lemma AlignmentsInRange(h: MathLib)
    requires h.Laws()
    ensures -1.0 < CartAlignment(h, M1, U1) < 1.0 && -1.0 < CartAlignment(h, M2, U2) < 1.0
    ensures -1.0 < CartAlignment(h, M1, V1) < 1.0 && -1.0 < CartAlignment(h, M2, V2) < 1.0
    ensures -1.0 < BeforeAlignment(h) < 1.0 && -1.0 < AfterAlignment(h) < 1.0
    ensures -1.0 < ChangeAlignment(h) < 1.0
  {
    SumChainInRange(h, [M1.a, U1.a]);
    SumChainInRange(h, [M2.a, U2.a]);
    SumChainInRange(h, [M1.a, V1.a]);
    SumChainInRange(h, [M2.a, V2.a]);
    PooledInRange(h, SidePairs(h, U1, U2));
    PooledInRange(h, SidePairs(h, V1, V2));
    SumChainInRange(h, [BeforeAlignment(h), AfterAlignment(h)]);
  }
}
