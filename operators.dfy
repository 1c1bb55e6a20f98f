/**
 * The composition operators every scenario script carries a copy of:
 * ssm_align_weighted (weighted pooling), ssm_align_sum (sum chaining),
 * ssm_align_product (its two-argument case) and ssm_align_div (division
 * chaining). Each clamps its raw inputs, moves them to rapidity space,
 * combines them linearly and maps the result back with tanh.
 *
 * Every call site passes gamma = 1.0 and the default tolerances, so the
 * model fixes them: clamping always uses e = 1e-6, and the pool floors its
 * total weight at 1e-12.
 */
module Operators {
  import opened Primitives
  import opened Sums

  /** The clamp tolerance: clamp's default e, and the eps the chains pass on. */
  const ClampEps: real := 0.000001

  /** The pool's eps: the floor on its total weight W. */
  const PoolEps: real := 0.000000000001

  /** u = atanh(clamp(a)): the rapidity of a raw alignment. */
  function Rapidity(h: MathLib, a: real): real
  {
    Atanh(h, Clamp(a, ClampEps))
  }

  /** Rapidity as a value, for the sums of the two chaining loops. */
  function RapidityFn(h: MathLib): real -> real
  {
    a => Rapidity(h, a)
  }

  // ---------------------------------------------------------------------
  // Weighted pooling

  /** One (a_raw, m) pair handed to the pool. */
  datatype Pair = Pair(a: real, m: real)

  /** A measured quantity as the scenarios write it: magnitude m, alignment a. */
  datatype Reading = Reading(m: real, a: real)
  {
    /** The (a_raw, m) pair a reading contributes to a pool. */
    function ToPair(): Pair
    {
      Pair(a, m)
    }
  }

  /** w = |m| ** gamma with gamma = 1. */
  function Weight(p: Pair): real
  {
    Abs(p.m)
  }

  /** The term w * u the pool adds to U for one pair. */
  function WeightedRapidityFn(h: MathLib): Pair -> real
  {
    p => Weight(p) * Rapidity(h, p.a)
  }

  /** tanh(U / max(W, eps)), with U = sum of w * u and W = sum of w. */
  function Pooled(h: MathLib, pairs: seq<Pair>): real
  {
    h.tanh(Total(WeightedRapidityFn(h), pairs) / Max(Total(Weight, pairs), PoolEps))
  }

  /** ssm_align_weighted: accumulates U and W over the pairs, in order. */
  method AlignWeighted(h: MathLib, pairs: seq<Pair>) returns (r: real)
    ensures r == Pooled(h, pairs)
  {
    var U, W := 0.0, 0.0;
    for i := 0 to |pairs|
      invariant U == Total(WeightedRapidityFn(h), pairs[..i])
      invariant W == Total(Weight, pairs[..i])
    {
      var a := Clamp(pairs[i].a, ClampEps);
      var u := 0.5 * h.log((1.0 + a) / (1.0 - a));
      var w := Abs(pairs[i].m);
      U := U + w * u;
      W := W + w;
      assert pairs[..i + 1] == pairs[..i] + [pairs[i]];
      TotalSnoc(WeightedRapidityFn(h), pairs[..i], pairs[i]);
      TotalSnoc(Weight, pairs[..i], pairs[i]);
    }
    assert pairs[..|pairs|] == pairs;
    r := h.tanh(U / Max(W, PoolEps));
  }

  lemma MulLeft(w: real, x: real, y: real)
    requires 0.0 <= w && x <= y
    ensures w * x <= w * y
  {
    assert w * y - w * x == w * (y - x);
  }

  lemma WeightsNonNegative(pairs: seq<Pair>)
    ensures Total(Weight, pairs) >= 0.0
  {
    TotalNonNegative(Weight, pairs);
  }

  /** Each pair's rapidity lies between atanh(lo) and atanh(hi) when its clamped alignment lies in [lo, hi]. */
  lemma RapiditiesBetween(h: MathLib, pairs: seq<Pair>, lo: real, hi: real)
    requires h.Laws()
    requires -1.0 < lo <= hi < 1.0
    requires forall p <- pairs :: lo <= Clamp(p.a, ClampEps) <= hi
    ensures forall p <- pairs :: Atanh(h, lo) <= Rapidity(h, p.a) <= Atanh(h, hi)
  {
    forall p <- pairs
      ensures Atanh(h, lo) <= Rapidity(h, p.a) <= Atanh(h, hi)
    {
      var c := Clamp(p.a, ClampEps);
      AtanhMonotone(h, lo, c);
      AtanhMonotone(h, c, hi);
    }
  }

  /** With every rapidity in [l, u], each weighted term lies between l * w and u * w. */
  lemma WeightedTermsBetween(h: MathLib, pairs: seq<Pair>, l: real, u: real)
    requires forall p <- pairs :: l <= Rapidity(h, p.a) <= u
    ensures var w: Pair -> real := Weight;
      forall p <- pairs :: 0.0 <= w(p) && l * w(p) <= WeightedRapidityFn(h)(p) <= u * w(p)
  {
    forall p <- pairs
      ensures 0.0 <= Weight(p) && l * Weight(p) <= WeightedRapidityFn(h)(p) <= u * Weight(p)
    {
      ScaleBetween(Weight(p), l, Rapidity(h, p.a), u);
    }
  }

  lemma ScaleBetween(w: real, x: real, y: real, z: real)
    requires 0.0 <= w && x <= y <= z
    ensures x * w <= w * y <= z * w
  {
    MulLeft(w, x, y);
    MulLeft(w, y, z);
  }

  /** U / D for D >= W > ... stays between min(l, 0) and max(u, 0); for D = W, between l and u. */
  lemma QuotientBetween(U: real, W: real, D: real, l: real, u: real)
    requires 0.0 <= W <= D && 0.0 < D
    requires l * W <= U <= u * W
    ensures Min(l, 0.0) <= U / D <= Max(u, 0.0)
    ensures W == D ==> l <= U / D <= u
  {
    if l < 0.0 {
      MulLeft(-l, W, D);
    }
    if u > 0.0 {
      MulLeft(u, W, D);
    }
    LowerBoundOfQuotient(Min(l, 0.0), U, D);
    UpperBoundOfQuotient(Max(u, 0.0), U, D);
    if W == D {
      LowerBoundOfQuotient(l, U, D);
      UpperBoundOfQuotient(u, U, D);
    }
  }

  lemma LowerBoundOfQuotient(m: real, U: real, D: real)
    requires 0.0 < D && m * D <= U
    ensures m <= U / D
  {
    assert U / D - m == (U - m * D) / D;
  }

  lemma UpperBoundOfQuotient(m: real, U: real, D: real)
    requires 0.0 < D && U <= m * D
    ensures U / D <= m
  {
    assert m - U / D == (m * D - U) / D;
  }

  /**
   * The pool's result lies between the smallest and the largest clamped
   * input alignment once the total weight reaches the floor eps; below the
   * floor it is pulled toward 0 but never leaves [min(lo, 0), max(hi, 0)].
   */
  lemma PooledBetween(h: MathLib, pairs: seq<Pair>, lo: real, hi: real)
    requires h.Laws()
    requires -1.0 < lo <= hi < 1.0
    requires forall p <- pairs :: lo <= Clamp(p.a, ClampEps) <= hi
    ensures Total(Weight, pairs) >= PoolEps ==> lo <= Pooled(h, pairs) <= hi
    ensures Min(lo, 0.0) <= Pooled(h, pairs) <= Max(hi, 0.0)
  {
    RapiditiesBetween(h, pairs, lo, hi);
    PooledArgumentBetween(h, pairs, Atanh(h, lo), Atanh(h, hi));
    TanhBetween(h, lo, hi, Total(WeightedRapidityFn(h), pairs) / Max(Total(Weight, pairs), PoolEps));
  }

  /** With every rapidity in [l, u], the argument U / max(W, eps) of the pool's tanh is bounded by l and u. */
  lemma PooledArgumentBetween(h: MathLib, pairs: seq<Pair>, l: real, u: real)
    requires forall p <- pairs :: l <= Rapidity(h, p.a) <= u
    ensures ArgumentBetween(Total(WeightedRapidityFn(h), pairs), Total(Weight, pairs), l, u)
  {
    WeightedTermsBetween(h, pairs, l, u);
    PoolArgumentBetween(WeightedRapidityFn(h), Weight, pairs, l, u);
  }

  /**
   * When every term f(x) lies between l * w(x) and u * w(x) for weights
   * w(x) >= 0, U / max(W, eps) lies between l and u once W reaches eps,
   * and between min(l, 0) and max(u, 0) always.
   */
  lemma PoolArgumentBetween<T>(f: T -> real, w: T -> real, xs: seq<T>, l: real, u: real)
    requires forall x <- xs :: 0.0 <= w(x) && l * w(x) <= f(x) <= u * w(x)
    ensures ArgumentBetween(Total(f, xs), Total(w, xs), l, u)
  {
    var U, W := Total(f, xs), Total(w, xs);
    TotalsBetween(f, w, xs, l, u);
    FlooredQuotientBetween(U, W, l, u);
  }

  lemma TotalsBetween<T>(f: T -> real, w: T -> real, xs: seq<T>, l: real, u: real)
    requires forall x <- xs :: 0.0 <= w(x) && l * w(x) <= f(x) <= u * w(x)
    ensures 0.0 <= Total(w, xs) && l * Total(w, xs) <= Total(f, xs) <= u * Total(w, xs)
  {
    TotalNonNegative(w, xs);
    TotalBetween(f, w, xs, l, u);
  }

  /**
   * The bounds on the pool's tanh argument U / max(W, eps): between l and u
   * once W reaches eps, and between min(l, 0) and max(u, 0) always.
   */
  predicate ArgumentBetween(U: real, W: real, l: real, u: real)
  {
    && Min(l, 0.0) <= U / Max(W, PoolEps) <= Max(u, 0.0)
    && (W >= PoolEps ==> l <= U / Max(W, PoolEps) <= u)
  }

  lemma FlooredQuotientBetween(U: real, W: real, l: real, u: real)
    requires 0.0 <= W && l * W <= U <= u * W
    ensures ArgumentBetween(U, W, l, u)
  {
    QuotientBetween(U, W, Max(W, PoolEps), l, u);
  }

  /** tanh of a value between atanh(lo) and atanh(hi), or between those widened to 0. */
  lemma TanhBetween(h: MathLib, lo: real, hi: real, x: real)
    requires h.Laws()
    requires -1.0 < lo <= hi < 1.0
    requires Min(Atanh(h, lo), 0.0) <= x <= Max(Atanh(h, hi), 0.0)
    ensures Min(lo, 0.0) <= h.tanh(x) <= Max(hi, 0.0)
    ensures Atanh(h, lo) <= x <= Atanh(h, hi) ==> lo <= h.tanh(x) <= hi
  {
    var ul, uh := Atanh(h, lo), Atanh(h, hi);
    AtanhSign(h, lo);
    AtanhSign(h, hi);
    TanhOfAtanh(h, lo);
    TanhOfAtanh(h, hi);
    TanhOfZero(h);
    TanhMonotone(h, Min(ul, 0.0), x);
    TanhMonotone(h, x, Max(uh, 0.0));
    if ul <= x <= uh {
      TanhMonotone(h, ul, x);
      TanhMonotone(h, x, uh);
    }
  }

  /** A pool of two whose weights reach the floor lies between its two clamped alignments. */
  lemma PooledPairBetween(h: MathLib, p: Pair, q: Pair)
    requires h.Laws()
    requires Weight(p) + Weight(q) >= PoolEps
    ensures var cp, cq := Clamp(p.a, ClampEps), Clamp(q.a, ClampEps);
      Min(cp, cq) <= Pooled(h, [p, q]) <= Max(cp, cq)
  {
    TotalOfPair(Weight, p, q);
    PooledBetween(h, [p, q], Min(Clamp(p.a, ClampEps), Clamp(q.a, ClampEps)), Max(Clamp(p.a, ClampEps), Clamp(q.a, ClampEps)));
  }

  /** The pool never leaves the clamp band, so its result is strictly inside (-1, 1). */
  lemma PooledInRange(h: MathLib, pairs: seq<Pair>)
    requires h.Laws()
    ensures -1.0 + ClampEps <= Pooled(h, pairs) <= 1.0 - ClampEps
    ensures -1.0 < Pooled(h, pairs) < 1.0
  {
    PooledBetween(h, pairs, -1.0 + ClampEps, 1.0 - ClampEps);
  }

  /** Only the multiset of pairs matters, not their order. */
  lemma PooledPermutation(h: MathLib, pairs: seq<Pair>, shuffled: seq<Pair>)
    requires multiset(pairs) == multiset(shuffled)
    ensures Pooled(h, pairs) == Pooled(h, shuffled)
  {
    TotalPermutation(WeightedRapidityFn(h), pairs, shuffled);
    TotalPermutation(Weight, pairs, shuffled);
  }

  /** The weight is |m|: flipping the sign of any magnitude changes nothing. */
  lemma PooledIgnoresMagnitudeSign(h: MathLib, pairs: seq<Pair>, flipped: seq<Pair>)
    requires |pairs| == |flipped|
    requires forall i :: 0 <= i < |pairs| ==> flipped[i].a == pairs[i].a
    requires forall i :: 0 <= i < |pairs| ==> flipped[i].m == pairs[i].m || flipped[i].m == -pairs[i].m
    ensures Pooled(h, pairs) == Pooled(h, flipped)
  {
    TotalPointwise(WeightedRapidityFn(h), pairs, WeightedRapidityFn(h), flipped);
    TotalPointwise(Weight, pairs, Weight, flipped);
  }

  /** A single pair whose weight reaches the floor pools to its clamped alignment. */
  lemma PooledSingle(h: MathLib, a: real, m: real)
    requires h.Laws()
    requires Abs(m) >= PoolEps
    ensures Pooled(h, [Pair(a, m)]) == Clamp(a, ClampEps)
  {
    var p := Pair(a, m);
    assert [p][..0] == [];
    var u := Rapidity(h, a);
    assert Total(WeightedRapidityFn(h), [p]) == Abs(m) * u;
    assert Total(Weight, [p]) == Abs(m);
    assert Abs(m) * u / Abs(m) == u;
    TanhOfAtanh(h, Clamp(a, ClampEps));
  }

  /**
   * A single pair whose weight is positive but below the floor does not pool
   * to its clamped alignment: the rapidity is divided by eps, not by W, and
   * the result falls strictly between 0 and clamp(a).
   */
  lemma PooledSingleBelowFloor(h: MathLib, a: real, m: real)
    requires h.Laws()
    requires 0.0 < Abs(m) < PoolEps
    requires Clamp(a, ClampEps) > 0.0
    ensures 0.0 < Pooled(h, [Pair(a, m)]) < Clamp(a, ClampEps)
  {
    var p := Pair(a, m);
    assert [p][..0] == [];
    var c := Clamp(a, ClampEps);
    var u := Rapidity(h, a);
    AtanhSign(h, c);
    assert Total(WeightedRapidityFn(h), [p]) == Abs(m) * u;
    assert Total(Weight, [p]) == Abs(m);
    var x := Abs(m) * u / PoolEps;
    ScaledDownBelow(Abs(m), u, PoolEps);
    TanhOfZero(h);
    TanhOfAtanh(h, c);
    TanhStrictlyIncreasing(h, 0.0, x);
    TanhStrictlyIncreasing(h, x, u);
  }

  lemma ScaledDownBelow(w: real, u: real, e: real)
    requires 0.0 < w < e && 0.0 < u
    ensures 0.0 < w * u / e < u
  {
    var t := w / e;
    QuotientOfPositives(w, e);
    QuotientOfPositives(e - w, e);
    assert e / e == 1.0;
    assert (e - w) / e == e / e - w / e;
    assert w * u / e == t * u;
    assert u - t * u == (1.0 - t) * u;
  }

  /** When every magnitude is 0, U = W = 0 and the pool returns tanh(0) = 0. */
  lemma PooledAllZeroWeights(h: MathLib, pairs: seq<Pair>)
    requires h.Laws()
    requires forall i :: 0 <= i < |pairs| ==> pairs[i].m == 0.0
    ensures Pooled(h, pairs) == 0.0
  {
    TotalOfZeros(WeightedRapidityFn(h), pairs);
    TotalOfZeros(Weight, pairs);
    TanhOfZero(h);
  }

  /** A pair with magnitude 0 contributes nothing to U or W, wherever it stands. */
  lemma PooledDropsZeroWeight(h: MathLib, pairs: seq<Pair>, k: nat, a: real)
    requires k <= |pairs|
    ensures Pooled(h, pairs[..k] + [Pair(a, 0.0)] + pairs[k..]) == Pooled(h, pairs)
  {
    var z := Pair(a, 0.0);
    assert pairs == pairs[..k] + pairs[k..];
    TotalConcat(WeightedRapidityFn(h), pairs[..k] + [z], pairs[k..]);
    TotalConcat(WeightedRapidityFn(h), pairs[..k], [z]);
    TotalConcat(WeightedRapidityFn(h), pairs[..k], pairs[k..]);
    TotalConcat(Weight, pairs[..k] + [z], pairs[k..]);
    TotalConcat(Weight, pairs[..k], [z]);
    TotalConcat(Weight, pairs[..k], pairs[k..]);
    assert [z][..0] == [];
  }

  /** The rapidity u of a pair's alignment, ignoring its weight. */
  function PairRapidityFn(h: MathLib): Pair -> real
  {
    (p: Pair) => Rapidity(h, p.a)
  }

  /**
   * With all weights equal, pooling is plain averaging in rapidity space:
   * tanh of the mean rapidity, provided the total weight reaches the floor.
   */
  lemma {:induction false} EqualWeightsAverage(h: MathLib, pairs: seq<Pair>, w: real)
    requires pairs != [] && 0.0 < w
    requires forall i :: 0 <= i < |pairs| ==> Weight(pairs[i]) == w
    requires (|pairs| as real) * w >= PoolEps
    ensures Pooled(h, pairs) == h.tanh(Total(PairRapidityFn(h), pairs) / (|pairs| as real))
  {
    var n := |pairs| as real;
    var sum := Total(PairRapidityFn(h), pairs);
    var U, W := Total(WeightedRapidityFn(h), pairs), Total(Weight, pairs);
    EqualWeightTotals(h, pairs, w);
    FlooredMean(U, W, sum, n, w);
  }

  /** U = w * (sum of u) and W = n * w when every weight is w. */
  lemma {:induction false} EqualWeightTotals(h: MathLib, pairs: seq<Pair>, w: real)
    requires forall i :: 0 <= i < |pairs| ==> Weight(pairs[i]) == w
    ensures Total(WeightedRapidityFn(h), pairs) == w * Total(PairRapidityFn(h), pairs)
    ensures Total(Weight, pairs) == (|pairs| as real) * w
  {
    EqualWeightedTotal(h, pairs, w);
    EqualWeightTotal(pairs, w);
  }

  lemma {:induction false} EqualWeightedTotal(h: MathLib, pairs: seq<Pair>, w: real)
    requires forall i :: 0 <= i < |pairs| ==> Weight(pairs[i]) == w
    ensures Total(WeightedRapidityFn(h), pairs) == w * Total(PairRapidityFn(h), pairs)
    decreases |pairs|
  {
    if pairs != [] {
      var init, last := pairs[..|pairs| - 1], pairs[|pairs| - 1];
      assert forall i :: 0 <= i < |init| ==> init[i] == pairs[i];
      EqualWeightedTotal(h, init, w);
      var s, u := Total(PairRapidityFn(h), init), Rapidity(h, last.a);
      assert Total(PairRapidityFn(h), pairs) == s + u;
      assert Total(WeightedRapidityFn(h), pairs) == w * s + w * u;
      assert w * s + w * u == w * (s + u);
    }
  }

  lemma {:induction false} EqualWeightTotal(pairs: seq<Pair>, w: real)
    requires forall i :: 0 <= i < |pairs| ==> Weight(pairs[i]) == w
    ensures Total(Weight, pairs) == (|pairs| as real) * w
    decreases |pairs|
  {
    if pairs != [] {
      var init := pairs[..|pairs| - 1];
      assert forall i :: 0 <= i < |init| ==> init[i] == pairs[i];
      EqualWeightTotal(init, w);
      assert Total(Weight, pairs) == (|init| as real) * w + w;
    }
  }

  /** U / max(W, eps) is the mean sum / n when U = w * sum and W = n * w reaches eps. */
  lemma FlooredMean(U: real, W: real, sum: real, n: real, w: real)
    requires 0.0 < n && 0.0 < w && n * w >= PoolEps
    requires U == w * sum && W == n * w
    ensures U / Max(W, PoolEps) == sum / n
  {
    assert Max(W, PoolEps) == W;
    assert (sum / n) * W == w * sum;
  }

  // ---------------------------------------------------------------------
  // Sum chaining

  /** tanh(atanh(clamp(a1)) + atanh(clamp(a2)) + ...). */
  function SumChain(h: MathLib, alignments: seq<real>): real
  {
    h.tanh(Total(RapidityFn(h), alignments))
  }

  /** ssm_align_sum: accumulates U over the list, in order. */
  method AlignSum(h: MathLib, alignments: seq<real>) returns (r: real)
    ensures r == SumChain(h, alignments)
  {
    var U := 0.0;
    for i := 0 to |alignments|
      invariant U == Total(RapidityFn(h), alignments[..i])
    {
      var a := Clamp(alignments[i], ClampEps);
      U := U + 0.5 * h.log((1.0 + a) / (1.0 - a));
      assert alignments[..i + 1] == alignments[..i] + [alignments[i]];
      TotalSnoc(RapidityFn(h), alignments[..i], alignments[i]);
    }
    assert alignments[..|alignments|] == alignments;
    r := h.tanh(U);
  }

  /** The product of the odds of the clamped alignments. */
  function OddsProduct(alignments: seq<real>): (p: real)
    ensures 0.0 < p
    decreases |alignments|
  {
    if alignments == [] then 1.0
    else
      var init := OddsProduct(alignments[..|alignments| - 1]);
      var o := Odds(Clamp(alignments[|alignments| - 1], ClampEps));
      QuotientOfPositives(init * o, 1.0);
      init * o
  }

  /** A sum of rapidities is half the logarithm of the product of the odds. */
  lemma {:induction false} RapiditySumIsHalfLog(h: MathLib, alignments: seq<real>)
    requires h.Laws()
    ensures Total(RapidityFn(h), alignments) == 0.5 * h.log(OddsProduct(alignments))
    decreases |alignments|
  {
    if alignments == [] {
      LogOfOne(h);
    } else {
      var init, c := alignments[..|alignments| - 1], Clamp(alignments[|alignments| - 1], ClampEps);
      RapiditySumIsHalfLog(h, init);
      var P, o := OddsProduct(init), Odds(c);
      assert Total(RapidityFn(h), alignments) == Total(RapidityFn(h), init) + 0.5 * h.log(o);
      assert OddsProduct(alignments) == P * o;
      HalfLogOfProduct(h, P, o);
    }
  }

  lemma HalfLogOfProduct(h: MathLib, x: real, y: real)
    requires h.Laws()
    requires 0.0 < x && 0.0 < y
    ensures 0.5 * h.log(x) + 0.5 * h.log(y) == 0.5 * h.log(x * y)
  {
    LogOfProduct(h, x, y);
  }

  /** The chain in closed form: the alignment whose odds are the product of the inputs' odds. */
  lemma SumChainClosedForm(h: MathLib, alignments: seq<real>)
    requires h.Laws()
    ensures SumChain(h, alignments) == FromOdds(OddsProduct(alignments))
  {
    RapiditySumIsHalfLog(h, alignments);
    TanhOfHalfLog(h, OddsProduct(alignments));
  }

  lemma SumChainInRange(h: MathLib, alignments: seq<real>)
    requires h.Laws()
    ensures -1.0 < SumChain(h, alignments) < 1.0
  {
    SumChainClosedForm(h, alignments);
  }

  lemma SumChainEmpty(h: MathLib)
    requires h.Laws()
    ensures SumChain(h, []) == 0.0
  {
    TanhOfZero(h);
  }

  lemma SumChainSingleton(h: MathLib, a: real)
    requires h.Laws()
    ensures SumChain(h, [a]) == Clamp(a, ClampEps)
  {
    assert [a][..0] == [];
    assert Total(RapidityFn(h), [a]) == Rapidity(h, a);
    TanhOfAtanh(h, Clamp(a, ClampEps));
  }

  /** The chain does not depend on the order of its list. */
  lemma SumChainPermutation(h: MathLib, alignments: seq<real>, shuffled: seq<real>)
    requires multiset(alignments) == multiset(shuffled)
    ensures SumChain(h, alignments) == SumChain(h, shuffled)
  {
    TotalPermutation(RapidityFn(h), alignments, shuffled);
  }

  /** An exact-zero alignment has rapidity 0 and drops out of the chain. */
  lemma SumChainDropsZero(h: MathLib, alignments: seq<real>, k: nat)
    requires h.Laws()
    requires k <= |alignments|
    ensures SumChain(h, alignments[..k] + [0.0] + alignments[k..]) == SumChain(h, alignments)
  {
    var f := RapidityFn(h);
    assert alignments == alignments[..k] + alignments[k..];
    TotalConcat(f, alignments[..k] + [0.0], alignments[k..]);
    TotalConcat(f, alignments[..k], [0.0]);
    TotalConcat(f, alignments[..k], alignments[k..]);
    assert [0.0][..0] == [];
    AtanhOfZero(h);
  }

  /** Chaining non-negative alignments never decreases any of them. */
  lemma SumChainAtLeast(h: MathLib, alignments: seq<real>, j: nat)
    requires h.Laws()
    requires forall i :: 0 <= i < |alignments| ==> alignments[i] >= 0.0
    requires j < |alignments|
    ensures SumChain(h, alignments) >= Clamp(alignments[j], ClampEps)
  {
    var f := RapidityFn(h);
    forall i | 0 <= i < |alignments|
      ensures f(alignments[i]) >= 0.0
    {
      AtanhSign(h, Clamp(alignments[i], ClampEps));
    }
    TotalAtLeastTerm(f, alignments, j);
    TanhMonotone(h, f(alignments[j]), Total(f, alignments));
    TanhOfAtanh(h, Clamp(alignments[j], ClampEps));
  }

  /** Chaining non-negative alignments gives a non-negative alignment. */
  lemma SumChainNonNegative(h: MathLib, alignments: seq<real>)
    requires h.Laws()
    requires forall i :: 0 <= i < |alignments| ==> alignments[i] >= 0.0
    ensures SumChain(h, alignments) >= 0.0
  {
    if alignments == [] {
      SumChainEmpty(h);
    } else {
      SumChainAtLeast(h, alignments, 0);
    }
  }

  /**
   * While the chain's result stays inside the clamp band, clamping it again
   * is the identity and its rapidity is exactly the sum of the inputs'.
   */
  lemma RapidityOfSumChain(h: MathLib, alignments: seq<real>)
    requires h.Laws()
    requires -1.0 + ClampEps <= SumChain(h, alignments) <= 1.0 - ClampEps
    ensures Rapidity(h, SumChain(h, alignments)) == Total(RapidityFn(h), alignments)
  {
    SumChainClosedForm(h, alignments);
    RapiditySumIsHalfLog(h, alignments);
    AtanhOfFromOdds(h, OddsProduct(alignments));
  }

  // ---------------------------------------------------------------------
  // Product chaining

  /** ssm_align_product: tanh(atanh(clamp(a1)) + atanh(clamp(a2))). */
  function AlignProduct(h: MathLib, a1: real, a2: real): real
  {
    var c1 := Clamp(a1, ClampEps);
    var c2 := Clamp(a2, ClampEps);
    h.tanh(Atanh(h, c1) + Atanh(h, c2))
  }

  /** The relativistic addition law on clamped inputs, strictly inside (-1, 1). */
  lemma ProductClosedForm(h: MathLib, a1: real, a2: real)
    requires h.Laws()
    ensures var c1, c2 := Clamp(a1, ClampEps), Clamp(a2, ClampEps);
      && 1.0 + c1 * c2 > 0.0
      && AlignProduct(h, a1, a2) == (c1 + c2) / (1.0 + c1 * c2)
    ensures -1.0 < AlignProduct(h, a1, a2) < 1.0
  {
    AdditionLaw(h, Clamp(a1, ClampEps), Clamp(a2, ClampEps));
  }

  lemma ProductSymmetric(h: MathLib, a1: real, a2: real)
    ensures AlignProduct(h, a1, a2) == AlignProduct(h, a2, a1)
  {
  }

  /** The two-element chain is the product. */
  lemma SumChainPair(h: MathLib, a1: real, a2: real)
    ensures SumChain(h, [a1, a2]) == AlignProduct(h, a1, a2)
  {
    assert [a1, a2][..1] == [a1];
    assert [a1][..0] == [];
    assert Total(RapidityFn(h), [a1]) == Rapidity(h, a1);
    assert Total(RapidityFn(h), [a1, a2]) == Rapidity(h, a1) + Rapidity(h, a2);
  }

  /** 0 is the identity of the product: product(a, 0) = clamp(a). */
  lemma ProductIdentity(h: MathLib, a: real)
    requires h.Laws()
    ensures AlignProduct(h, a, 0.0) == Clamp(a, ClampEps)
  {
    ProductClosedForm(h, a, 0.0);
  }

  /** a and -a cancel: product(a, -a) = 0. */
  lemma ProductInverse(h: MathLib, a: real)
    requires h.Laws()
    ensures AlignProduct(h, a, -a) == 0.0
  {
    ClampOdd(a, ClampEps);
    ProductClosedForm(h, a, -a);
  }

  /** Drift-positive: two non-negative clamped inputs give at least the larger of them. */
  lemma ProductDominates(h: MathLib, a1: real, a2: real)
    requires h.Laws()
    requires Clamp(a1, ClampEps) >= 0.0 && Clamp(a2, ClampEps) >= 0.0
    ensures AlignProduct(h, a1, a2) >= Max(Clamp(a1, ClampEps), Clamp(a2, ClampEps))
    ensures Clamp(a1, ClampEps) > 0.0 || Clamp(a2, ClampEps) > 0.0 ==> AlignProduct(h, a1, a2) > 0.0
  {
    ProductClosedForm(h, a1, a2);
    AdditionLawDominates(Clamp(a1, ClampEps), Clamp(a2, ClampEps));
  }

  /** For 0 <= c1, c2 < 1, (c1 + c2) / (1 + c1 * c2) is at least c1 and at least c2. */
  lemma AdditionLawDominates(c1: real, c2: real)
    requires 0.0 <= c1 < 1.0 && 0.0 <= c2 < 1.0
    ensures (c1 + c2) / (1.0 + c1 * c2) >= Max(c1, c2)
    ensures c1 > 0.0 || c2 > 0.0 ==> (c1 + c2) / (1.0 + c1 * c2) > 0.0
  {
    var d := 1.0 + c1 * c2;
    assert d >= 1.0;
    var r := (c1 + c2) / d;
    assert r * d == c1 + c2;
    assert (r - c1) * d == c2 * (1.0 - c1 * c1);
    assert (r - c2) * d == c1 * (1.0 - c2 * c2);
    MulLeft(c1, c1, 1.0);
    MulLeft(c2, c2, 1.0);
    assert c2 * (1.0 - c1 * c1) >= 0.0;
    assert c1 * (1.0 - c2 * c2) >= 0.0;
  }

  // ---------------------------------------------------------------------
  // Division chaining

  /** ssm_align_div: tanh(atanh(clamp(a_num)) - atanh(clamp(a_den))). */
  function AlignDiv(h: MathLib, aNum: real, aDen: real): real
  {
    var cn := Clamp(aNum, ClampEps);
    var cd := Clamp(aDen, ClampEps);
    h.tanh(Atanh(h, cn) - Atanh(h, cd))
  }

  /** The subtraction law on clamped inputs, strictly inside (-1, 1). */
  lemma DivClosedForm(h: MathLib, aNum: real, aDen: real)
    requires h.Laws()
    ensures var cn, cd := Clamp(aNum, ClampEps), Clamp(aDen, ClampEps);
      && 1.0 - cn * cd > 0.0
      && AlignDiv(h, aNum, aDen) == (cn - cd) / (1.0 - cn * cd)
    ensures -1.0 < AlignDiv(h, aNum, aDen) < 1.0
  {
    SubtractionLaw(h, Clamp(aNum, ClampEps), Clamp(aDen, ClampEps));
  }

  /** A quantity divided by itself has zero net alignment. */
  lemma DivSelf(h: MathLib, a: real)
    requires h.Laws()
    ensures AlignDiv(h, a, a) == 0.0
  {
    TanhOfZero(h);
  }

  /** Dividing by an alignment of 0 leaves the clamped numerator. */
  lemma DivByZeroAlignment(h: MathLib, a: real)
    requires h.Laws()
    ensures AlignDiv(h, a, 0.0) == Clamp(a, ClampEps)
  {
    AtanhOfZero(h);
    TanhOfAtanh(h, Clamp(a, ClampEps));
  }

  lemma DivAntisymmetric(h: MathLib, x: real, y: real)
    requires h.Laws()
    ensures AlignDiv(h, x, y) == -AlignDiv(h, y, x)
  {
    SubtractionAntisymmetric(h, Clamp(x, ClampEps), Clamp(y, ClampEps));
  }

  /** Division is chaining with the negated denominator: div(x, y) = sum([x, -y]). */
  lemma DivIsSumWithNegation(h: MathLib, x: real, y: real)
    requires h.Laws()
    ensures AlignDiv(h, x, y) == SumChain(h, [x, -y])
  {
    SumChainPair(h, x, -y);
    ClampOdd(y, ClampEps);
    AtanhOdd(h, Clamp(y, ClampEps));
  }

  /** The result has the sign of clamp(num) - clamp(den). */
  lemma DivSign(h: MathLib, aNum: real, aDen: real)
    requires h.Laws()
    ensures var cn, cd := Clamp(aNum, ClampEps), Clamp(aDen, ClampEps);
      && (AlignDiv(h, aNum, aDen) < 0.0 <==> cn < cd)
      && (AlignDiv(h, aNum, aDen) == 0.0 <==> cn == cd)
      && (AlignDiv(h, aNum, aDen) > 0.0 <==> cn > cd)
  {
    var cn, cd := Clamp(aNum, ClampEps), Clamp(aDen, ClampEps);
    DivClosedForm(h, aNum, aDen);
    QuotientSign(cn - cd, 1.0 - cn * cd);
  }

  lemma QuotientSign(n: real, d: real)
    requires d > 0.0
    ensures (n / d < 0.0 <==> n < 0.0) && (n / d == 0.0 <==> n == 0.0) && (n / d > 0.0 <==> n > 0.0)
  {
    var r := n / d;
    assert r * d == n;
  }

  /** The result increases with the numerator and decreases with the denominator. */
  lemma DivMonotone(h: MathLib, n1: real, n2: real, d1: real, d2: real)
    requires h.Laws()
    requires n1 <= n2 && d2 <= d1
    ensures AlignDiv(h, n1, d1) <= AlignDiv(h, n2, d2)
  {
    ClampMonotone(n1, n2, ClampEps);
    ClampMonotone(d2, d1, ClampEps);
    AtanhMonotone(h, Clamp(n1, ClampEps), Clamp(n2, ClampEps));
    AtanhMonotone(h, Clamp(d2, ClampEps), Clamp(d1, ClampEps));
    TanhMonotone(h, Rapidity(h, n1) - Rapidity(h, d1), Rapidity(h, n2) - Rapidity(h, d2));
  }

  /**
   * While the quotient's alignment stays inside the clamp band, its rapidity
   * is exactly the numerator's minus the denominator's.
   */
  lemma RapidityOfDiv(h: MathLib, aNum: real, aDen: real)
    requires h.Laws()
    requires -1.0 + ClampEps <= AlignDiv(h, aNum, aDen) <= 1.0 - ClampEps
    ensures Rapidity(h, AlignDiv(h, aNum, aDen)) == Rapidity(h, aNum) - Rapidity(h, aDen)
  {
    var cn, cd := Clamp(aNum, ClampEps), Clamp(aDen, ClampEps);
    var q := Odds(cn) / Odds(cd);
    TanhOfAtanhDifference(h, cn, cd);
    AtanhOfFromOdds(h, q);
  }
}
