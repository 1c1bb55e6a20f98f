/**
 * Finite sums over a sequence, accumulated left to right as the scenario
 * scripts' `for` loops do (`U += ...`), and the facts about them that the
 * operators need: splitting, insensitivity to order, pointwise comparison.
 */
module Sums {

  /** f(xs[0]) + f(xs[1]) + ... + f(xs[|xs| - 1]), added in that order. */
  function Total<T>(f: T -> real, xs: seq<T>): real
    decreases |xs|
  {
    if xs == [] then 0.0 else Total(f, xs[..|xs| - 1]) + f(xs[|xs| - 1])
  }

  /** One more step of the accumulating loop. */
  lemma TotalSnoc<T>(f: T -> real, xs: seq<T>, x: T)
    ensures Total(f, xs + [x]) == Total(f, xs) + f(x)
  {
    assert (xs + [x])[..|xs|] == xs;
  }

  lemma {:induction false} TotalConcat<T>(f: T -> real, xs: seq<T>, ys: seq<T>)
    ensures Total(f, xs + ys) == Total(f, xs) + Total(f, ys)
    decreases |ys|
  {
    if ys == [] {
      assert xs + ys == xs;
    } else {
      var init, last := ys[..|ys| - 1], ys[|ys| - 1];
      assert xs + ys == (xs + init) + [last];
      TotalSnoc(f, xs + init, last);
      TotalConcat(f, xs, init);
    }
  }

  /** The sum does not depend on the order of the terms. */
  lemma {:induction false} TotalPermutation<T>(f: T -> real, xs: seq<T>, ys: seq<T>)
    requires multiset(xs) == multiset(ys)
    ensures Total(f, xs) == Total(f, ys)
    decreases |xs|
  {
    if xs == [] {
      assert |ys| == |multiset(ys)| == 0;
    } else {
      var init, last := xs[..|xs| - 1], xs[|xs| - 1];
      assert xs == init + [last];
      assert last in multiset(ys);
      var k :| 0 <= k < |ys| && ys[k] == last;
      var rest := ys[..k] + ys[k + 1..];
      assert ys == ys[..k] + [last] + ys[k + 1..];
      assert multiset(rest) == multiset(ys) - multiset{last};
      assert multiset(init) == multiset(xs) - multiset{last};
      TotalPermutation(f, init, rest);
      TotalConcat(f, ys[..k] + [last], ys[k + 1..]);
      TotalSnoc(f, ys[..k], last);
      TotalConcat(f, ys[..k], ys[k + 1..]);
    }
  }

  /** Two sums agree when their terms agree position by position. */
  lemma {:induction false} TotalPointwise<T, U>(f: T -> real, xs: seq<T>, g: U -> real, ys: seq<U>)
    requires |xs| == |ys|
    requires forall i :: 0 <= i < |xs| ==> f(xs[i]) == g(ys[i])
    ensures Total(f, xs) == Total(g, ys)
    decreases |xs|
  {
    if xs != [] {
      TotalPointwise(f, xs[..|xs| - 1], g, ys[..|ys| - 1]);
    }
  }

  /** Terms that are all zero add up to zero. */
  lemma {:induction false} TotalOfZeros<T>(f: T -> real, xs: seq<T>)
    requires forall i :: 0 <= i < |xs| ==> f(xs[i]) == 0.0
    ensures Total(f, xs) == 0.0
    decreases |xs|
  {
    if xs != [] {
      TotalOfZeros(f, xs[..|xs| - 1]);
    }
  }

  /** A sum of non-negative terms is non-negative. */
  lemma {:induction false} TotalNonNegative<T>(f: T -> real, xs: seq<T>)
    requires forall i :: 0 <= i < |xs| ==> f(xs[i]) >= 0.0
    ensures Total(f, xs) >= 0.0
    decreases |xs|
  {
    if xs != [] {
      TotalNonNegative(f, xs[..|xs| - 1]);
    }
  }

  /** A sum of non-negative terms is at least each of its terms. */
  lemma {:induction false} TotalAtLeastTerm<T>(f: T -> real, xs: seq<T>, j: nat)
    requires forall i :: 0 <= i < |xs| ==> f(xs[i]) >= 0.0
    requires j < |xs|
    ensures Total(f, xs) >= f(xs[j])
    decreases |xs|
  {
    var init := xs[..|xs| - 1];
    if j < |xs| - 1 {
      TotalAtLeastTerm(f, init, j);
    } else if init != [] {
      TotalAtLeastTerm(f, init, 0);
    }
  }

  lemma TotalOfPair<T>(f: T -> real, x: T, y: T)
    ensures Total(f, [x, y]) == f(x) + f(y)
  {
    assert [x, y][..1] == [x];
    assert [x][..0] == [];
    assert Total(f, [x]) == f(x);
  }

  lemma TotalOfTriple<T>(f: T -> real, x: T, y: T, z: T)
    ensures Total(f, [x, y, z]) == f(x) + f(y) + f(z)
  {
    assert [x, y, z][..2] == [x, y];
    TotalOfPair(f, x, y);
  }

  /**
   * When every term f(x) lies between l * w(x) and u * w(x), the sum of f
   * lies between l and u times the sum of w.
   */
  lemma {:induction false} TotalBetween<T>(f: T -> real, w: T -> real, xs: seq<T>, l: real, u: real)
    requires forall x <- xs :: l * w(x) <= f(x) <= u * w(x)
    ensures l * Total(w, xs) <= Total(f, xs) <= u * Total(w, xs)
    decreases |xs|
  {
    if xs == [] {
      assert l * Total(w, xs) == 0.0 && u * Total(w, xs) == 0.0;
    } else {
      var init, last := xs[..|xs| - 1], xs[|xs| - 1];
      TotalBetween(f, w, init, l, u);
      StepBetween(l, u, Total(w, init), w(last), Total(f, init), f(last));
    }
  }

  lemma StepBetween(l: real, u: real, W: real, w: real, F: real, f: real)
    requires l * W <= F <= u * W
    requires l * w <= f <= u * w
    ensures l * (W + w) <= F + f <= u * (W + w)
  {
    assert l * (W + w) == l * W + l * w;
    assert u * (W + w) == u * W + u * w;
  }
}
