/** The sums the correlation is built from, over exact reals: the plain sum,
    the mean, the deviations from a mean, and the unnormalised sums of their
    products, with the facts about them that make the coefficient a
    correlation. */
module Statistics {

  /** What `v ** 0.5` yields for a non-negative `v`: the non-negative root. */
  ghost predicate IsSquareRoot(sqrt: real -> real) {
    forall v :: 0.0 <= v ==> 0.0 <= sqrt(v) && sqrt(v) * sqrt(v) == v
  }

  function Sum(s: seq<real>): real {
    if s == [] then 0.0 else s[0] + Sum(s[1..])
  }

  /** The arithmetic mean: the value that, counted once per element, gives
      the sum. */
  function Mean(s: seq<real>): (m: real)
    requires s != []
    ensures m * |s| as real == Sum(s)
  {
    Sum(s) / |s| as real
  }

  /** The series `x - m` for every `x` of `s`, in order. */
  function Deviations(s: seq<real>, m: real): seq<real> {
    seq(|s|, i requires 0 <= i < |s| => s[i] - m)
  }

  /** The sum of `u[i] * v[i]`: with `u == v` a sum of squares. */
  function SumOfProducts(u: seq<real>, v: seq<real>): real
    requires |u| == |v|
  {
    if u == [] then 0.0 else u[0] * v[0] + SumOfProducts(u[1..], v[1..])
  }

  /** The series `f(x)` for every `x` of `s`, in order. */
  function Map<T>(s: seq<T>, f: T -> real): (r: seq<real>)
    ensures |r| == |s|
  {
    seq(|s|, i requires 0 <= i < |s| => f(s[i]))
  }

  lemma {:induction false} SumConcat(a: seq<real>, b: seq<real>)
    ensures Sum(a + b) == Sum(a) + Sum(b)
  {
    if a != [] {
      assert (a + b)[1..] == a[1..] + b;
      SumConcat(a[1..], b);
      calc {
        Sum(a + b);
        (a + b)[0] + Sum((a + b)[1..]);
        a[0] + Sum(a[1..] + b);
        a[0] + Sum(a[1..]) + Sum(b);
        Sum(a) + Sum(b);
      }
    } else {
      assert a + b == b;
    }
  }

  /** Removing the element at `k` from `t`: `t` is the parts around it with
      `t[k]` between them, and its multiset loses exactly `t[k]`. */
  lemma SplitAt<T>(t: seq<T>, k: int)
    requires 0 <= k < |t|
    ensures t == t[..k] + [t[k]] + t[k + 1..]
    ensures multiset(t[..k] + t[k + 1..]) == multiset(t) - multiset{t[k]}
  {
    assert t == t[..k] + [t[k]] + t[k + 1..];
  }

  /** Taking the element at `k` out of `t` takes `f(t[k])` out of the sum. */
  lemma SumOfMapRemove<T>(t: seq<T>, k: int, f: T -> real)
    requires 0 <= k < |t|
    ensures Sum(Map(t, f)) == f(t[k]) + Sum(Map(t[..k] + t[k + 1..], f))
  {
    assert Map(t, f) == Map(t[..k], f) + ([f(t[k])] + Map(t[k + 1..], f));
    assert Map(t[..k] + t[k + 1..], f) == Map(t[..k], f) + Map(t[k + 1..], f);
    assert [f(t[k])] + Map(t[k + 1..], f) == [f(t[k])] + Map(t[k + 1..], f);
    SumConcat(Map(t[..k], f), [f(t[k])] + Map(t[k + 1..], f));
    SumConcat([f(t[k])], Map(t[k + 1..], f));
    assert Sum([f(t[k])]) == f(t[k]) by {
      assert [f(t[k])][1..] == [];
    }
    SumConcat(Map(t[..k], f), Map(t[k + 1..], f));
  }

  /** A sum over the elements of a series does not depend on their order. */
  lemma {:induction false} SumOfMapPermutation<T>(s: seq<T>, t: seq<T>, f: T -> real)
    requires multiset(s) == multiset(t)
    ensures Sum(Map(s, f)) == Sum(Map(t, f))
  {
    if s == [] {
      assert |t| == |multiset(t)| == 0;
    } else {
      assert s[0] in multiset(t);
      var k :| 0 <= k < |t| && t[k] == s[0];
      SplitAt(t, k);
      assert s == [s[0]] + s[1..];
      SumOfMapPermutation(s[1..], t[..k] + t[k + 1..], f);
      SumOfMapRemove(s, 0, f);
      SumOfMapRemove(t, k, f);
      assert s[..0] + s[1..] == s[1..];
    }
  }

  /** The sum of products of `f` and `g` over a series is the sum of the
      pointwise product. */
  lemma {:induction false} SumOfProductsOfMaps<T>(t: seq<T>, f: T -> real, g: T -> real)
    ensures SumOfProducts(Map(t, f), Map(t, g)) == Sum(Map(t, x => f(x) * g(x)))
  {
    if t != [] {
      SumOfProductsOfMaps(t[1..], f, g);
      assert Map(t, f)[1..] == Map(t[1..], f);
      assert Map(t, g)[1..] == Map(t[1..], g);
      assert Map(t, x => f(x) * g(x))[1..] == Map(t[1..], x => f(x) * g(x));
    }
  }

  /** A sum of products over the elements of a series does not depend on their
      order. */
  lemma SumOfProductsOfMapsPermutation<T>(s: seq<T>, t: seq<T>, f: T -> real, g: T -> real)
    requires multiset(s) == multiset(t)
    ensures SumOfProducts(Map(s, f), Map(s, g)) == SumOfProducts(Map(t, f), Map(t, g))
  {
    SumOfProductsOfMaps(s, f, g);
    SumOfProductsOfMaps(t, f, g);
    SumOfMapPermutation(s, t, x => f(x) * g(x));
  }

  lemma SumOfThree(a: real, b: real, c: real)
    ensures Sum([a, b, c]) == a + b + c
  {
    assert [c][1..] == [];
    assert Sum([c]) == c;
    assert [b, c][1..] == [c];
    assert Sum([b, c]) == b + c;
    assert [a, b, c][1..] == [b, c];
  }

  lemma SumOfProductsOfThree(a: real, b: real, c: real, x: real, y: real, z: real)
    ensures SumOfProducts([a, b, c], [x, y, z]) == a * x + b * y + c * z
  {
    assert [c][1..] == [] && [z][1..] == [];
    assert SumOfProducts([c], [z]) == c * z;
    assert [b, c][1..] == [c] && [y, z][1..] == [z];
    assert SumOfProducts([b, c], [y, z]) == b * y + c * z;
    assert [a, b, c][1..] == [b, c] && [x, y, z][1..] == [y, z];
  }

  lemma {:induction false} SumOfConstant(s: seq<real>, c: real)
    requires forall i :: 0 <= i < |s| ==> s[i] == c
    ensures Sum(s) == |s| as real * c
  {
    if s != [] {
      SumOfConstant(s[1..], c);
    }
  }

  /** The mean of a series whose every element is `c` is `c`. */
  lemma MeanOfConstant(s: seq<real>, c: real)
    requires s != []
    requires forall i :: 0 <= i < |s| ==> s[i] == c
    ensures Mean(s) == c
  {
    SumOfConstant(s, c);
    var n := |s| as real;
    assert Sum(s) == n * c;
    assert n * c / n == c;
  }

  /** A sum of squares is never negative. */
  lemma {:induction false} SumOfSquaresNonNegative(u: seq<real>)
    ensures 0.0 <= SumOfProducts(u, u)
  {
    if u != [] {
      SumOfSquaresNonNegative(u[1..]);
      SquareNonNegative(u[0]);
    }
  }

  /** A sum of squares is positive exactly when some term is not zero. */
  lemma {:induction false} SumOfSquaresPositiveIff(u: seq<real>)
    ensures 0.0 < SumOfProducts(u, u) <==> exists i :: 0 <= i < |u| && u[i] != 0.0
  {
    if u != [] {
      SumOfSquaresPositiveIff(u[1..]);
      SumOfSquaresNonNegative(u[1..]);
      if exists i :: 0 <= i < |u| && u[i] != 0.0 {
        var i :| 0 <= i < |u| && u[i] != 0.0;
        if i == 0 {
          SquarePlusNonNegative(u[0], SumOfProducts(u[1..], u[1..]));
        } else {
          SquareNonNegative(u[0]);
          assert u[1..][i - 1] != 0.0;
        }
      } else {
        assert u[0] == 0.0;
        assert forall i :: 0 <= i < |u[1..]| ==> u[1..][i] == 0.0 by {
          forall i | 0 <= i < |u[1..]| ensures u[1..][i] == 0.0 {
            assert u[1..][i] == u[i + 1];
          }
        }
      }
    }
  }

  /** Against an all-zero series the sum of products is zero. */
  lemma {:induction false} SumOfProductsWithZeros(u: seq<real>, v: seq<real>)
    requires |u| == |v|
    requires forall i :: 0 <= i < |v| ==> v[i] == 0.0
    ensures SumOfProducts(u, v) == 0.0
  {
    if u != [] {
      assert v[0] == 0.0;
      SumOfProductsWithZeros(u[1..], v[1..]);
    }
  }

  /** A non-empty series has zero variance exactly when all its elements are
      equal: the squared deviations from its mean sum to zero. */
  lemma VarianceZeroIffConstant(s: seq<real>)
    requires s != []
    ensures SumOfProducts(Deviations(s, Mean(s)), Deviations(s, Mean(s))) == 0.0
            <==> forall i :: 0 <= i < |s| ==> s[i] == s[0]
  {
    var d := Deviations(s, Mean(s));
    SumOfSquaresPositiveIff(d);
    SumOfSquaresNonNegative(d);
    if forall i :: 0 <= i < |s| ==> s[i] == s[0] {
      MeanOfConstant(s, s[0]);
      assert forall i :: 0 <= i < |d| ==> d[i] == 0.0;
    } else {
      var i :| 0 <= i < |s| && s[i] != s[0];
      assert d[i] != 0.0 || d[0] != 0.0;
    }
  }

  lemma SquareNonNegative(z: real)
    ensures 0.0 <= z * z
  {
  }

  lemma SquarePositive(z: real)
    requires z != 0.0
    ensures 0.0 < z * z
  {
    if z < 0.0 {
      ProductPositive(-z, -z);
      assert (-z) * (-z) == z * z;
    } else {
      ProductPositive(z, z);
    }
  }

  /** A non-zero square plus a non-negative amount is positive. */
  lemma SquarePlusNonNegative(z: real, r: real)
    requires z != 0.0 && 0.0 <= r
    ensures 0.0 < z * z + r
  {
    SquarePositive(z);
    calc {
      0.0;
    <
      z * z;
    <=
      z * z + r;
    }
  }

  lemma ProductPositive(a: real, b: real)
    requires 0.0 < a && 0.0 < b
    ensures 0.0 < a * b
  {
  }

  lemma SquareStrictlyIncreasing(u: real, v: real)
    ensures 0.0 <= u < v ==> u * u < v * v
  {
    if 0.0 <= u < v {
      assert v * v - u * u == (v - u) * (v + u);
      ProductPositive(v - u, v + u);
    }
  }

  /** Two square-root functions agree on every non-negative number: the
      non-negative root is unique. */
  lemma RootsAgree(sqrt1: real -> real, sqrt2: real -> real, v: real)
    requires IsSquareRoot(sqrt1) && IsSquareRoot(sqrt2)
    requires 0.0 <= v
    ensures sqrt1(v) == sqrt2(v)
  {
    SquareStrictlyIncreasing(sqrt1(v), sqrt2(v));
    SquareStrictlyIncreasing(sqrt2(v), sqrt1(v));
  }

  /** The bound on one more term of the Cauchy–Schwarz induction:
      the quadratic form with coefficients `b`, `-c`, `a` is positive semidefinite. */
  lemma CrossTermBound(x: real, y: real, a: real, b: real, c: real)
    requires 0.0 <= a && 0.0 <= b && c * c <= a * b
    requires b == 0.0 ==> c == 0.0
    ensures 2.0 * x * y * c <= x * x * b + y * y * a
  {
    SquareNonNegative(y);
    if b == 0.0 {
      assert 0.0 <= y * y * a;
    } else {
      var e := x * x * b + y * y * a - 2.0 * x * y * c;
      var u := x * b - y * c;
      assert b * e == u * u + y * y * (a * b - c * c);
      SquareNonNegative(u);
      assert 0.0 <= y * y * (a * b - c * c);
      assert 0.0 <= b * e;
    }
  }

  /** One more pair of terms keeps the Cauchy–Schwarz inequality. This is
      `CrossTermBound` with both squares expanded, stated over plain variables
      so that the induction in `CauchySchwarz` only has to instantiate it with
      the sums of its tail. */
  lemma CauchySchwarzStep(x: real, y: real, a: real, b: real, c: real)
    requires 0.0 <= a && 0.0 <= b && c * c <= a * b
    requires b == 0.0 ==> c == 0.0
    ensures (x * y + c) * (x * y + c) <= (x * x + a) * (y * y + b)
  {
    CrossTermBound(x, y, a, b, c);
  }

  /** Cauchy–Schwarz: the squared sum of products is at most the product of
      the two sums of squares. */
  lemma {:induction false} CauchySchwarz(u: seq<real>, v: seq<real>)
    requires |u| == |v|
    ensures SumOfProducts(u, v) * SumOfProducts(u, v) <= SumOfProducts(u, u) * SumOfProducts(v, v)
  {
    if u != [] {
      CauchySchwarz(u[1..], v[1..]);
      SumOfSquaresNonNegative(u[1..]);
      SumOfSquaresNonNegative(v[1..]);
      if SumOfProducts(v[1..], v[1..]) == 0.0 {
        SumOfSquaresPositiveIff(v[1..]);
        SumOfProductsWithZeros(u[1..], v[1..]);
      }
      CauchySchwarzStep(u[0], v[0], SumOfProducts(u[1..], u[1..]),
        SumOfProducts(v[1..], v[1..]), SumOfProducts(u[1..], v[1..]));
    }
  }

  /** The Pearson coefficient of two series given their sums of squared
      deviations `varX`, `varY` and their sum of products of deviations `cov`:
      the covariance over the product of the two roots. */
  function PearsonCoefficient(cov: real, varX: real, varY: real, sqrt: real -> real): (r: real)
    requires sqrt(varX) * sqrt(varY) != 0.0
    ensures r * (sqrt(varX) * sqrt(varY)) == cov
  {
    cov / (sqrt(varX) * sqrt(varY))
  }

  /** With positive sums of squares bounding `cov` as Cauchy–Schwarz does, the
      divisor is positive and the coefficient lies in [-1, 1] with the sign of
      `cov`. */
  lemma CoefficientBounds(cov: real, varX: real, varY: real, sqrt: real -> real)
    requires IsSquareRoot(sqrt)
    requires 0.0 < varX && 0.0 < varY
    requires cov * cov <= varX * varY
    ensures 0.0 < sqrt(varX) * sqrt(varY)
    ensures -1.0 <= PearsonCoefficient(cov, varX, varY, sqrt) <= 1.0
    ensures 0.0 < PearsonCoefficient(cov, varX, varY, sqrt) <==> 0.0 < cov
    ensures PearsonCoefficient(cov, varX, varY, sqrt) < 0.0 <==> cov < 0.0
  {
    QuotientOfRootsBounds(cov, varX, varY, sqrt);
  }

  /** The facts of `CoefficientBounds` about the quotient written out; kept
      apart from it because the solver does not carry them from the quotient
      to the named `PearsonCoefficient` within one proof. */
  lemma QuotientOfRootsBounds(c: real, vx: real, vy: real, sqrt: real -> real)
    requires IsSquareRoot(sqrt)
    requires 0.0 < vx && 0.0 < vy
    requires c * c <= vx * vy
    ensures 0.0 < sqrt(vx) * sqrt(vy)
    ensures -1.0 <= c / (sqrt(vx) * sqrt(vy)) <= 1.0
    ensures 0.0 < c / (sqrt(vx) * sqrt(vy)) <==> 0.0 < c
    ensures c / (sqrt(vx) * sqrt(vy)) < 0.0 <==> c < 0.0
  {
    var p, q := sqrt(vx), sqrt(vy);
    SquareStrictlyIncreasing(0.0, p);
    SquareStrictlyIncreasing(0.0, q);
    ProductPositive(p, q);
    var d := p * q;
    assert d * d == vx * vy by {
      assert d * d == (p * p) * (q * q);
    }
    SquareStrictlyIncreasing(d, c);
    SquareStrictlyIncreasing(d, -c);
    QuotientBounds(c, d);
  }

  /** The product of the roots of `varX` and `varY` is the positive `k`
      whose square is `varX * varY`. */
  lemma ProductOfRoots(varX: real, varY: real, k: real, sqrt: real -> real)
    requires IsSquareRoot(sqrt)
    requires 0.0 < varX && 0.0 < varY && 0.0 < k
    requires varX * varY == k * k
    ensures sqrt(varX) * sqrt(varY) == k
  {
    var p, q := sqrt(varX), sqrt(varY);
    var d := p * q;
    assert d * d == varX * varY by {
      assert d * d == (p * p) * (q * q);
    }
    SquareStrictlyIncreasing(0.0, p);
    SquareStrictlyIncreasing(0.0, q);
    ProductPositive(p, q);
    SquareStrictlyIncreasing(d, k);
    SquareStrictlyIncreasing(k, d);
  }

  lemma QuotientBounds(c: real, d: real)
    requires 0.0 < d && -d <= c <= d
    ensures -1.0 <= c / d <= 1.0
    ensures 0.0 < c / d <==> 0.0 < c
    ensures c / d < 0.0 <==> c < 0.0
  {
  }

  /** The Pearson coefficient of two deviation series whose sums of squares
      are not zero: those sums are positive, and the coefficient lies in
      [-1, 1] and has the sign of the sum of products. */
  lemma PearsonBounds(u: seq<real>, v: seq<real>, sqrt: real -> real)
    requires IsSquareRoot(sqrt) && |u| == |v|
    requires SumOfProducts(u, u) != 0.0 && SumOfProducts(v, v) != 0.0
    ensures 0.0 < SumOfProducts(u, u) && 0.0 < SumOfProducts(v, v)
    ensures 0.0 < sqrt(SumOfProducts(u, u)) * sqrt(SumOfProducts(v, v))
    ensures -1.0 <= PearsonCoefficient(SumOfProducts(u, v), SumOfProducts(u, u), SumOfProducts(v, v), sqrt) <= 1.0
    ensures 0.0 < PearsonCoefficient(SumOfProducts(u, v), SumOfProducts(u, u), SumOfProducts(v, v), sqrt)
            <==> 0.0 < SumOfProducts(u, v)
    ensures PearsonCoefficient(SumOfProducts(u, v), SumOfProducts(u, u), SumOfProducts(v, v), sqrt) < 0.0
            <==> SumOfProducts(u, v) < 0.0
  {
    SumOfSquaresNonNegative(u);
    SumOfSquaresNonNegative(v);
    CauchySchwarz(u, v);
    CoefficientBounds(SumOfProducts(u, v), SumOfProducts(u, u), SumOfProducts(v, v), sqrt);
  }
}
