/** Sums, sums of squares and the Cauchy-Schwarz inequality over exact arithmetic. */
module Moments {

  /** What is known of math.Sqrt. */
  ghost predicate IsSqrt(sqrt: real -> real) {
    forall x :: x >= 0.0 ==> sqrt(x) >= 0.0 && sqrt(x) * sqrt(x) == x
  }

  function Sum(xs: seq<real>): real {
    if xs == [] then 0.0 else Sum(xs[..|xs| - 1]) + xs[|xs| - 1]
  }

  function Dot(xs: seq<real>, ys: seq<real>): real
    requires |xs| == |ys|
  {
    if xs == [] then 0.0
    else Dot(xs[..|xs| - 1], ys[..|ys| - 1]) + xs[|xs| - 1] * ys[|ys| - 1]
  }

  function SumSq(xs: seq<real>): real { Dot(xs, xs) }

  function Ones(n: nat): seq<real> { seq(n, _ => 1.0) }

  /** x - t*y. */
  function Minus(xs: seq<real>, t: real, ys: seq<real>): (zs: seq<real>)
    requires |xs| == |ys|
    ensures |zs| == |xs|
  {
    seq(|xs|, i requires 0 <= i < |xs| => xs[i] - t * ys[i])
  }

  lemma SumSnoc(xs: seq<real>, x: real)
    ensures Sum(xs + [x]) == Sum(xs) + x && SumSq(xs + [x]) == SumSq(xs) + x * x
  {
    assert (xs + [x])[..|xs|] == xs;
  }

  lemma DotSnoc(xs: seq<real>, ys: seq<real>, x: real, y: real)
    requires |xs| == |ys|
    ensures Dot(xs + [x], ys + [y]) == Dot(xs, ys) + x * y
  {
    var a, b := xs + [x], ys + [y];
    assert a[|xs|] == x && b[|xs|] == y;
    assert a[..|xs|] == xs && b[..|ys|] == ys;
    DotLast(a, b, x, y);
  }

  lemma DotLast(xs: seq<real>, ys: seq<real>, x: real, y: real)
    requires |xs| == |ys| > 0 && xs[|xs| - 1] == x && ys[|ys| - 1] == y
    ensures Dot(xs, ys) == Dot(xs[..|xs| - 1], ys[..|ys| - 1]) + x * y
  {}

  lemma {:induction false} DotSymmetric(xs: seq<real>, ys: seq<real>)
    requires |xs| == |ys|
    ensures Dot(xs, ys) == Dot(ys, xs)
  {
    if xs != [] {
      DotSymmetric(xs[..|xs| - 1], ys[..|ys| - 1]);
    }
  }

  lemma {:induction false} SumSqNonNegative(xs: seq<real>)
    ensures SumSq(xs) >= 0.0
  {
    if xs != [] {
      SumSqNonNegative(xs[..|xs| - 1]);
    }
  }

  lemma {:induction false} MinusExpands(xs: seq<real>, t: real, ys: seq<real>)
    requires |xs| == |ys|
    ensures SumSq(Minus(xs, t, ys)) == SumSq(xs) - 2.0 * t * Dot(xs, ys) + t * t * SumSq(ys)
  {
    hide Dot;
    if xs == [] {
      DotNone(xs, ys);
      DotNone(xs, xs);
      ZeroStep(t, Dot(xs, ys), Dot(ys, ys));
      DotNone(Minus(xs, t, ys), Minus(xs, t, ys));
    } else {
      var n := |xs| - 1;
      var m, d := Minus(xs, t, ys), xs[n] - t * ys[n];
      MinusExpands(xs[..n], t, ys[..n]);
      MinusPrefix(xs, t, ys, n);
      DotLast(m, m, d, d);
      DotLast(xs, xs, xs[n], xs[n]);
      DotLast(xs, ys, xs[n], ys[n]);
      DotLast(ys, ys, ys[n], ys[n]);
      ExpandStep(xs[n], t, ys[n], d, SumSq(xs[..n]), Dot(xs[..n], ys[..n]), SumSq(ys[..n]), SumSq(m[..n]),
                 SumSq(xs), Dot(xs, ys), SumSq(ys), SumSq(m));
    }
  }

  lemma MinusPrefix(xs: seq<real>, t: real, ys: seq<real>, n: nat)
    requires |xs| == |ys| && n <= |xs|
    ensures Minus(xs, t, ys)[..n] == Minus(xs[..n], t, ys[..n])
  {
    forall i | 0 <= i < n ensures Minus(xs, t, ys)[..n][i] == Minus(xs[..n], t, ys[..n])[i] {
      assert xs[..n][i] == xs[i] && ys[..n][i] == ys[i];
    }
  }

  lemma DotNone(xs: seq<real>, ys: seq<real>)
    requires xs == [] && ys == []
    ensures Dot(xs, ys) == 0.0
  {}

  lemma ZeroStep(t: real, b: real, c: real)
    requires b == 0.0 && c == 0.0
    ensures 2.0 * t * b == 0.0 && t * t * c == 0.0
  {}

  lemma ExpandStep(x: real, t: real, y: real, d: real, a: real, b: real, c: real, m: real,
                   a': real, b': real, c': real, m': real)
    requires d == x - t * y && m == a - 2.0 * t * b + t * t * c
    requires a' == a + x * x && b' == b + x * y && c' == c + y * y && m' == m + d * d
    ensures m' == a' - 2.0 * t * b' + t * t * c'
  {
    assert 2.0 * t * b' == 2.0 * t * b + 2.0 * t * (x * y);
    assert t * t * c' == t * t * c + t * t * (y * y);
    assert d * d == x * x - 2.0 * t * (x * y) + t * t * (y * y);
  }

  /** (x . y)^2 <= (x . x)(y . y). */
  lemma CauchySchwarz(xs: seq<real>, ys: seq<real>)
    requires |xs| == |ys|
    ensures Dot(xs, ys) * Dot(xs, ys) <= SumSq(xs) * SumSq(ys)
  {
    hide Dot, Minus;
    var a, b, c := SumSq(xs), Dot(xs, ys), SumSq(ys);
    SumSqNonNegative(ys);
    if c > 0.0 {
      SumSqNonNegative(Minus(xs, b / c, ys));
      MinusExpands(xs, b / c, ys);
      ScaleDiscriminant(a, b, c);
    } else if b != 0.0 {
      var t := (a + 1.0) / (2.0 * b);
      MinusExpands(xs, t, ys);
      SumSqNonNegative(Minus(xs, t, ys));
      Degenerate(a, b, t, t * t);
    }
  }

  lemma Degenerate(a: real, b: real, t: real, tt: real)
    requires b != 0.0 && t == (a + 1.0) / (2.0 * b)
    ensures a - 2.0 * t * b + tt * 0.0 == -1.0
  {
    var q := 2.0 * b;
    assert t * q == a + 1.0;
    assert 2.0 * t * b == t * q;
  }

  lemma ScaleDiscriminant(a: real, b: real, c: real)
    requires c > 0.0
    requires a - 2.0 * (b / c) * b + (b / c) * (b / c) * c >= 0.0
    ensures b * b <= a * c
  {
    var t := b / c;
    assert t * c == b;
    assert t * t * c == t * b by { assert t * t * c == t * (t * c); }
    assert 2.0 * t * b - t * b == t * b by { assert 2.0 * t * b == 2.0 * (t * b); }
    assert a - t * b >= 0.0;
    assert (a - t * b) * c >= 0.0;
    assert t * b * c == b * b by { assert t * b * c == (t * c) * b; }
    assert (a - t * b) * c == a * c - t * b * c;
  }

  lemma {:induction false} DotOnes(xs: seq<real>)
    ensures Dot(xs, Ones(|xs|)) == Sum(xs) && SumSq(Ones(|xs|)) == |xs| as real
  {
    if xs != [] {
      var n := |xs| - 1;
      DotOnes(xs[..n]);
      assert Ones(|xs|)[..n] == Ones(n);
    }
  }

  /** n * (sum of squares) >= (sum)^2: a population variance is never negative. */
  lemma VarianceNonNegative(xs: seq<real>)
    ensures Sum(xs) * Sum(xs) <= SumSq(xs) * |xs| as real
  {
    DotOnes(xs);
    CauchySchwarz(xs, Ones(|xs|));
  }

  /** The mean lies between any lower and any upper bound of the values. */
  lemma {:induction false} SumBetween(xs: seq<real>, lo: real, hi: real)
    requires forall i :: 0 <= i < |xs| ==> lo <= xs[i] <= hi
    ensures lo * |xs| as real <= Sum(xs) <= hi * |xs| as real
  {
    if xs != [] {
      var n := |xs| - 1;
      SumBetween(xs[..n], lo, hi);
      assert lo * |xs| as real == lo * n as real + lo;
      assert hi * |xs| as real == hi * n as real + hi;
    }
  }
}
