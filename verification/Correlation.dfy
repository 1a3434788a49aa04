/** The Pearson matrix of internal/dataset/stats.go over exact arithmetic. */
module Correlations {
  import opened Moments
  import opened Statistics

  /** Sum over the rows of (column i - mean i)(column j - mean j). */
  function Cov(rows: seq<seq<real>>, w: nat, mean: seq<real>, i: nat, j: nat): real
    requires Table(rows, w) && |mean| == w && i < w && j < w
  {
    Dot(Shift(Col(rows, w, i), mean[i]), Shift(Col(rows, w, j), mean[j]))
  }

  lemma CovSnoc(rows: seq<seq<real>>, w: nat, mean: seq<real>, r: seq<real>, i: nat, j: nat)
    requires Table(rows, w) && |r| == |mean| == w && i < w && j < w
    ensures Table(rows + [r], w)
    ensures Cov(rows + [r], w, mean, i, j) == Cov(rows, w, mean, i, j) + (r[i] - mean[i]) * (r[j] - mean[j])
  {
    hide Dot, Col, Shift;
    ColAppend(rows, w, i, r);
    ColAppend(rows, w, j, r);
    ShiftSnoc(Col(rows, w, i), r[i], mean[i]);
    ShiftSnoc(Col(rows, w, j), r[j], mean[j]);
    DotSnoc(Shift(Col(rows, w, i), mean[i]), Shift(Col(rows, w, j), mean[j]), r[i] - mean[i], r[j] - mean[j]);
  }

  lemma CovNone(w: nat, mean: seq<real>, i: nat, j: nat)
    requires |mean| == w && i < w && j < w
    ensures Table([], w) && Cov([], w, mean, i, j) == 0.0
  {
    assert Shift(Col([], w, i), mean[i]) == [];
  }

  /** A covariance is symmetric and, by Cauchy-Schwarz, no larger than the two variances allow. */
  lemma CovBounded(rows: seq<seq<real>>, w: nat, mean: seq<real>, i: nat, j: nat)
    requires Table(rows, w) && |mean| == w && i < w && j < w
    ensures Cov(rows, w, mean, i, j) == Cov(rows, w, mean, j, i)
    ensures Cov(rows, w, mean, i, i) == DevSq(Col(rows, w, i), mean[i]) >= 0.0
    ensures var c := Cov(rows, w, mean, i, j);
            c * c <= Cov(rows, w, mean, i, i) * Cov(rows, w, mean, j, j)
  {
    hide Dot, Col, Shift;
    var x, y := Shift(Col(rows, w, i), mean[i]), Shift(Col(rows, w, j), mean[j]);
    DotSymmetric(x, y);
    SumSqNonNegative(x);
    CauchySchwarz(x, y);
  }

  // ---- the accumulation, upper triangle only and skipping zero deviations ----

  ghost predicate Upper(cov: array2<real>, rows: seq<seq<real>>, w: nat, mean: seq<real>, from: nat, to: nat)
    requires cov.Length0 == cov.Length1 == w && Table(rows, w) && |mean| == w && to <= w
    reads cov
  {
    forall i, j :: from <= i < to && i <= j < w ==> cov[i, j] == Cov(rows, w, mean, i, j)
  }

  method Covariances(rows: seq<seq<real>>, w: nat, mean: seq<real>) returns (cov: array2<real>)
    requires Table(rows, w) && |mean| == w
    ensures fresh(cov) && cov.Length0 == cov.Length1 == w && Upper(cov, rows, w, mean, 0, w)
  {
    hide Cov;
    cov := new real[w, w]((_, _) => 0.0);
    var dev := new real[w](_ => 0.0);
    forall i, j | 0 <= i < w && i <= j < w ensures Cov(rows[..0], w, mean, i, j) == 0.0 {
      CovNone(w, mean, i, j);
      assert rows[..0] == [];
    }
    for k := 0 to |rows|
      invariant Table(rows[..k], w) && Upper(cov, rows[..k], w, mean, 0, w)
    {
      var r := rows[k];
      for j := 0 to w
        invariant forall l :: 0 <= l < j ==> dev[l] == r[l] - mean[l]
        invariant Upper(cov, rows[..k], w, mean, 0, w)
      {
        dev[j] := r[j] - mean[j];
      }
      Accumulate(cov, dev, w, rows[..k], r, mean);
      assert rows[..k + 1] == rows[..k] + [r];
    }
    assert rows[..|rows|] == rows;
  }

  method Accumulate(cov: array2<real>, dev: array<real>, w: nat, ghost rows: seq<seq<real>>, ghost r: seq<real>,
                    ghost mean: seq<real>)
    requires cov.Length0 == cov.Length1 == dev.Length == w && Table(rows, w) && |r| == |mean| == w
    requires forall l :: 0 <= l < w ==> dev[l] == r[l] - mean[l]
    requires Upper(cov, rows, w, mean, 0, w)
    modifies cov
    ensures Table(rows + [r], w) && Upper(cov, rows + [r], w, mean, 0, w)
  {
    hide Cov;
    assert Table(rows + [r], w);
    for i := 0 to w
      invariant Upper(cov, rows + [r], w, mean, 0, i) && Upper(cov, rows, w, mean, i, w)
    {
      var di := dev[i];
      if di == 0.0 {
        forall j | i <= j < w ensures Cov(rows + [r], w, mean, i, j) == Cov(rows, w, mean, i, j) {
          CovSnoc(rows, w, mean, r, i, j);
          ZeroAdds(di, r[j] - mean[j]);
        }
        continue;
      }
      label L:
      AccumulateRow(cov, dev, w, i, rows, r, mean);
      forall k, l | 0 <= k < w && k != i && k <= l < w ensures cov[k, l] == old@L(cov[k, l]) {}
    }
  }

  lemma ZeroAdds(x: real, y: real)
    requires x == 0.0
    ensures x * y == 0.0
  {}

  /** The deviations of one column times those of the columns from it on. */
  method AccumulateRow(cov: array2<real>, dev: array<real>, w: nat, i: nat,
                       ghost rows: seq<seq<real>>, ghost r: seq<real>, ghost mean: seq<real>)
    requires cov.Length0 == cov.Length1 == dev.Length == w && Table(rows, w) && |r| == |mean| == w && i < w
    requires forall l :: 0 <= l < w ==> dev[l] == r[l] - mean[l]
    requires forall l :: i <= l < w ==> cov[i, l] == Cov(rows, w, mean, i, l)
    modifies cov
    ensures Table(rows + [r], w) && forall l :: i <= l < w ==> cov[i, l] == Cov(rows + [r], w, mean, i, l)
    ensures forall k, l :: 0 <= k < w && 0 <= l < w && k != i ==> cov[k, l] == old(cov[k, l])
  {
    hide Cov;
    assert Table(rows + [r], w);
    for j := i to w
      invariant forall k, l :: 0 <= k < w && 0 <= l < w && k != i ==> cov[k, l] == old(cov[k, l])
      invariant forall l :: i <= l < j ==> cov[i, l] == Cov(rows + [r], w, mean, i, l)
      invariant forall l :: j <= l < w ==> cov[i, l] == Cov(rows, w, mean, i, l)
    {
      CovSnoc(rows, w, mean, r, i, j);
      cov[i, j] := cov[i, j] + dev[i] * dev[j];
    }
  }

  // ---- the matrix ----

  function Clamp(x: real, lo: real, hi: real): real {
    if x < lo then lo else if x > hi then hi else x
  }

  lemma SquareGrows(x: real, y: real)
    requires 0.0 <= x < y
    ensures x * x < y * y
  {
    var xx, xy, yy := x * x, x * y, y * y;
    assert yy - xy > 0.0 by { assert yy - xy == (y - x) * y; }
    assert xy - xx >= 0.0 by { assert xy - xx == (y - x) * x; }
  }

  /** c/sqrt(vi*vj) is already in [-1, 1]: the clamp that follows it is the identity. */
  lemma PearsonInRange(c: real, vi: real, vj: real, root: real)
    requires vi > 0.0 && vj > 0.0 && c * c <= vi * vj && root >= 0.0 && root * root == vi * vj
    ensures root > 0.0 && -1.0 <= c / root <= 1.0 && Clamp(c / root, -1.0, 1.0) == c / root
    ensures c / root * root == c
  {
    var v := vi * vj;
    assert v > 0.0;
    assert root != 0.0;
    if c > root {
      SquareGrows(root, c);
      assert false;
    } else if -c > root {
      Negated(c);
      SquareGrows(root, -c);
      assert false;
    }
    Share(c, root);
  }

  lemma Negated(c: real)
    ensures (-c) * (-c) == c * c
  {}

  lemma Share(c: real, root: real)
    requires root > 0.0 && -root <= c <= root
    ensures -1.0 <= c / root <= 1.0 && c / root * root == c
  {
    var q := c / root;
    assert q * root == c;
    var above, below := (q - 1.0) * root, (q + 1.0) * root;
    assert above == c - root && below == c + root;
  }

  /** What an entry is, given the covariance cij, the two variances and the root of their product;
      a constant column has no correlation with anything. */
  predicate Fits(c: real, cij: real, vi: real, vj: real, root: real, diagonal: bool) {
    && -1.0 <= c <= 1.0
    && (if vi > TINY && vj > TINY then c * root == cij else c == 0.0)
    && (diagonal ==> c == if vi > TINY then 1.0 else 0.0)
  }

  ghost predicate Pearson(c: real, rows: seq<seq<real>>, w: nat, mean: seq<real>, i: nat, j: nat, sqrt: real -> real)
    requires Table(rows, w) && |mean| == w && i < w && j < w
  {
    var vi, vj := DevSq(Col(rows, w, i), mean[i]), DevSq(Col(rows, w, j), mean[j]);
    Fits(c, Cov(rows, w, mean, i, j), vi, vj, sqrt(vi * vj), i == j)
  }

  method Entry(cij: real, vi: real, vj: real, sqrt: real -> real, diagonal: bool) returns (c: real)
    requires IsSqrt(sqrt) && vi >= 0.0 && vj >= 0.0 && cij * cij <= vi * vj
    requires diagonal ==> vi == vj == cij
    ensures Fits(c, cij, vi, vj, Root(sqrt, vi, vj), diagonal)
  {
    hide IsSqrt, Root;
    c := 0.0;
    var root := Root(sqrt, vi, vj);
    if diagonal {
      if vi > TINY {
        RootOfSquare(sqrt, vi);
        c := 1.0;
      }
    } else if vi > TINY && vj > TINY {
      PearsonInRange(cij, vi, vj, root);
      c := cij / root;
    }
    ghost var unclamped := c;
    c := Clamp(c, -1.0, 1.0);
    assert c == unclamped;
  }

  lemma FitsMirrored(c: real, cij: real, vi: real, vj: real, root: real, diagonal: bool)
    requires Fits(c, cij, vi, vj, root, diagonal) && (diagonal ==> vi == vj)
    ensures Fits(c, cij, vj, vi, root, diagonal)
  {}

  /** An entry and its mirror image. */
  lemma BothFit(c: real, rows: seq<seq<real>>, w: nat, mean: seq<real>, i: nat, j: nat, sqrt: real -> real)
    requires Table(rows, w) && |mean| == w && i < w && j < w && IsSqrt(sqrt)
    requires Cov(rows, w, mean, i, i) >= 0.0 && Cov(rows, w, mean, j, j) >= 0.0
    requires var vi, vj := Cov(rows, w, mean, i, i), Cov(rows, w, mean, j, j);
             Fits(c, Cov(rows, w, mean, i, j), vi, vj, Root(sqrt, vi, vj), i == j)
    ensures Pearson(c, rows, w, mean, i, j, sqrt) && Pearson(c, rows, w, mean, j, i, sqrt)
  {
    hide Cov, DevSq, Col, IsSqrt, Root, Fits;
    CovBounded(rows, w, mean, i, j);
    CovBounded(rows, w, mean, j, i);
    var vi, vj := DevSq(Col(rows, w, i), mean[i]), DevSq(Col(rows, w, j), mean[j]);
    var root := Root(sqrt, vi, vj);
    FitsMirrored(c, Cov(rows, w, mean, i, j), vi, vj, root, i == j);
  }

  function Root(sqrt: real -> real, x: real, y: real): (root: real)
    requires IsSqrt(sqrt) && x >= 0.0 && y >= 0.0
    ensures root >= 0.0 && root * root == x * y && root == sqrt(x * y) == sqrt(y * x)
  {
    ProductRoot(sqrt, x, y);
    assert x * y == y * x;
    sqrt(x * y)
  }

  lemma ProductRoot(sqrt: real -> real, x: real, y: real)
    requires IsSqrt(sqrt) && x >= 0.0 && y >= 0.0
    ensures sqrt(x * y) >= 0.0 && sqrt(x * y) * sqrt(x * y) == x * y
  {
    var p := x * y;
    assert p >= 0.0;
    assert sqrt(p) >= 0.0;
  }

  lemma RootOfSquare(sqrt: real -> real, x: real)
    requires IsSqrt(sqrt) && x >= 0.0
    ensures sqrt(x * x) == x
  {
    ProductRoot(sqrt, x, x);
    RootUnique(sqrt(x * x), x);
  }

  lemma RootUnique(r: real, x: real)
    requires r >= 0.0 && x >= 0.0 && r * r == x * x
    ensures r == x
  {
    if r > x {
      SquareGrows(x, r);
    } else if r < x {
      SquareGrows(r, x);
    }
  }

  method Correlation(rows: seq<seq<real>>, w: nat, mean: seq<real>, sqrt: real -> real) returns (m: array2<real>)
    requires Table(rows, w) && |mean| == w && IsSqrt(sqrt)
    ensures m.Length0 == m.Length1 == w
    ensures forall i, j :: 0 <= i < w && 0 <= j < w ==> m[i, j] == m[j, i]
    ensures forall i, j :: 0 <= i < w && 0 <= j < w ==> Pearson(m[i, j], rows, w, mean, i, j, sqrt)
  {
    hide Cov, Pearson;
    var cov := Covariances(rows, w, mean);
    m := new real[w, w]((_, _) => 0.0);
    for i := 0 to w
      invariant Upper(cov, rows, w, mean, 0, w)
      invariant forall k, l :: 0 <= k < i && k <= l < w ==> Done(m, rows, w, mean, k, l, sqrt)
    {
      label L:
      FillRow(m, cov, rows, w, mean, i, sqrt);
      forall k, l | 0 <= k < i && k <= l < w ensures Done(m, rows, w, mean, k, l, sqrt) {
        assert old@L(Done(m, rows, w, mean, k, l, sqrt));
        assert m[k, l] == old@L(m[k, l]) && m[l, k] == old@L(m[l, k]);
      }
    }
    forall i, j | 0 <= i < w && 0 <= j < w
      ensures m[i, j] == m[j, i] && Pearson(m[i, j], rows, w, mean, i, j, sqrt)
    {
      assert Done(m, rows, w, mean, if i <= j then i else j, if i <= j then j else i, sqrt);
    }
  }

  /** The entries (i, j) and (j, i) for every j >= i. */
  method FillRow(m: array2<real>, cov: array2<real>, ghost rows: seq<seq<real>>, w: nat, ghost mean: seq<real>,
                 i: nat, sqrt: real -> real)
    requires m != cov && m.Length0 == m.Length1 == cov.Length0 == cov.Length1 == w
    requires Table(rows, w) && |mean| == w && i < w && IsSqrt(sqrt) && Upper(cov, rows, w, mean, 0, w)
    modifies m
    ensures forall l :: i <= l < w ==> Done(m, rows, w, mean, i, l, sqrt)
    ensures forall k, l :: 0 <= k < w && 0 <= l < w && (k < i || l < i) ==> m[k, l] == old(m[k, l])
  {
    hide Cov, Pearson, IsSqrt;
    for j := i to w
      invariant forall l :: i <= l < j ==> Done(m, rows, w, mean, i, l, sqrt)
      invariant forall k, l :: 0 <= k < w && 0 <= l < w && (k < i || l < i) ==> m[k, l] == old(m[k, l])
    {
      CovBounded(rows, w, mean, i, j);
      CovBounded(rows, w, mean, j, i);
      var c := Entry(cov[i, j], cov[i, i], cov[j, j], sqrt, i == j);
      BothFit(c, rows, w, mean, i, j, sqrt);
      label L:
      m[i, j] := c;
      m[j, i] := c;
      assert Done(m, rows, w, mean, i, j, sqrt);
      forall l | i <= l < j ensures Done(m, rows, w, mean, i, l, sqrt) {
        assert old@L(Done(m, rows, w, mean, i, l, sqrt));
        assert m[i, l] == old@L(m[i, l]);
        assert m[l, i] == old@L(m[l, i]);
      }
    }
  }

  ghost predicate Done(m: array2<real>, rows: seq<seq<real>>, w: nat, mean: seq<real>, i: nat, j: nat,
                       sqrt: real -> real)
    requires m.Length0 == m.Length1 == w && Table(rows, w) && |mean| == w && i < w && j < w
    reads m
  {
    && m[i, j] == m[j, i]
    && Pearson(m[i, j], rows, w, mean, i, j, sqrt) && Pearson(m[j, i], rows, w, mean, j, i, sqrt)
  }
}
