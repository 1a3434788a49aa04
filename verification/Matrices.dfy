/** Plane rotations of square matrices over exact arithmetic. */
module Matrices {
  import opened Moments

  type Vector = seq<real>
  type Matrix = seq<Vector>

  predicate Square(m: Matrix, n: nat) {
    |m| == n && forall i :: 0 <= i < n ==> |m[i]| == n
  }

  predicate Symmetric(m: Matrix, n: nat)
    requires Square(m, n)
  {
    forall i, j :: 0 <= i < n && 0 <= j < n ==> m[i][j] == m[j][i]
  }

  function Column(m: Matrix, n: nat, j: nat): (x: Vector)
    requires Square(m, n) && j < n
    ensures |x| == n
  {
    seq(n, i requires 0 <= i < n => m[i][j])
  }

  /** a*x + b*y. */
  function Lin(a: real, x: Vector, b: real, y: Vector): (z: Vector)
    requires |x| == |y|
    ensures |z| == |x|
  {
    seq(|x|, i requires 0 <= i < |x| => a * x[i] + b * y[i])
  }

  function Apply(m: Matrix, n: nat, x: Vector): (y: Vector)
    requires Square(m, n) && |x| == n
    ensures |y| == n
  {
    seq(n, i requires 0 <= i < n => Dot(m[i], x))
  }

  function Delta(i: int, j: int): real { if i == j then 1.0 else 0.0 }

  function Identity(n: nat): Matrix {
    seq(n, i requires 0 <= i < n => seq(n, j requires 0 <= j < n => Delta(i, j)))
  }

  function Diagonal(m: Matrix, n: nat): (d: Vector)
    requires Square(m, n)
    ensures |d| == n
  {
    seq(n, i requires 0 <= i < n => m[i][i])
  }

  function Trace(m: Matrix, n: nat): real
    requires Square(m, n)
  {
    Sum(Diagonal(m, n))
  }

  /** Squared length of each row. */
  function RowNorms(m: Matrix): Vector {
    seq(|m|, i requires 0 <= i < |m| => SumSq(m[i]))
  }

  /** The squared Frobenius norm. */
  function Frobenius(m: Matrix): real { Sum(RowNorms(m)) }

  // ---- a rotation in the plane (p, q) ----

  /** A rotation leaves every index but p and q alone. The new index i is
      First-coefficient times one old index plus Second-coefficient times another. */
  function CoefA(p: nat, q: nat, c: real, s: real, i: nat): real {
    if i == p then c else if i == q then s else 1.0
  }

  function CoefB(p: nat, q: nat, c: real, s: real, i: nat): real {
    if i == p then -s else if i == q then c else 0.0
  }

  function From(p: nat, q: nat, i: nat): nat {
    if i == q then p else i
  }

  function Other(p: nat, q: nat, i: nat): nat {
    if i == p then q else i
  }

  function RotateVector(x: Vector, p: nat, q: nat, c: real, s: real): (y: Vector)
    requires p < q < |x|
    ensures |y| == |x|
  {
    x[p := c * x[p] - s * x[q]][q := s * x[p] + c * x[q]]
  }

  /** The column half: m times J. */
  function RotateColumns(m: Matrix, n: nat, p: nat, q: nat, c: real, s: real): (m': Matrix)
    requires Square(m, n) && p < q < n
    ensures Square(m', n)
  {
    seq(n, k requires 0 <= k < n => RotateVector(m[k], p, q, c, s))
  }

  /** The row half: J transposed times m. */
  function RotateRows(m: Matrix, n: nat, p: nat, q: nat, c: real, s: real): (m': Matrix)
    requires Square(m, n) && p < q < n
    ensures Square(m', n)
  {
    m[p := Lin(c, m[p], -s, m[q])][q := Lin(s, m[p], c, m[q])]
  }

  function Rotated(m: Matrix, n: nat, p: nat, q: nat, c: real, s: real): (m': Matrix)
    requires Square(m, n) && p < q < n
    ensures Square(m', n)
  {
    RotateRows(RotateColumns(m, n, p, q, c, s), n, p, q, c, s)
  }

  // ---- vectors ----

  lemma DotLin(a: real, x: Vector, b: real, y: Vector, z: Vector)
    requires |x| == |y| == |z|
    ensures Dot(Lin(a, x, b, y), z) == a * Dot(x, z) + b * Dot(y, z)
    ensures Dot(z, Lin(a, x, b, y)) == a * Dot(z, x) + b * Dot(z, y)
  {
    hide Dot, Lin;
    DotLinLeft(a, x, b, y, z);
    DotLinRight(a, x, b, y, z);
  }

  lemma SameCombination(a: real, p: real, p': real, b: real, q: real, q': real)
    requires p == p' && q == q'
    ensures a * p + b * q == a * p' + b * q'
  {}

  lemma {:induction false} DotLinLeft(a: real, x: Vector, b: real, y: Vector, z: Vector)
    requires |x| == |y| == |z|
    ensures Dot(Lin(a, x, b, y), z) == a * Dot(x, z) + b * Dot(y, z)
  {
    hide Dot;
    if x == [] {
      DotNone(x, z);
      DotNone(y, z);
      DotNone(Lin(a, x, b, y), z);
      SameCombination(a, Dot(x, z), 0.0, b, Dot(y, z), 0.0);
    } else {
      var m, l := |x| - 1, Lin(a, x, b, y);
      DotLinLeft(a, x[..m], b, y[..m], z[..m]);
      LinPrefix(a, x, b, y, m);
      DotLast(l, z, l[m], z[m]);
      DotLast(x, z, x[m], z[m]);
      DotLast(y, z, y[m], z[m]);
      Distribute(a, x[m], b, y[m], z[m], l[m], Dot(x[..m], z[..m]), Dot(y[..m], z[..m]), Dot(l[..m], z[..m]),
                 Dot(x, z), Dot(y, z), Dot(l, z));
    }
  }

  lemma {:induction false} DotLinRight(a: real, x: Vector, b: real, y: Vector, z: Vector)
    requires |x| == |y| == |z|
    ensures Dot(z, Lin(a, x, b, y)) == a * Dot(z, x) + b * Dot(z, y)
  {
    hide Dot;
    if x == [] {
      DotNone(z, x);
      DotNone(z, y);
      DotNone(z, Lin(a, x, b, y));
      SameCombination(a, Dot(z, x), 0.0, b, Dot(z, y), 0.0);
    } else {
      var m, l := |x| - 1, Lin(a, x, b, y);
      DotLinRight(a, x[..m], b, y[..m], z[..m]);
      LinPrefix(a, x, b, y, m);
      DotLast(z, l, z[m], l[m]);
      DotLast(z, x, z[m], x[m]);
      DotLast(z, y, z[m], y[m]);
      Commute(z[m], l[m]);
      Commute(z[m], x[m]);
      Commute(z[m], y[m]);
      Distribute(a, x[m], b, y[m], z[m], l[m], Dot(z[..m], x[..m]), Dot(z[..m], y[..m]), Dot(z[..m], l[..m]),
                 Dot(z, x), Dot(z, y), Dot(z, l));
    }
  }

  lemma Commute(x: real, y: real)
    ensures x * y == y * x
  {}

  lemma LinPrefix(a: real, x: Vector, b: real, y: Vector, m: nat)
    requires |x| == |y| && m <= |x|
    ensures Lin(a, x, b, y)[..m] == Lin(a, x[..m], b, y[..m])
  {
    forall i | 0 <= i < m ensures Lin(a, x, b, y)[..m][i] == Lin(a, x[..m], b, y[..m])[i] {
      assert x[..m][i] == x[i] && y[..m][i] == y[i];
    }
  }

  lemma Distribute(a: real, x: real, b: real, y: real, z: real, l: real, dx: real, dy: real, dl: real,
                   dx': real, dy': real, dl': real)
    requires l == a * x + b * y && dl == a * dx + b * dy
    requires dx' == dx + x * z && dy' == dy + y * z && dl' == dl + l * z
    ensures dl' == a * dx' + b * dy'
  {
    assert l * z == a * (x * z) + b * (y * z);
    assert a * dx' == a * dx + a * (x * z) && b * dy' == b * dy + b * (y * z);
  }

  /** Changing two entries of two vectors changes their product by those two terms only. */
  lemma {:induction false} DotTwo(x: Vector, y: Vector, x': Vector, y': Vector, p: nat, q: nat)
    requires |x| == |y| == |x'| == |y'| && p < q < |x|
    requires forall i :: 0 <= i < |x| && i != p && i != q ==> x'[i] == x[i] && y'[i] == y[i]
    ensures Dot(x', y') - Dot(x, y) == x'[p] * y'[p] - x[p] * y[p] + x'[q] * y'[q] - x[q] * y[q]
  {
    var m := |x| - 1;
    if q == m {
      DotOne(x[..m], y[..m], x'[..m], y'[..m], p);
    } else {
      DotTwo(x[..m], y[..m], x'[..m], y'[..m], p, q);
    }
  }

  lemma {:induction false} DotOne(x: Vector, y: Vector, x': Vector, y': Vector, p: nat)
    requires |x| == |y| == |x'| == |y'| && p < |x|
    requires forall i :: 0 <= i < |x| && i != p ==> x'[i] == x[i] && y'[i] == y[i]
    ensures Dot(x', y') - Dot(x, y) == x'[p] * y'[p] - x[p] * y[p]
  {
    var m := |x| - 1;
    if p == m {
      assert x[..m] == x'[..m] && y[..m] == y'[..m];
    } else {
      DotOne(x[..m], y[..m], x'[..m], y'[..m], p);
    }
  }

  lemma {:induction false} SumTwo(x: Vector, x': Vector, p: nat, q: nat)
    requires |x| == |x'| && p < q < |x|
    requires forall i :: 0 <= i < |x| && i != p && i != q ==> x'[i] == x[i]
    ensures Sum(x') - Sum(x) == x'[p] - x[p] + x'[q] - x[q]
  {
    var m := |x| - 1;
    if q == m {
      SumOne(x[..m], x'[..m], p);
    } else {
      SumTwo(x[..m], x'[..m], p, q);
    }
  }

  lemma {:induction false} SumOne(x: Vector, x': Vector, p: nat)
    requires |x| == |x'| && p < |x|
    requires forall i :: 0 <= i < |x| && i != p ==> x'[i] == x[i]
    ensures Sum(x') - Sum(x) == x'[p] - x[p]
  {
    var m := |x| - 1;
    if p == m {
      assert x[..m] == x'[..m];
    } else {
      SumOne(x[..m], x'[..m], p);
    }
  }

  /** A plane rotation keeps products: of numbers, and hence of vectors. */
  lemma PlaneProduct(c: real, s: real, u: real, v: real, w: real, z: real)
    requires c * c + s * s == 1.0
    ensures (c * u - s * v) * (c * w - s * z) + (s * u + c * v) * (s * w + c * z) == u * w + v * z
  {
    var cc, ss := c * c, s * s;
    assert (c * u - s * v) * (c * w - s * z) == cc * (u * w) - (c * s) * (u * z) - (c * s) * (v * w) + ss * (v * z);
    assert (s * u + c * v) * (s * w + c * z) == ss * (u * w) + (c * s) * (u * z) + (c * s) * (v * w) + cc * (v * z);
    assert cc * (u * w) + ss * (u * w) == (cc + ss) * (u * w);
    assert cc * (v * z) + ss * (v * z) == (cc + ss) * (v * z);
  }

  lemma RotationKeepsDot(x: Vector, y: Vector, p: nat, q: nat, c: real, s: real)
    requires |x| == |y| && p < q < |x| && c * c + s * s == 1.0
    ensures Dot(RotateVector(x, p, q, c, s), RotateVector(y, p, q, c, s)) == Dot(x, y)
  {
    hide Dot, RotateVector;
    RotateAt(x, p, q, c, s);
    RotateAt(y, p, q, c, s);
    var x', y' := RotateVector(x, p, q, c, s), RotateVector(y, p, q, c, s);
    DotTwo(x, y, x', y', p, q);
    PlaneTerms(c, s, x[p], x[q], y[p], y[q], x'[p], x'[q], y'[p], y'[q]);
  }

  lemma RotateAt(x: Vector, p: nat, q: nat, c: real, s: real)
    requires p < q < |x|
    ensures var y := RotateVector(x, p, q, c, s);
            && y[p] == c * x[p] - s * x[q] && y[q] == s * x[p] + c * x[q]
            && forall i :: 0 <= i < |x| && i != p && i != q ==> y[i] == x[i]
  {}

  lemma PlaneTerms(c: real, s: real, u: real, v: real, w: real, z: real, u': real, v': real, w': real, z': real)
    requires c * c + s * s == 1.0
    requires u' == c * u - s * v && v' == s * u + c * v && w' == c * w - s * z && z' == s * w + c * z
    ensures u' * w' + v' * z' == u * w + v * z
  {
    PlaneProduct(c, s, u, v, w, z);
  }

  // ---- entries of a rotated matrix ----

  lemma ColumnsAt(m: Matrix, n: nat, p: nat, q: nat, c: real, s: real, k: nat, j: nat)
    requires Square(m, n) && p < q < n && k < n && j < n
    ensures RotateColumns(m, n, p, q, c, s)[k][j] ==
            CoefA(p, q, c, s, j) * m[k][From(p, q, j)] + CoefB(p, q, c, s, j) * m[k][Other(p, q, j)]
  {}

  lemma RowsAt(m: Matrix, n: nat, p: nat, q: nat, c: real, s: real, i: nat, k: nat)
    requires Square(m, n) && p < q < n && i < n && k < n
    ensures RotateRows(m, n, p, q, c, s)[i][k] ==
            CoefA(p, q, c, s, i) * m[From(p, q, i)][k] + CoefB(p, q, c, s, i) * m[Other(p, q, i)][k]
  {}

  /** The entry (i, j) of J'mJ, from at most four entries of m. */
  function Entry(m: Matrix, n: nat, p: nat, q: nat, c: real, s: real, i: nat, j: nat): real
    requires Square(m, n) && p < q < n && i < n && j < n
  {
    CoefA(p, q, c, s, i) * (CoefA(p, q, c, s, j) * m[From(p, q, i)][From(p, q, j)] +
                            CoefB(p, q, c, s, j) * m[From(p, q, i)][Other(p, q, j)]) +
    CoefB(p, q, c, s, i) * (CoefA(p, q, c, s, j) * m[Other(p, q, i)][From(p, q, j)] +
                            CoefB(p, q, c, s, j) * m[Other(p, q, i)][Other(p, q, j)])
  }

  lemma RotatedAt(m: Matrix, n: nat, p: nat, q: nat, c: real, s: real, i: nat, j: nat)
    requires Square(m, n) && p < q < n && i < n && j < n
    ensures Rotated(m, n, p, q, c, s)[i][j] == Entry(m, n, p, q, c, s, i, j)
  {
    hide RotateRows, RotateColumns;
    var b := RotateColumns(m, n, p, q, c, s);
    RowsAt(b, n, p, q, c, s, i, j);
    ColumnsAt(m, n, p, q, c, s, From(p, q, i), j);
    ColumnsAt(m, n, p, q, c, s, Other(p, q, i), j);
  }

  // ---- what a rotation keeps ----

  lemma KeepsSymmetry(m: Matrix, n: nat, p: nat, q: nat, c: real, s: real)
    requires Square(m, n) && Symmetric(m, n) && p < q < n
    ensures Symmetric(Rotated(m, n, p, q, c, s), n)
  {
    hide Rotated;
    forall i, j | 0 <= i < n && 0 <= j < n
      ensures Rotated(m, n, p, q, c, s)[i][j] == Rotated(m, n, p, q, c, s)[j][i]
    {
      RotatedAt(m, n, p, q, c, s, i, j);
      RotatedAt(m, n, p, q, c, s, j, i);
      EntrySymmetric(m, n, p, q, c, s, i, j);
    }
  }

  lemma EntrySymmetric(m: Matrix, n: nat, p: nat, q: nat, c: real, s: real, i: nat, j: nat)
    requires Square(m, n) && Symmetric(m, n) && p < q < n && i < n && j < n
    ensures Entry(m, n, p, q, c, s, i, j) == Entry(m, n, p, q, c, s, j, i)
  {
    hide CoefA, CoefB, From, Other;
    var i1, i2, j1, j2 := From(p, q, i), Other(p, q, i), From(p, q, j), Other(p, q, j);
    FromInRange(p, q, n, i);
    FromInRange(p, q, n, j);
    FourTerms(CoefA(p, q, c, s, i), CoefB(p, q, c, s, i), CoefA(p, q, c, s, j), CoefB(p, q, c, s, j),
              m[i1][j1], m[i1][j2], m[i2][j1], m[i2][j2]);
  }

  lemma FromInRange(p: nat, q: nat, n: nat, i: nat)
    requires p < q < n && i < n
    ensures From(p, q, i) < n && Other(p, q, i) < n
  {}

  lemma FourTerms(a: real, b: real, a': real, b': real, w: real, x: real, y: real, z: real)
    ensures a * (a' * w + b' * x) + b * (a' * y + b' * z) == a' * (a * w + b * y) + b' * (a * x + b * z)
  {}

  lemma KeepsTrace(m: Matrix, n: nat, p: nat, q: nat, c: real, s: real)
    requires Square(m, n) && p < q < n && c * c + s * s == 1.0
    ensures Trace(Rotated(m, n, p, q, c, s), n) == Trace(m, n)
  {
    hide Rotated;
    var m' := Rotated(m, n, p, q, c, s);
    forall i | 0 <= i < n ensures m'[i][i] == Entry(m, n, p, q, c, s, i, i) {
      RotatedAt(m, n, p, q, c, s, i, i);
    }
    SumTwo(Diagonal(m, n), Diagonal(m', n), p, q);
    DiagonalPair(m[p][p], m[p][q], m[q][p], m[q][q], c, s);
  }

  lemma DiagonalPair(w: real, x: real, y: real, z: real, c: real, s: real)
    requires c * c + s * s == 1.0
    ensures c * (c * w + (-s) * x) + (-s) * (c * y + (-s) * z) + (s * (s * w + c * x) + c * (s * y + c * z)) == w + z
  {
    var cc, ss, cs := c * c, s * s, c * s;
    assert c * (c * w + (-s) * x) + (-s) * (c * y + (-s) * z) == cc * w - cs * x - cs * y + ss * z;
    assert s * (s * w + c * x) + c * (s * y + c * z) == ss * w + cs * x + cs * y + cc * z;
    assert cc * w + ss * w == (cc + ss) * w;
    assert cc * z + ss * z == (cc + ss) * z;
  }

  lemma KeepsFrobenius(m: Matrix, n: nat, p: nat, q: nat, c: real, s: real)
    requires Square(m, n) && p < q < n && c * c + s * s == 1.0
    ensures Frobenius(Rotated(m, n, p, q, c, s)) == Frobenius(m)
  {
    var b := RotateColumns(m, n, p, q, c, s);
    forall k | 0 <= k < n ensures SumSq(b[k]) == SumSq(m[k]) {
      RotationKeepsDot(m[k], m[k], p, q, c, s);
    }
    assert RowNorms(b) == RowNorms(m);
    RowsKeepFrobenius(b, n, p, q, c, s);
  }

  lemma RowsKeepFrobenius(m: Matrix, n: nat, p: nat, q: nat, c: real, s: real)
    requires Square(m, n) && p < q < n && c * c + s * s == 1.0
    ensures Frobenius(RotateRows(m, n, p, q, c, s)) == Frobenius(m)
  {
    var m' := RotateRows(m, n, p, q, c, s);
    SumTwo(RowNorms(m), RowNorms(m'), p, q);
    RowPair(m[p], m[q], c, s);
  }

  lemma RowPair(x: Vector, y: Vector, c: real, s: real)
    requires |x| == |y| && c * c + s * s == 1.0
    ensures SumSq(Lin(c, x, -s, y)) + SumSq(Lin(s, x, c, y)) == SumSq(x) + SumSq(y)
  {
    hide Dot, Lin;
    var u, v := Lin(c, x, -s, y), Lin(s, x, c, y);
    LinSquares(c, x, -s, y);
    LinSquares(s, x, c, y);
    PairForm(Dot(x, x), Dot(x, y), Dot(y, x), Dot(y, y), c, s,
             Dot(x, u), Dot(y, u), Dot(u, u), Dot(x, v), Dot(y, v), Dot(v, v));
  }

  /** The products of one combination with itself and with its parts. */
  lemma LinSquares(a: real, x: Vector, b: real, y: Vector)
    requires |x| == |y|
    ensures var u := Lin(a, x, b, y);
            && Dot(u, u) == a * Dot(x, u) + b * Dot(y, u)
            && Dot(x, u) == a * Dot(x, x) + b * Dot(x, y)
            && Dot(y, u) == a * Dot(y, x) + b * Dot(y, y)
  {
    hide Dot, Lin;
    DotLin(a, x, b, y, Lin(a, x, b, y));
    DotLin(a, x, b, y, x);
    DotLin(a, x, b, y, y);
  }

  lemma PairForm(w: real, x: real, y: real, z: real, c: real, s: real,
                 xu: real, yu: real, uu: real, xv: real, yv: real, vv: real)
    requires c * c + s * s == 1.0
    requires xu == c * w + -s * x && yu == c * y + -s * z && uu == c * xu + -s * yu
    requires xv == s * w + c * x && yv == s * y + c * z && vv == s * xv + c * yv
    ensures uu + vv == w + z
  {
    DiagonalPair(w, x, y, z, c, s);
  }
}
