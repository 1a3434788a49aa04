/** The state of the Jacobi eigensolver: how the working matrix and the accumulated rotations are
    related to the input at any moment, and what that says about the answer. */
module Eigen {
  import opened Moments
  import opened Matrices

  /** The columns of v have length one and are orthogonal: v'v = I. */
  ghost predicate Orthonormal(v: Matrix, n: nat)
    requires Square(v, n)
  {
    forall i, j :: 0 <= i < n && 0 <= j < n ==> Dot(Column(v, n, i), Column(v, n, j)) == Delta(i, j)
  }

  /** So have the rows: vv' = I. */
  ghost predicate RowOrthonormal(v: Matrix, n: nat)
    requires Square(v, n)
  {
    forall i, j :: 0 <= i < n && 0 <= j < n ==> Dot(v[i], v[j]) == Delta(i, j)
  }

  /** m v = v a. */
  ghost predicate Intertwines(m: Matrix, v: Matrix, a: Matrix, n: nat)
    requires Square(m, n) && Square(v, n) && Square(a, n)
  {
    forall k, j :: 0 <= k < n && 0 <= j < n ==> Dot(m[k], Column(v, n, j)) == Dot(v[k], Column(a, n, j))
  }

  /** v'mv = a. */
  ghost predicate Similar(m: Matrix, v: Matrix, a: Matrix, n: nat)
    requires Square(m, n) && Square(v, n) && Square(a, n)
  {
    forall i, j :: 0 <= i < n && 0 <= j < n ==> Dot(Column(v, n, i), Apply(m, n, Column(v, n, j))) == a[i][j]
  }

  ghost predicate Decomposes(m: Matrix, v: Matrix, a: Matrix, n: nat)
    requires Square(m, n) && Square(v, n) && Square(a, n)
  {
    && Symmetric(a, n) && Orthonormal(v, n) && RowOrthonormal(v, n)
    && Intertwines(m, v, a, n) && Similar(m, v, a, n)
    && Trace(a, n) == Trace(m, n) && Frobenius(a) == Frobenius(m)
  }

  // ---- the start ----

  function Unit(n: nat, j: nat): (x: Vector)
    ensures |x| == n
  {
    seq(n, i requires 0 <= i < n => Delta(i, j))
  }

  lemma {:induction false} DotUnit(x: Vector, n: nat, j: nat)
    requires |x| == n
    ensures Dot(x, Unit(n, j)) == if j < n then x[j] else 0.0
  {
    if n > 0 {
      DotUnit(x[..n - 1], n - 1, j);
      assert Unit(n, j)[..n - 1] == Unit(n - 1, j);
    }
  }

  lemma IdentityParts(n: nat, i: nat)
    requires i < n
    ensures Square(Identity(n), n) && Column(Identity(n), n, i) == Unit(n, i) && Identity(n)[i] == Unit(n, i)
  {}

  lemma StartDecomposes(m: Matrix, n: nat)
    requires Square(m, n) && Symmetric(m, n)
    ensures Square(Identity(n), n) && Decomposes(m, Identity(n), m, n)
  {
    hide Dot, Column, Identity, Unit, Apply;
    var v := Identity(n);
    IdentitySquare(n);
    forall i, j | 0 <= i < n && 0 <= j < n
      ensures Dot(Column(v, n, i), Column(v, n, j)) == Delta(i, j) && Dot(v[i], v[j]) == Delta(i, j)
      ensures Dot(m[i], Column(v, n, j)) == Dot(v[i], Column(m, n, j))
      ensures Dot(Column(v, n, i), Apply(m, n, Column(v, n, j))) == m[i][j]
    {
      IdentityParts(n, i);
      IdentityParts(n, j);
      UnitFacts(n, i);
      UnitFacts(n, j);
      ColumnFacts(m, n, j);
      DotUnit(Unit(n, i), n, j);
      DotUnit(m[i], n, j);
      DotUnit(Column(m, n, j), n, i);
      DotSymmetric(Unit(n, i), Column(m, n, j));
      var y := Apply(m, n, Unit(n, j));
      ApplyFacts(m, n, Unit(n, j));
      DotUnit(y, n, i);
      DotSymmetric(Unit(n, i), y);
    }
  }

  lemma IdentitySquare(n: nat)
    ensures Square(Identity(n), n)
  {}

  lemma UnitFacts(n: nat, j: nat)
    ensures |Unit(n, j)| == n && forall i :: 0 <= i < n ==> Unit(n, j)[i] == Delta(i, j)
  {}

  lemma ColumnFacts(m: Matrix, n: nat, j: nat)
    requires Square(m, n) && j < n
    ensures |Column(m, n, j)| == n && forall i :: 0 <= i < n ==> Column(m, n, j)[i] == m[i][j]
  {}

  lemma ApplyFacts(m: Matrix, n: nat, x: Vector)
    requires Square(m, n) && |x| == n
    ensures |Apply(m, n, x)| == n && forall i :: 0 <= i < n ==> Apply(m, n, x)[i] == Dot(m[i], x)
  {}

  // ---- one rotation ----

  lemma ColumnRotates(v: Matrix, n: nat, p: nat, q: nat, c: real, s: real, j: nat)
    requires Square(v, n) && p < q < n && j < n
    ensures From(p, q, j) < n && Other(p, q, j) < n
    ensures Column(RotateColumns(v, n, p, q, c, s), n, j) ==
            Lin(CoefA(p, q, c, s, j), Column(v, n, From(p, q, j)), CoefB(p, q, c, s, j), Column(v, n, Other(p, q, j)))
  {
    hide RotateColumns;
    var v' := RotateColumns(v, n, p, q, c, s);
    FromInRange(p, q, n, j);
    var x, y := Column(v, n, From(p, q, j)), Column(v, n, Other(p, q, j));
    var z := Lin(CoefA(p, q, c, s, j), x, CoefB(p, q, c, s, j), y);
    forall k | 0 <= k < n ensures Column(v', n, j)[k] == z[k] {
      ColumnsAt(v, n, p, q, c, s, k, j);
      assert x[k] == v[k][From(p, q, j)] && y[k] == v[k][Other(p, q, j)];
    }
  }

  /** (a x + b y) . (a' z + b' w), expanded. */
  lemma DotLinLin(a: real, x: Vector, b: real, y: Vector, a': real, z: Vector, b': real, w: Vector)
    requires |x| == |y| == |z| == |w|
    ensures Dot(Lin(a, x, b, y), Lin(a', z, b', w)) ==
            a * (a' * Dot(x, z) + b' * Dot(x, w)) + b * (a' * Dot(y, z) + b' * Dot(y, w))
  {
    hide Dot, Lin;
    var u := Lin(a', z, b', w);
    DotLin(a, x, b, y, u);
    DotLin(a', z, b', w, x);
    DotLin(a', z, b', w, y);
    assert Dot(x, u) == a' * Dot(x, z) + b' * Dot(x, w);
    assert Dot(y, u) == a' * Dot(y, z) + b' * Dot(y, w);
  }

  /** J'J = I, entry by entry. */
  lemma PlaneOrthonormal(p: nat, q: nat, c: real, s: real, i: nat, j: nat)
    requires p < q && c * c + s * s == 1.0
    ensures CoefA(p, q, c, s, i) * (CoefA(p, q, c, s, j) * Delta(From(p, q, i), From(p, q, j)) +
                                    CoefB(p, q, c, s, j) * Delta(From(p, q, i), Other(p, q, j))) +
            CoefB(p, q, c, s, i) * (CoefA(p, q, c, s, j) * Delta(Other(p, q, i), From(p, q, j)) +
                                    CoefB(p, q, c, s, j) * Delta(Other(p, q, i), Other(p, q, j))) == Delta(i, j)
  {}

  lemma OrthonormalEntry(v: Matrix, n: nat, p: nat, q: nat, c: real, s: real, i: nat, j: nat)
    requires Square(v, n) && Orthonormal(v, n) && p < q < n && c * c + s * s == 1.0 && i < n && j < n
    ensures var v' := RotateColumns(v, n, p, q, c, s);
            Dot(Column(v', n, i), Column(v', n, j)) == Delta(i, j)
  {
    hide Dot, Lin, Column, RotateColumns, CoefA, CoefB, From, Other, Delta;
    ColumnRotates(v, n, p, q, c, s, i);
    ColumnRotates(v, n, p, q, c, s, j);
    var i1, i2, j1, j2 := From(p, q, i), Other(p, q, i), From(p, q, j), Other(p, q, j);
    DotLinLin(CoefA(p, q, c, s, i), Column(v, n, i1), CoefB(p, q, c, s, i), Column(v, n, i2),
              CoefA(p, q, c, s, j), Column(v, n, j1), CoefB(p, q, c, s, j), Column(v, n, j2));
    PlaneOrthonormal(p, q, c, s, i, j);
  }

  lemma KeepsRowOrthonormal(v: Matrix, n: nat, p: nat, q: nat, c: real, s: real)
    requires Square(v, n) && RowOrthonormal(v, n) && p < q < n && c * c + s * s == 1.0
    ensures RowOrthonormal(RotateColumns(v, n, p, q, c, s), n)
  {
    hide Dot, RotateVector;
    forall i, j | 0 <= i < n && 0 <= j < n
      ensures Dot(RotateVector(v[i], p, q, c, s), RotateVector(v[j], p, q, c, s)) == Delta(i, j)
    {
      RotationKeepsDot(v[i], v[j], p, q, c, s);
    }
  }

  /** The column of J'bJ over the rotated rows of v: J cancels. */
  lemma RotatedColumn(b: Matrix, n: nat, p: nat, q: nat, c: real, s: real, j: nat)
    requires Square(b, n) && p < q < n && j < n
    ensures Column(RotateRows(b, n, p, q, c, s), n, j) == RotateVector(Column(b, n, j), p, q, c, s)
  {
    var x, y := Column(RotateRows(b, n, p, q, c, s), n, j), RotateVector(Column(b, n, j), p, q, c, s);
    forall i | 0 <= i < n ensures x[i] == y[i] {
      if i == p {
        assert x[i] == c * b[p][j] + -s * b[q][j];
        assert y[i] == c * b[p][j] - s * b[q][j];
      }
    }
  }

  lemma IntertwinesEntry(m: Matrix, v: Matrix, a: Matrix, n: nat, p: nat, q: nat, c: real, s: real, k: nat, j: nat)
    requires Square(m, n) && Square(v, n) && Square(a, n) && Intertwines(m, v, a, n)
    requires p < q < n && c * c + s * s == 1.0 && k < n && j < n
    ensures var v', a' := RotateColumns(v, n, p, q, c, s), Rotated(a, n, p, q, c, s);
            Dot(m[k], Column(v', n, j)) == Dot(v'[k], Column(a', n, j))
  {
    hide Dot, Lin, Column, RotateRows, CoefA, CoefB, From, Other, RotateVector;
    var b := RotateColumns(a, n, p, q, c, s);
    var ca, cb, j1, j2 := CoefA(p, q, c, s, j), CoefB(p, q, c, s, j), From(p, q, j), Other(p, q, j);
    ColumnRotates(v, n, p, q, c, s, j);
    ColumnRotates(a, n, p, q, c, s, j);
    DotLin(ca, Column(v, n, j1), cb, Column(v, n, j2), m[k]);
    DotLin(ca, Column(a, n, j1), cb, Column(a, n, j2), v[k]);
    RotatedColumn(b, n, p, q, c, s, j);
    RotationKeepsDot(v[k], Column(b, n, j), p, q, c, s);
  }

  lemma SimilarEntry(m: Matrix, v: Matrix, a: Matrix, n: nat, p: nat, q: nat, c: real, s: real, i: nat, j: nat)
    requires Square(m, n) && Square(v, n) && Square(a, n) && Similar(m, v, a, n)
    requires p < q < n && i < n && j < n
    ensures var v' := RotateColumns(v, n, p, q, c, s);
            Dot(Column(v', n, i), Apply(m, n, Column(v', n, j))) == Rotated(a, n, p, q, c, s)[i][j]
  {
    hide Dot, Lin, Column, RotateColumns, Rotated, CoefA, CoefB, From, Other, Apply;
    ColumnRotates(v, n, p, q, c, s, i);
    ColumnRotates(v, n, p, q, c, s, j);
    var i1, i2, j1, j2 := From(p, q, i), Other(p, q, i), From(p, q, j), Other(p, q, j);
    ApplyLin(m, n, CoefA(p, q, c, s, j), Column(v, n, j1), CoefB(p, q, c, s, j), Column(v, n, j2));
    DotLinLin(CoefA(p, q, c, s, i), Column(v, n, i1), CoefB(p, q, c, s, i), Column(v, n, i2),
              CoefA(p, q, c, s, j), Apply(m, n, Column(v, n, j1)), CoefB(p, q, c, s, j), Apply(m, n, Column(v, n, j2)));
    RotatedAt(a, n, p, q, c, s, i, j);
  }

  lemma ApplyLin(m: Matrix, n: nat, a: real, x: Vector, b: real, y: Vector)
    requires Square(m, n) && |x| == n && |y| == n
    ensures Apply(m, n, Lin(a, x, b, y)) == Lin(a, Apply(m, n, x), b, Apply(m, n, y))
  {
    hide Dot;
    var z, w := Apply(m, n, Lin(a, x, b, y)), Lin(a, Apply(m, n, x), b, Apply(m, n, y));
    forall k | 0 <= k < n ensures z[k] == w[k] {
      DotLin(a, x, b, y, m[k]);
      assert z[k] == Dot(m[k], Lin(a, x, b, y));
      assert Apply(m, n, x)[k] == Dot(m[k], x) && Apply(m, n, y)[k] == Dot(m[k], y);
    }
  }

  /** Every rotation, by whatever angle, keeps the whole relation to the input. */
  lemma RotationDecomposes(m: Matrix, v: Matrix, a: Matrix, n: nat, p: nat, q: nat, c: real, s: real)
    requires Square(m, n) && Square(v, n) && Square(a, n) && Decomposes(m, v, a, n)
    requires p < q < n && c * c + s * s == 1.0
    ensures Decomposes(m, RotateColumns(v, n, p, q, c, s), Rotated(a, n, p, q, c, s), n)
  {
    hide Dot, Column, RotateColumns, Rotated, Apply, Trace, Frobenius, Symmetric;
    var v', a' := RotateColumns(v, n, p, q, c, s), Rotated(a, n, p, q, c, s);
    KeepsSymmetry(a, n, p, q, c, s);
    KeepsTrace(a, n, p, q, c, s);
    KeepsFrobenius(a, n, p, q, c, s);
    KeepsRowOrthonormal(v, n, p, q, c, s);
    forall i, j | 0 <= i < n && 0 <= j < n
      ensures Dot(Column(v', n, i), Column(v', n, j)) == Delta(i, j)
      ensures Dot(m[i], Column(v', n, j)) == Dot(v'[i], Column(a', n, j))
      ensures Dot(Column(v', n, i), Apply(m, n, Column(v', n, j))) == a'[i][j]
    {
      OrthonormalEntry(v, n, p, q, c, s, i, j);
      IntertwinesEntry(m, v, a, n, p, q, c, s, i, j);
      SimilarEntry(m, v, a, n, p, q, c, s, i, j);
    }
  }

  // ---- the off-diagonal mass ----

  /** Rows 0..r above the diagonal, up to column k. */
  function UpTo(m: Matrix, n: nat, r: nat, k: nat): real
    requires Square(m, n) && r <= k <= n
  {
    if r == 0 then 0.0 else UpTo(m, n, r - 1, k) + SumSq(m[r - 1][r..k])
  }

  /** The sum of squares above the diagonal, which the solver drives to zero. */
  function Off(m: Matrix, n: nat): real
    requires Square(m, n)
  {
    UpTo(m, n, n, n)
  }

  function Below(m: Matrix, n: nat, r: nat): real
    requires Square(m, n) && r <= n
  {
    if r == 0 then 0.0 else Below(m, n, r - 1) + SumSq(m[r - 1][..r - 1])
  }

  lemma {:induction false} SumSqSplit(x: Vector, i: nat)
    requires i <= |x|
    ensures SumSq(x) == SumSq(x[..i]) + SumSq(x[i..])
  {
    if i == |x| {
      assert x[..i] == x && x[i..] == [];
    } else {
      SumSqSplit(x[..|x| - 1], i);
      assert x[..|x| - 1][..i] == x[..i];
      assert x[i..] == x[..|x| - 1][i..] + [x[|x| - 1]];
      SumSnoc(x[..|x| - 1][i..], x[|x| - 1]);
    }
  }

  lemma {:induction false} ColumnJoins(m: Matrix, n: nat, r: nat, k: nat)
    requires Square(m, n) && r <= k < n
    ensures UpTo(m, n, r, k + 1) == UpTo(m, n, r, k) + SumSq(Column(m, n, k)[..r])
  {
    if r > 0 {
      ColumnJoins(m, n, r - 1, k);
      assert m[r - 1][r..k + 1] == m[r - 1][r..k] + [m[r - 1][k]];
      SumSnoc(m[r - 1][r..k], m[r - 1][k]);
      assert Column(m, n, k)[..r] == Column(m, n, k)[..r - 1] + [m[r - 1][k]];
      SumSnoc(Column(m, n, k)[..r - 1], m[r - 1][k]);
    }
  }

  /** Above and below the diagonal of a symmetric matrix there is the same mass. */
  lemma {:induction false} SymmetricHalves(m: Matrix, n: nat, k: nat)
    requires Square(m, n) && Symmetric(m, n) && k <= n
    ensures UpTo(m, n, k, k) == Below(m, n, k)
  {
    if k > 0 {
      SymmetricHalves(m, n, k - 1);
      ColumnJoins(m, n, k - 1, k - 1);
      assert Column(m, n, k - 1)[..k - 1] == m[k - 1][..k - 1];
      assert m[k - 1][k..k] == [];
    }
  }

  lemma {:induction false} RowsSplit(m: Matrix, n: nat, r: nat)
    requires Square(m, n) && r <= n
    ensures Sum(RowNorms(m)[..r]) == Below(m, n, r) + SumSq(Diagonal(m, n)[..r]) + UpTo(m, n, r, n)
  {
    hide Dot, Sum;
    if r == 0 {
      RowsNone(m, n);
    } else {
      RowsSplit(m, n, r - 1);
      var x := m[r - 1];
      assert RowNorms(m)[..r] == RowNorms(m)[..r - 1] + [SumSq(x)];
      SumSnoc(RowNorms(m)[..r - 1], SumSq(x));
      assert Diagonal(m, n)[..r] == Diagonal(m, n)[..r - 1] + [x[r - 1]];
      SumSnoc(Diagonal(m, n)[..r - 1], x[r - 1]);
      SumSqSplit(x, r);
      assert x[..r] == x[..r - 1] + [x[r - 1]];
      SumSnoc(x[..r - 1], x[r - 1]);
      assert x[r..n] == x[r..];
    }
  }

  lemma RowsNone(m: Matrix, n: nat)
    requires Square(m, n)
    ensures Sum(RowNorms(m)[..0]) == Below(m, n, 0) + SumSq(Diagonal(m, n)[..0]) + UpTo(m, n, 0, n)
  {}

  /** What is not on the diagonal of a symmetric matrix is twice the upper triangle. */
  lemma FrobeniusSplit(m: Matrix, n: nat)
    requires Square(m, n) && Symmetric(m, n)
    ensures Frobenius(m) == SumSq(Diagonal(m, n)) + 2.0 * Off(m, n)
  {
    SymmetricHalves(m, n, n);
    RowsSplit(m, n, n);
    assert RowNorms(m)[..n] == RowNorms(m) && Diagonal(m, n)[..n] == Diagonal(m, n);
  }

  /** The condition under which a rotation annihilates the entry (p, q) of a symmetric matrix:
      tan(2 phi) = 2 a_pq / (a_qq - a_pp), without the quotient. */
  predicate Annihilates(app: real, apq: real, aqq: real, c: real, s: real) {
    c * c + s * s == 1.0 && (c * c - s * s) * (2.0 * apq) == 2.0 * (c * s) * (aqq - app)
  }

  lemma EntryPQ(a: Matrix, n: nat, p: nat, q: nat, c: real, s: real)
    requires Square(a, n) && Symmetric(a, n) && p < q < n
    ensures var a' := Rotated(a, n, p, q, c, s);
            && a'[p][p] == c * (c * a[p][p] + -s * a[p][q]) + -s * (c * a[p][q] + -s * a[q][q])
            && a'[p][q] == c * (s * a[p][p] + c * a[p][q]) + -s * (s * a[p][q] + c * a[q][q])
            && a'[q][q] == s * (s * a[p][p] + c * a[p][q]) + c * (s * a[p][q] + c * a[q][q])
            && (forall i :: 0 <= i < n && i != p && i != q ==> a'[i][i] == a[i][i])
  {
    hide Rotated;
    RotatedAt(a, n, p, q, c, s, p, p);
    RotatedAt(a, n, p, q, c, s, p, q);
    RotatedAt(a, n, p, q, c, s, q, q);
    forall i | 0 <= i < n && i != p && i != q ensures Rotated(a, n, p, q, c, s)[i][i] == a[i][i] {
      RotatedAt(a, n, p, q, c, s, i, i);
    }
  }

  lemma PairZero(x: real, z: real, y: real, c: real, s: real)
    requires Annihilates(x, z, y, c, s)
    ensures c * (s * x + c * z) + -s * (s * z + c * y) == 0.0
  {
    var cc, ss, cs := c * c, s * s, c * s;
    assert c * (s * x + c * z) + -s * (s * z + c * y) == cs * x + cc * z - ss * z - cs * y;
    assert (cc - ss) * (2.0 * z) == 2.0 * (cc * z - ss * z);
    assert 2.0 * cs * (y - x) == 2.0 * (cs * y - cs * x);
  }

  /** The squares of a symmetric 2x2 block keep their sum. */
  lemma PairSquares(x: real, z: real, y: real, c: real, s: real, x': real, z': real, y': real)
    requires c * c + s * s == 1.0
    requires x' == c * (c * x + -s * z) + -s * (c * z + -s * y)
    requires z' == c * (s * x + c * z) + -s * (s * z + c * y)
    requires y' == s * (s * x + c * z) + c * (s * z + c * y)
    ensures x' * x' + 2.0 * (z' * z') + y' * y' == x * x + 2.0 * (z * z) + y * y
  {
    var bpp, bpq, bqp, bqq := c * x - s * z, s * x + c * z, c * z - s * y, s * z + c * y;
    var w' := s * bpp + c * bqp;
    assert x' == c * bpp - s * bqp;
    assert z' == c * bpq - s * bqq;
    assert y' == s * bpq + c * bqq;
    assert w' == z' by {
      assert w' == (s * c) * x - (s * s) * z + (c * c) * z - (c * s) * y;
      assert z' == (c * s) * x + (c * c) * z - (s * s) * z - (s * c) * y;
    }
    PlaneTerms(c, s, x, z, x, z, bpp, bpq, bpp, bpq);
    PlaneTerms(c, s, z, y, z, y, bqp, bqq, bqp, bqq);
    PlaneTerms(c, s, bpp, bqp, bpp, bqp, x', w', x', w');
    PlaneTerms(c, s, bpq, bqq, bpq, bqq, z', y', z', y');
  }

  /** The chosen rotation zeroes a[p][q] and takes exactly its square off the upper triangle. */
  lemma RotationShrinks(a: Matrix, n: nat, p: nat, q: nat, c: real, s: real)
    requires Square(a, n) && Symmetric(a, n) && p < q < n
    requires Annihilates(a[p][p], a[p][q], a[q][q], c, s)
    ensures var a' := Rotated(a, n, p, q, c, s);
            a'[p][q] == 0.0 && Off(a', n) == Off(a, n) - a[p][q] * a[p][q]
  {
    hide Rotated, Off, Frobenius, Dot;
    var a' := Rotated(a, n, p, q, c, s);
    EntryPQ(a, n, p, q, c, s);
    PairZero(a[p][p], a[p][q], a[q][q], c, s);
    PairSquares(a[p][p], a[p][q], a[q][q], c, s, a'[p][p], a'[p][q], a'[q][q]);
    DotTwo(Diagonal(a, n), Diagonal(a, n), Diagonal(a', n), Diagonal(a', n), p, q);
    KeepsFrobenius(a, n, p, q, c, s);
    KeepsSymmetry(a, n, p, q, c, s);
    FrobeniusSplit(a, n);
    FrobeniusSplit(a', n);
    ZeroSquare(a'[p][q]);
  }

  lemma ZeroSquare(x: real)
    requires x == 0.0
    ensures x * x == 0.0
  {}

  // ---- what the answer is worth ----

  /** x as a combination of the first r columns of v. */
  function Combine(v: Matrix, n: nat, x: Vector, r: nat): (y: Vector)
    requires Square(v, n) && |x| == n && r <= n
    ensures |y| == n
  {
    if r == 0 then seq(n, _ => 0.0)
    else Lin(1.0, Combine(v, n, x, r - 1), x[r - 1], Column(v, n, r - 1))
  }

  lemma {:induction false} CombineAt(v: Matrix, n: nat, x: Vector, r: nat, k: nat)
    requires Square(v, n) && |x| == n && r <= n && k < n
    ensures Combine(v, n, x, r)[k] == Dot(v[k][..r], x[..r])
  {
    if r > 0 {
      CombineAt(v, n, x, r - 1, k);
      assert v[k][..r][..r - 1] == v[k][..r - 1] && x[..r][..r - 1] == x[..r - 1];
    }
  }

  lemma {:induction false} ZeroVector(n: nat, y: Vector)
    requires |y| == n
    ensures Dot(seq(n, _ => 0.0), y) == 0.0
  {
    if n > 0 {
      assert seq(n, _ => 0.0)[..n - 1] == seq(n - 1, _ => 0.0);
      ZeroVector(n - 1, y[..n - 1]);
    }
  }

  /** Orthonormal columns: a combination is as long as its coefficients. */
  lemma {:induction false} CombineLength(v: Matrix, n: nat, x: Vector, r: nat)
    requires Square(v, n) && Orthonormal(v, n) && |x| == n && r <= n
    ensures SumSq(Combine(v, n, x, r)) == SumSq(x[..r])
    ensures forall j :: r <= j < n ==> Dot(Combine(v, n, x, r), Column(v, n, j)) == 0.0
  {
    hide Dot, Lin, Column;
    var y := Combine(v, n, x, r);
    if r == 0 {
      ZeroVector(n, y);
      forall j | 0 <= j < n ensures Dot(y, Column(v, n, j)) == 0.0 {
        ZeroVector(n, Column(v, n, j));
      }
      EmptySquares();
      assert x[..0] == [];
    } else {
      var y0, u := Combine(v, n, x, r - 1), Column(v, n, r - 1);
      CombineLength(v, n, x, r - 1);
      DotLinLin(1.0, y0, x[r - 1], u, 1.0, y0, x[r - 1], u);
      DotSymmetric(u, y0);
      assert x[..r] == x[..r - 1] + [x[r - 1]];
      SumSnoc(x[..r - 1], x[r - 1]);
      forall j | r <= j < n ensures Dot(y, Column(v, n, j)) == 0.0 {
        DotLin(1.0, y0, x[r - 1], u, Column(v, n, j));
      }
    }
  }

  lemma EmptySquares()
    ensures SumSq([]) == 0.0
  {}

  /** m v_j - lambda_j v_j. */
  function Residual(m: Matrix, v: Matrix, a: Matrix, n: nat, j: nat): Vector
    requires Square(m, n) && Square(v, n) && Square(a, n) && j < n
  {
    Lin(1.0, Apply(m, n, Column(v, n, j)), -a[j][j], Column(v, n, j))
  }

  /** Column j of a without its diagonal entry. */
  function Rest(a: Matrix, n: nat, j: nat): (x: Vector)
    requires Square(a, n) && j < n
    ensures |x| == n
  {
    Lin(1.0, Column(a, n, j), -a[j][j], Unit(n, j))
  }

  /** How far a pair is from being an eigenpair: exactly the rest of its column. */
  lemma ResidualLength(m: Matrix, v: Matrix, a: Matrix, n: nat, j: nat)
    requires Square(m, n) && Square(v, n) && Square(a, n) && Decomposes(m, v, a, n) && j < n
    ensures SumSq(Residual(m, v, a, n, j)) == SumSq(Rest(a, n, j))
  {
    hide Dot, Column, Trace, Frobenius;
    var x := Rest(a, n, j);
    forall k | 0 <= k < n ensures Combine(v, n, x, n)[k] == Residual(m, v, a, n, j)[k] {
      CombineAt(v, n, x, n, k);
      assert v[k][..n] == v[k] && x[..n] == x;
      DotLin(1.0, Column(a, n, j), -a[j][j], Unit(n, j), v[k]);
      DotUnit(v[k], n, j);
      ColumnFacts(v, n, j);
    }
    assert Combine(v, n, x, n) == Residual(m, v, a, n, j);
    CombineLength(v, n, x, n);
    assert x[..n] == x;
  }

  function Residuals(m: Matrix, v: Matrix, a: Matrix, n: nat): (r: Vector)
    requires Square(m, n) && Square(v, n) && Square(a, n)
    ensures |r| == n
  {
    seq(n, j requires 0 <= j < n => SumSq(Residual(m, v, a, n, j)))
  }

  lemma RestLength(a: Matrix, n: nat, j: nat)
    requires Square(a, n) && Symmetric(a, n) && j < n
    ensures SumSq(Rest(a, n, j)) == SumSq(a[j]) - a[j][j] * a[j][j]
  {
    var x := Rest(a, n, j);
    forall i | 0 <= i < n ensures x[i] == if i == j then 0.0 else a[j][i] {
      ColumnFacts(a, n, j);
    }
    hide Rest, Dot;
    DotOne(a[j], a[j], x, x, j);
  }

  lemma {:induction false} SumOfDifferences(x: Vector, y: Vector, z: Vector)
    requires |x| == |y| == |z| && forall i :: 0 <= i < |x| ==> x[i] == y[i] - z[i]
    ensures Sum(x) == Sum(y) - Sum(z)
  {
    if x != [] {
      var m := |x| - 1;
      SumOfDifferences(x[..m], y[..m], z[..m]);
    }
  }

  function Squares(x: Vector): (y: Vector)
    ensures |y| == |x|
  {
    seq(|x|, i requires 0 <= i < |x| => x[i] * x[i])
  }

  lemma {:induction false} SumOfSquares(x: Vector)
    ensures Sum(Squares(x)) == SumSq(x)
  {
    if x != [] {
      var m := |x| - 1;
      SumOfSquares(x[..m]);
      forall i | 0 <= i < m ensures Squares(x)[..m][i] == Squares(x[..m])[i] {
        assert x[..m][i] == x[i];
      }
      assert Squares(x)[..m] == Squares(x[..m]);
    }
  }

  /** The total squared error of all n eigenpairs is exactly twice the remaining off-diagonal mass. */
  lemma ResidualsAreOff(m: Matrix, v: Matrix, a: Matrix, n: nat)
    requires Square(m, n) && Square(v, n) && Square(a, n) && Decomposes(m, v, a, n)
    ensures Sum(Residuals(m, v, a, n)) == 2.0 * Off(a, n)
  {
    hide Residual, Dot, Rest, Off;
    forall j | 0 <= j < n ensures Residuals(m, v, a, n)[j] == RowNorms(a)[j] - Squares(Diagonal(a, n))[j] {
      ResidualLength(m, v, a, n, j);
      RestLength(a, n, j);
    }
    SumOfDifferences(Residuals(m, v, a, n), RowNorms(a), Squares(Diagonal(a, n)));
    SumOfSquares(Diagonal(a, n));
    FrobeniusSplit(a, n);
  }
}
