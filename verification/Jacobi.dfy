/** The cyclic Jacobi eigensolver of internal/dataset/stats.go: nested loops that rewrite a matrix
    in place, over exact arithmetic. Cosine and sine of the chosen angle are known by the identity
    that defines them. */
module Jacobi {
  import opened Moments
  import opened Matrices
  import opened Eigen

  const MAX_SWEEPS := 100
  const OFF_THRESHOLD := 1e-12
  const NEGLIGIBLE := 1e-300

  /** angle(y, x) is (cos phi, sin phi) for phi = atan2(y, x) / 2. */
  ghost predicate HalfAngle(angle: (real, real) -> (real, real)) {
    forall y: real, x: real :: y != 0.0 ==>
      var r := angle(y, x);
      r.0 * r.0 + r.1 * r.1 == 1.0 && (r.0 * r.0 - r.1 * r.1) * y == 2.0 * (r.0 * r.1) * x
  }

  ghost function Snap(a: array2<real>): (m: Matrix)
    reads a
    ensures |m| == a.Length0 && forall i :: 0 <= i < a.Length0 ==> |m[i]| == a.Length1
    ensures forall i, j :: 0 <= i < a.Length0 && 0 <= j < a.Length1 ==> m[i][j] == a[i, j]
  {
    seq(a.Length0, i requires 0 <= i < a.Length0 reads a =>
          seq(a.Length1, j requires 0 <= j < a.Length1 reads a => a[i, j]))
  }

  lemma SameMatrix(x: Matrix, y: Matrix, n: nat)
    requires Square(x, n) && Square(y, n)
    requires forall i, j :: 0 <= i < n && 0 <= j < n ==> x[i][j] == y[i][j]
    ensures x == y
  {
    forall i | 0 <= i < n ensures x[i] == y[i] {}
  }

  /** The first and third loop of jacobiRotate: two columns of a, row by row. */
  method RotateColumnPair(a: array2<real>, p: nat, q: nat, c: real, s: real)
    requires a.Length0 == a.Length1 && p < q < a.Length0
    modifies a
    ensures Snap(a) == RotateColumns(old(Snap(a)), a.Length0, p, q, c, s)
  {
    var n := a.Length0;
    ghost var m := Snap(a);
    for k := 0 to n
      invariant forall i, j :: 0 <= i < k && 0 <= j < n ==> a[i, j] == RotateVector(m[i], p, q, c, s)[j]
      invariant forall i, j :: k <= i < n && 0 <= j < n ==> a[i, j] == m[i][j]
    {
      var akp, akq := a[k, p], a[k, q];
      a[k, p] := c * akp - s * akq;
      a[k, q] := s * akp + c * akq;
    }
    SameMatrix(Snap(a), RotateColumns(m, n, p, q, c, s), n);
  }

  /** The second loop: two rows of a, column by column. */
  method RotateRowPair(a: array2<real>, p: nat, q: nat, c: real, s: real)
    requires a.Length0 == a.Length1 && p < q < a.Length0
    modifies a
    ensures Snap(a) == RotateRows(old(Snap(a)), a.Length0, p, q, c, s)
  {
    var n := a.Length0;
    ghost var m := Snap(a);
    ghost var m' := RotateRows(m, n, p, q, c, s);
    hide RotateRows;
    for k := 0 to n
      invariant forall i, j :: 0 <= i < n && 0 <= j < n ==> a[i, j] == if j < k then m'[i][j] else m[i][j]
    {
      var apk, aqk := a[p, k], a[q, k];
      RowPairAt(m, n, p, q, c, s, k, apk, aqk);
      a[p, k] := c * apk - s * aqk;
      a[q, k] := s * apk + c * aqk;
    }
    SameMatrix(Snap(a), m', n);
  }

  lemma RowPairAt(m: Matrix, n: nat, p: nat, q: nat, c: real, s: real, k: nat, x: real, y: real)
    requires Square(m, n) && p < q < n && k < n && x == m[p][k] && y == m[q][k]
    ensures var m' := RotateRows(m, n, p, q, c, s);
            && m'[p][k] == c * x - s * y && m'[q][k] == s * x + c * y
            && forall i :: 0 <= i < n && i != p && i != q ==> m'[i][k] == m[i][k]
  {
    var m' := RotateRows(m, n, p, q, c, s);
    assert m'[p][k] == c * m[p][k] + -s * m[q][k];
    assert -s * y == -(s * y);
  }

  /** One rotation of a, both sides, accumulated into v. */
  method Rotate(a: array2<real>, v: array2<real>, p: nat, q: nat, c: real, s: real)
    requires a.Length0 == a.Length1 == v.Length0 == v.Length1 && a != v && p < q < a.Length0
    modifies a, v
    ensures Snap(a) == Rotated(old(Snap(a)), a.Length0, p, q, c, s)
    ensures Snap(v) == RotateColumns(old(Snap(v)), a.Length0, p, q, c, s)
  {
    hide RotateColumns, RotateRows;
    RotateColumnPair(a, p, q, c, s);
    RotateRowPair(a, p, q, c, s);
    RotateColumnPair(v, p, q, c, s);
  }

  /** The upper-triangle sum of squares, by the solver's two loops. */
  method OffDiagonal(a: array2<real>) returns (off: real)
    requires a.Length0 == a.Length1
    ensures off == Off(Snap(a), a.Length0)
  {
    var n := a.Length0;
    ghost var m := Snap(a);
    off := 0.0;
    NoRows(m, n);
    hide Dot, Sum, SumSq, UpTo;
    for p := 0 to n
      invariant off == UpTo(m, n, p, n)
    {
      assert m[p][p + 1..p + 1] == [];
      for q := p + 1 to n
        invariant off == UpTo(m, n, p, n) + SumSq(m[p][p + 1..q])
      {
        OneMoreEntry(m[p], p + 1, q, a[p, q]);
        off := off + a[p, q] * a[p, q];
      }
      OneMoreRow(m, n, p);
    }
  }

  lemma NoRows(m: Matrix, n: nat)
    requires Square(m, n)
    ensures UpTo(m, n, 0, n) == 0.0 && SumSq([]) == 0.0
  {}

  lemma OneMoreEntry(row: Vector, from: nat, q: nat, x: real)
    requires from <= q < |row| && row[q] == x
    ensures SumSq(row[from..q + 1]) == SumSq(row[from..q]) + x * x
  {
    assert row[from..q + 1] == row[from..q] + [x];
    SumSnoc(row[from..q], x);
  }

  lemma OneMoreRow(m: Matrix, n: nat, p: nat)
    requires Square(m, n) && p < n
    ensures UpTo(m, n, p + 1, n) == UpTo(m, n, p, n) + SumSq(m[p][p + 1..n])
  {}

  // ---- what one sweep removes ----

  /** The entry that a sweep met at row p and column q. */
  datatype Met = Met(p: nat, q: nat, x: real)

  predicate Negligible(x: real) { -NEGLIGIBLE <= x <= NEGLIGIBLE }

  /** Does (x, y) come before (p, q), row by row and from left to right? */
  predicate Before(x: nat, y: nat, p: nat, q: nat) { x < p || (x == p && y < q) }

  predicate Meets(log: seq<Met>, x: nat, y: nat) {
    exists i :: 0 <= i < |log| && log[i].p == x && log[i].q == y
  }

  /** The pairs above the diagonal that come before (p, q), each of them once and in order. */
  ghost predicate Visits(log: seq<Met>, n: nat, p: nat, q: nat) {
    && (forall i :: 0 <= i < |log| ==> log[i].p < log[i].q < n && Before(log[i].p, log[i].q, p, q))
    && (forall i, j :: 0 <= i < j < |log| ==> Before(log[i].p, log[i].q, log[j].p, log[j].q))
    && (forall x: nat, y: nat :: x < y < n && Before(x, y, p, q) ==> Meets(log, x, y))
  }

  /** The squares of the entries met that were not negligible. */
  function Removed(log: seq<Met>): (r: real)
    ensures r >= 0.0
  {
    if log == [] then 0.0
    else
      var x := log[|log| - 1].x;
      SquareNonNegative(x);
      Removed(log[..|log| - 1]) + if Negligible(x) then 0.0 else x * x
  }

  predicate NoneMet(log: seq<Met>) { forall i :: 0 <= i < |log| ==> Negligible(log[i].x) }

  /** As long as only negligible entries were met, the matrix is what it was. */
  ghost predicate FirstMet(log: seq<Met>, m: Matrix, n: nat) {
    Square(m, n) && forall i :: 0 <= i < |log| && NoneMet(log[..i]) ==>
                                  log[i].p < n && log[i].q < n && log[i].x == m[log[i].p][log[i].q]
  }

  ghost predicate AllNegligible(m: Matrix, n: nat) {
    Square(m, n) && forall p, q :: 0 <= p < q < n ==> Negligible(m[p][q])
  }

  lemma VisitsOne(log: seq<Met>, n: nat, p: nat, q: nat, x: real)
    requires Visits(log, n, p, q) && p < q < n
    ensures Visits(log + [Met(p, q, x)], n, p, q + 1)
  {
    var log' := log + [Met(p, q, x)];
    forall x': nat, y: nat | x' < y < n && Before(x', y, p, q + 1) ensures Meets(log', x', y) {
      MeetsMore(log, Met(p, q, x), x', y);
      assert Before(x', y, p, q) ==> Meets(log, x', y);
    }
  }

  lemma MeetsMore(log: seq<Met>, met: Met, x: nat, y: nat)
    ensures Meets(log + [met], x, y) <==> Meets(log, x, y) || (met.p == x && met.q == y)
  {
    var log' := log + [met];
    if i :| 0 <= i < |log| && log[i].p == x && log[i].q == y {
      assert log'[i] == log[i];
    }
    assert log'[|log|] == met;
  }

  lemma VisitsRow(log: seq<Met>, n: nat, p: nat)
    requires Visits(log, n, p, n)
    ensures Visits(log, n, p + 1, p + 2)
  {
    forall x: nat, y: nat | x < y < n && Before(x, y, p + 1, p + 2) ensures Meets(log, x, y) {
      assert Before(x, y, p, n);
    }
  }

  lemma RemovedOne(log: seq<Met>, met: Met)
    ensures Removed(log + [met]) == Removed(log) + if Negligible(met.x) then 0.0 else met.x * met.x
    ensures NoneMet(log + [met]) <==> NoneMet(log) && Negligible(met.x)
  {
    assert (log + [met])[..|log|] == log;
  }

  lemma FirstMetOne(log: seq<Met>, m: Matrix, n: nat, met: Met)
    requires FirstMet(log, m, n) && (NoneMet(log) ==> met.p < n && met.q < n && met.x == m[met.p][met.q])
    ensures FirstMet(log + [met], m, n)
  {
    var log' := log + [met];
    forall i | 0 <= i < |log'| && NoneMet(log'[..i])
      ensures log'[i].p < n && log'[i].q < n && log'[i].x == m[log'[i].p][log'[i].q]
    {
      if i < |log| {
        assert log'[..i] == log[..i];
      } else {
        assert log'[..i] == log;
      }
    }
  }

  lemma {:induction false} NothingRemoved(log: seq<Met>)
    requires Removed(log) == 0.0
    ensures NoneMet(log)
  {
    if log != [] {
      var met := log[|log| - 1];
      assert log == log[..|log| - 1] + [met];
      RemovedOne(log[..|log| - 1], met);
      if !Negligible(met.x) {
        SquarePositive(met.x);
      }
      NothingRemoved(log[..|log| - 1]);
    }
  }

  lemma SquarePositive(x: real)
    requires x != 0.0
    ensures x * x > 0.0
  {}

  /** A sweep that met only negligible entries met all entries of the matrix. */
  lemma NoneMetIff(log: seq<Met>, m: Matrix, n: nat)
    requires Square(m, n) && Visits(log, n, n, n + 1) && FirstMet(log, m, n)
    ensures NoneMet(log) <==> AllNegligible(m, n)
    ensures NoneMet(log) <==> Removed(log) == 0.0
  {
    hide FirstMet, Removed, NoneMet, AllNegligible;
    if Removed(log) == 0.0 {
      NothingRemoved(log);
    }
    if NoneMet(log) {
      NoneRemoved(log);
      AllSeen(log, m, n);
    }
    if AllNegligible(m, n) {
      AllMetNegligible(log, m, n, |log|);
      assert log[..|log|] == log;
    }
  }

  lemma AllSeen(log: seq<Met>, m: Matrix, n: nat)
    requires Square(m, n) && Visits(log, n, n, n + 1) && FirstMet(log, m, n) && NoneMet(log)
    ensures AllNegligible(m, n)
  {
    hide Negligible;
    forall p, q | 0 <= p < q < n ensures Negligible(m[p][q]) {
      assert Before(p, q, n, n + 1) && Meets(log, p, q);
      var i :| 0 <= i < |log| && log[i].p == p && log[i].q == q;
      assert NoneMet(log[..i]);
      assert log[i].x == m[p][q];
    }
  }

  lemma {:induction false} NoneRemoved(log: seq<Met>)
    requires NoneMet(log)
    ensures Removed(log) == 0.0
  {
    if log != [] {
      NoneRemoved(log[..|log| - 1]);
    }
  }

  lemma {:induction false} AllMetNegligible(log: seq<Met>, m: Matrix, n: nat, k: nat)
    requires AllNegligible(m, n) && FirstMet(log, m, n) && k <= |log|
    requires forall i :: 0 <= i < |log| ==> log[i].p < log[i].q < n
    ensures NoneMet(log[..k])
  {
    if k > 0 {
      AllMetNegligible(log, m, n, k - 1);
      assert forall i :: 0 <= i < k - 1 ==> log[..k][i] == log[..k - 1][i];
    }
  }

  /** The body of a sweep, for one pair. */
  method Eliminate(a: array2<real>, v: array2<real>, p: nat, q: nat,
                   angle: (real, real) -> (real, real), ghost m: Matrix)
    requires a.Length0 == a.Length1 == v.Length0 == v.Length1 && a != v && p < q < a.Length0 && HalfAngle(angle)
    requires Square(m, a.Length0) && Decomposes(m, Snap(v), Snap(a), a.Length0)
    modifies a, v
    ensures Decomposes(m, Snap(v), Snap(a), a.Length0)
    ensures var n, x := a.Length0, old(a[p, q]);
            if Negligible(x) then Snap(a) == old(Snap(a)) && Snap(v) == old(Snap(v))
            else a[p, q] == 0.0 && Off(Snap(a), n) == old(Off(Snap(a), n)) - x * x
    ensures Off(Snap(a), a.Length0) <= old(Off(Snap(a), a.Length0))
  {
    hide Decomposes, Off, Rotated, RotateColumns;
    if Negligible(a[p, q]) {
      return;
    }
    var n := a.Length0;
    ghost var ma, mv := Snap(a), Snap(v);
    var (c, s) := angle(2.0 * a[p, q], a[q, q] - a[p, p]);
    assert Annihilates(ma[p][p], ma[p][q], ma[q][q], c, s) by {
      assert 2.0 * a[p, q] != 0.0;
    }
    Rotate(a, v, p, q, c, s);
    RotationDecomposes(m, mv, ma, n, p, q, c, s);
    DecomposesSymmetric(m, mv, ma, n);
    RotationShrinks(ma, n, p, q, c, s);
    SquareNonNegative(ma[p][q]);
  }

  /** One sweep: every pair above the diagonal is met once, in order, and its entry rotated away unless it is
      negligible; the off-diagonal mass drops by the squares of the entries met there. */
  method Sweep(a: array2<real>, v: array2<real>, angle: (real, real) -> (real, real), ghost m: Matrix)
    returns (ghost log: seq<Met>)
    requires a.Length0 == a.Length1 == v.Length0 == v.Length1 && a != v && HalfAngle(angle)
    requires Square(m, a.Length0) && Decomposes(m, Snap(v), Snap(a), a.Length0)
    modifies a, v
    ensures Decomposes(m, Snap(v), Snap(a), a.Length0)
    ensures var n := a.Length0; Visits(log, n, n, n + 1) && FirstMet(log, old(Snap(a)), n)
    ensures Off(Snap(a), a.Length0) == old(Off(Snap(a), a.Length0)) - Removed(log)
    ensures NoneMet(log) ==> Snap(a) == old(Snap(a)) && Snap(v) == old(Snap(v))
  {
    hide Decomposes, Off, HalfAngle, Removed, NoneMet, FirstMet, Visits;
    var n := a.Length0;
    ghost var m0, v0 := Snap(a), Snap(v);
    log := [];
    NothingMet(m0, n);
    for p := 0 to n
      invariant Decomposes(m, Snap(v), Snap(a), n)
      invariant Visits(log, n, p, p + 1) && FirstMet(log, m0, n)
      invariant Off(Snap(a), n) == Off(m0, n) - Removed(log)
      invariant NoneMet(log) ==> Snap(a) == m0 && Snap(v) == v0
    {
      for q := p + 1 to n
        invariant Decomposes(m, Snap(v), Snap(a), n)
        invariant Visits(log, n, p, q) && FirstMet(log, m0, n)
        invariant Off(Snap(a), n) == Off(m0, n) - Removed(log)
        invariant NoneMet(log) ==> Snap(a) == m0 && Snap(v) == v0
      {
        ghost var met := Met(p, q, a[p, q]);
        VisitsOne(log, n, p, q, met.x);
        RemovedOne(log, met);
        FirstMetOne(log, m0, n, met);
        Eliminate(a, v, p, q, angle, m);
        log := log + [met];
      }
      VisitsRow(log, n, p);
    }
  }

  lemma NothingMet(m: Matrix, n: nat)
    requires Square(m, n)
    ensures Visits([], n, 0, 1) && FirstMet([], m, n) && NoneMet([]) && Removed([]) == 0.0
  {}

  lemma DecomposesSymmetric(m: Matrix, v: Matrix, a: Matrix, n: nat)
    requires Square(m, n) && Square(v, n) && Square(a, n) && Decomposes(m, v, a, n)
    ensures Symmetric(a, n)
  {}

  lemma SquareNonNegative(x: real)
    ensures x * x >= 0.0
  {}

  // ---- any number of sweeps ----

  /** What a sweep did to the off-diagonal mass. */
  lemma SweepDrops(log: seq<Met>, m: Matrix, n: nat, off: real, off': real)
    requires Square(m, n) && Visits(log, n, n, n + 1) && FirstMet(log, m, n) && off' == off - Removed(log)
    ensures off' <= off && (off' < off <==> !AllNegligible(m, n)) && (NoneMet(log) <==> AllNegligible(m, n))
  {
    hide Visits, FirstMet, Removed, NoneMet, AllNegligible;
    NoneMetIff(log, m, n);
  }

  /** A matrix of two rows has one entry above the diagonal, and a sweep removes it. */
  lemma OnePair(log: seq<Met>, m: Matrix)
    requires Square(m, 2) && Visits(log, 2, 2, 3) && FirstMet(log, m, 2) && Off(m, 2) > OFF_THRESHOLD
    ensures Removed(log) == Off(m, 2)
  {
    hide Off, Removed, Negligible, FirstMet;
    var x := m[0][1];
    TwoRows(m);
    OneMet(log, m);
    if Negligible(x) {
      TinySquare(x);
    }
    RemovedOne([], Met(0, 1, x));
    NothingMet(m, 2);
    assert [] + [Met(0, 1, x)] == log;
  }

  lemma InOrder(log: seq<Met>, n: nat, p: nat, q: nat, i: nat, j: nat)
    requires Visits(log, n, p, q)
    ensures i < j < |log| ==> Before(log[i].p, log[i].q, log[j].p, log[j].q)
  {}

  lemma OneMet(log: seq<Met>, m: Matrix)
    requires Square(m, 2) && Visits(log, 2, 2, 3) && FirstMet(log, m, 2)
    ensures log == [Met(0, 1, m[0][1])]
  {
    hide Negligible;
    assert Before(0, 1, 2, 3) && Meets(log, 0, 1);
    InOrder(log, 2, 2, 3, 0, 1);
    assert log[..0] == [] && NoneMet(log[..0]);
    assert log[0] == Met(0, 1, m[0][1]);
  }

  lemma TwoRows(m: Matrix)
    requires Square(m, 2)
    ensures Off(m, 2) == m[0][1] * m[0][1]
  {
    assert m[0][1..2] == [m[0][1]] && m[1][2..2] == [] && [m[0][1]][..0] == [];
    assert UpTo(m, 2, 1, 2) == UpTo(m, 2, 0, 2) + SumSq(m[0][1..2]);
  }

  lemma TinySquare(x: real)
    requires Negligible(x)
    ensures x * x <= OFF_THRESHOLD
  {
    var y := if x < 0.0 then -x else x;
    assert x * x == y * y;
    assert y * y <= y * NEGLIGIBLE;
  }

  /** The off-diagonal mass before each sweep: above the threshold, and less after it unless nothing was left to do. */
  ghost predicate Drops(offs: seq<real>, done: bool) {
    forall i :: 0 <= i < |offs| - 1 ==> offs[i] > OFF_THRESHOLD && (offs[i + 1] < offs[i] || done)
  }

  lemma DropsOn(offs: seq<real>, done: bool, off: real, done': bool)
    requires offs != [] && Drops(offs, done) && (done ==> done')
    requires offs[|offs| - 1] > OFF_THRESHOLD && (off < offs[|offs| - 1] || done')
    ensures Drops(offs + [off], done')
  {}

  method DiagonalOf(w: array2<real>) returns (eig: Vector)
    requires w.Length0 == w.Length1
    ensures eig == Diagonal(Snap(w), w.Length0)
  {
    eig := [];
    for i := 0 to w.Length0
      invariant |eig| == i && forall k :: 0 <= k < i ==> eig[k] == w[k, k]
    {
      eig := eig + [w[i, i]];
    }
  }

  /** The answer is an orthogonal similarity of the input, for any number of sweeps: the vectors are
      orthonormal, the eigenvalues sum to the trace, and the squared errors of all eigenpairs sum to
      twice the off-diagonal mass that is left. offs is that mass before each sweep and at the end: it is above the
      threshold before each sweep and drops strictly with it, unless no entry is left that is not negligible; it is at
      most the threshold at the end unless the sweep cap was hit. Two rows take one sweep at most. */
  method EigenSym(m: Matrix, angle: (real, real) -> (real, real))
    returns (eig: Vector, vec: array2<real>, sweeps: nat, ghost a: Matrix, ghost offs: seq<real>)
    requires Square(m, |m|) && Symmetric(m, |m|) && HalfAngle(angle)
    ensures vec.Length0 == vec.Length1 == |m| && Square(a, |m|)
    ensures Decomposes(m, Snap(vec), a, |m|) && eig == Diagonal(a, |m|)
    ensures Sum(eig) == Trace(m, |m|)
    ensures Sum(Residuals(m, Snap(vec), a, |m|)) == 2.0 * Off(a, |m|)
    ensures |offs| == sweeps + 1 && offs[0] == Off(m, |m|) && offs[sweeps] == Off(a, |m|)
    ensures Drops(offs, AllNegligible(a, |m|))
    ensures Off(a, |m|) <= Off(m, |m|)
    ensures sweeps <= MAX_SWEEPS && (sweeps < MAX_SWEEPS ==> Off(a, |m|) <= OFF_THRESHOLD)
    ensures |m| == 2 ==> sweeps <= 1 && Off(a, 2) == if Off(m, 2) <= OFF_THRESHOLD then Off(m, 2) else 0.0
  {
    hide Decomposes, Off, Residuals, HalfAngle, Removed, NoneMet, FirstMet, Visits, AllNegligible, Diagonal, Trace;
    var n := |m|;
    var w := Copy(m);
    var v := Unitary(n);
    StartDecomposes(m, n);
    sweeps := 0;
    offs := [Off(m, n)];
    while sweeps < MAX_SWEEPS
      invariant sweeps <= MAX_SWEEPS
      invariant Decomposes(m, Snap(v), Snap(w), n) && Off(Snap(w), n) <= Off(m, n)
      invariant |offs| == sweeps + 1 && offs[0] == Off(m, n) && offs[sweeps] == Off(Snap(w), n)
      invariant Drops(offs, AllNegligible(Snap(w), n))
      invariant sweeps == 0 ==> Snap(w) == m
      invariant n == 2 && sweeps > 0 ==> sweeps == 1 && Off(m, 2) > OFF_THRESHOLD && Off(Snap(w), 2) == 0.0
    {
      var off := OffDiagonal(w);
      if off <= OFF_THRESHOLD {
        break;
      }
      ghost var before := Snap(w);
      ghost var log := Sweep(w, v, angle, m);
      SweepDrops(log, before, n, off, Off(Snap(w), n));
      if n == 2 {
        OnePair(log, before);
      }
      DropsOn(offs, AllNegligible(before, n), Off(Snap(w), n), AllNegligible(Snap(w), n));
      sweeps := sweeps + 1;
      offs := offs + [Off(Snap(w), n)];
    }
    a, vec := Snap(w), v;
    eig := DiagonalOf(w);
    ResidualsAreOff(m, Snap(v), a, n);
    DecomposesTrace(m, Snap(v), a, n);
  }

  lemma DecomposesTrace(m: Matrix, v: Matrix, a: Matrix, n: nat)
    requires Square(m, n) && Square(v, n) && Square(a, n) && Decomposes(m, v, a, n)
    ensures Sum(Diagonal(a, n)) == Trace(m, n)
  {}

  method Copy(m: Matrix) returns (w: array2<real>)
    requires Square(m, |m|)
    ensures fresh(w) && w.Length0 == w.Length1 == |m| && Snap(w) == m
  {
    var n := |m|;
    w := new real[n, n]((i, j) requires 0 <= i < n && 0 <= j < n => m[i][j]);
    SameMatrix(Snap(w), m, n);
  }

  method Unitary(n: nat) returns (v: array2<real>)
    ensures fresh(v) && v.Length0 == v.Length1 == n && Snap(v) == Identity(n)
  {
    v := new real[n, n]((i, j) => if i == j then 1.0 else 0.0);
    SameMatrix(Snap(v), Identity(n), n);
  }
}
