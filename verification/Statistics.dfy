/** Column statistics over exact arithmetic: the two-pass moments and the correlation matrix of
    internal/dataset/stats.go, and the one-pass Welford loop of internal/api/drift.go. */
module Statistics {
  import opened Common
  import opened Moments

  const TINY := 1e-12

  predicate Table(rows: seq<seq<real>>, w: nat) {
    forall i :: 0 <= i < |rows| ==> |rows[i]| == w
  }

  function Col(rows: seq<seq<real>>, w: nat, j: nat): (x: seq<real>)
    requires Table(rows, w) && j < w
    ensures |x| == |rows|
  {
    seq(|rows|, i requires 0 <= i < |rows| => rows[i][j])
  }

  function Shift(x: seq<real>, m: real): (y: seq<real>)
    ensures |y| == |x|
  {
    seq(|x|, i requires 0 <= i < |x| => x[i] - m)
  }

  /** Sum of squared deviations from m: the two-pass form. */
  function DevSq(x: seq<real>, m: real): real { SumSq(Shift(x, m)) }

  lemma ColSnoc(rows: seq<seq<real>>, w: nat, j: nat, n: nat)
    requires Table(rows, w) && j < w && n < |rows|
    ensures Table(rows[..n], w) && Table(rows[..n + 1], w)
    ensures Col(rows[..n + 1], w, j) == Col(rows[..n], w, j) + [rows[n][j]]
  {}

  lemma ShiftSnoc(x: seq<real>, v: real, m: real)
    ensures Shift(x + [v], m) == Shift(x, m) + [v - m]
  {}

  // ---- the three forms of a variance ----

  lemma ShiftIsMinus(x: seq<real>, m: real)
    ensures |Ones(|x|)| == |x| && Shift(x, m) == Minus(x, m, Ones(|x|))
  {
    forall i | 0 <= i < |x| ensures Shift(x, m)[i] == Minus(x, m, Ones(|x|))[i] {
      assert Ones(|x|)[i] == 1.0;
    }
  }

  lemma DevSqExpands(x: seq<real>, m: real)
    ensures DevSq(x, m) == SumSq(x) - 2.0 * m * Sum(x) + m * m * |x| as real
  {
    ShiftIsMinus(x, m);
    hide Dot, Sum, Shift, Minus, Ones;
    MinusExpands(x, m, Ones(|x|));
    DotOnes(x);
  }

  /** Two passes and the sum-of-squares formula agree, and both are non-negative. */
  lemma TwoPassIsSumOfSquares(x: seq<real>, m: real)
    requires m * |x| as real == Sum(x)
    ensures DevSq(x, m) == SumSq(x) - m * Sum(x)
    ensures DevSq(x, m) >= 0.0
  {
    hide Dot, Sum, Shift;
    DevSqExpands(x, m);
    Regroup(m, |x| as real, Sum(x));
    SumSqNonNegative(Shift(x, m));
  }

  lemma Regroup(m: real, n: real, sum: real)
    requires m * n == sum
    ensures m * m * n == m * sum && 2.0 * m * sum - m * sum == m * sum
  {
    assert m * m * n == m * (m * n);
  }

  /** The state of Welford's loop after the values x. */
  ghost predicate WelfordState(x: seq<real>, mean: real, m2: real) {
    && mean * |x| as real == Sum(x) && (x == [] ==> mean == 0.0)
    && m2 == SumSq(x) - mean * Sum(x)
  }

  /** One step of the one-pass form. */
  lemma WelfordStep(x: seq<real>, v: real, mean: real, m2: real, mean': real, m2': real)
    requires WelfordState(x, mean, m2)
    requires mean' == mean + (v - mean) / (|x| + 1) as real
    requires m2' == m2 + (v - mean) * (v - mean')
    ensures WelfordState(x + [v], mean', m2')
  {
    hide Sum, Dot;
    var k, n := |x| as real, (|x| + 1) as real;
    SumSnoc(x, v);
    var d := v - mean;
    assert d / n * n == d;
    assert mean' * n == mean * n + d by { assert (mean + d / n) * n == mean * n + d / n * n; }
    assert mean * n == mean * k + mean;
    assert mean' * n == Sum(x) + v;
    WelfordAlgebra(k, n, mean, mean', v, Sum(x));
  }

  lemma WelfordAlgebra(k: real, n: real, mean: real, mean': real, v: real, sum: real)
    requires n == k + 1.0 && mean * k == sum && mean' * n == sum + v
    ensures (v - mean) * (v - mean') - mean * sum == v * v - mean' * (sum + v)
  {
    assert (v - mean) * (v - mean') == v * v - v * mean' - mean * v + mean * mean';
    assert mean' * (sum + v) == mean' * sum + mean' * v;
    assert mean * mean' * n == mean * (sum + v) by { assert mean * mean' * n == mean * (mean' * n); }
    assert mean * mean' * n == mean * mean' * k + mean * mean';
    assert mean * mean' * k == mean' * sum by { assert mean * mean' * k == mean' * (mean * k); }
    assert mean * (sum + v) == mean * sum + mean * v;
  }

  /** Welford's one pass, the two passes and the sum-of-squares formula are one and the same number. */
  lemma ThreeVariancesAgree(x: seq<real>, mean: real, m2: real)
    requires WelfordState(x, mean, m2) && x != []
    ensures mean == Sum(x) / |x| as real
    ensures m2 == DevSq(x, mean) == SumSq(x) - Sum(x) * Sum(x) / |x| as real && m2 >= 0.0
  {
    hide Dot, Sum, DevSq;
    TwoPassIsSumOfSquares(x, mean);
    QuotientForms(mean, |x| as real, Sum(x));
  }

  lemma QuotientForms(mean: real, n: real, sum: real)
    requires n > 0.0 && mean * n == sum
    ensures mean == sum / n && mean * sum == sum * sum / n
  {
    assert sum * sum == mean * sum * n by { assert mean * sum * n == (mean * n) * sum; }
  }

  // ---- drift.go: one pass per feature, over the rows in scope ----

  /** A stored flow: its feature vector, and what the query's scope looks at. */
  datatype FlowRow = FlowRow(values: seq<real>, sensor: string, lastSeen: Time)

  /** The zero time leaves a bound open, None the sensors. */
  datatype Scope = Scope(from: Time, to: Time, sensors: Option<set<string>>)
  {
    predicate Contains(r: FlowRow) {
      && (from != ZERO_TIME ==> r.lastSeen >= from) && (to != ZERO_TIME ==> r.lastSeen <= to)
      && (sensors.Some? ==> r.sensor in sensors.value)
    }
  }

  /** The feature vectors of the rows in scope. */
  function Kept(rows: seq<FlowRow>, scope: Scope): seq<seq<real>> {
    if rows == [] then []
    else
      var init, r := Kept(rows[..|rows| - 1], scope), rows[|rows| - 1];
      if scope.Contains(r) then init + [r.values] else init
  }

  /** The rows kept, by position: in order, and exactly those last seen in the window (both ends belong to it) by one of
      the sensors asked for. */
  lemma {:induction false} KeptAre(rows: seq<FlowRow>, scope: Scope) returns (at: seq<nat>)
    ensures |at| == |Kept(rows, scope)| && forall i, j :: 0 <= i < j < |at| ==> at[i] < at[j]
    ensures forall i :: 0 <= i < |at| ==> at[i] < |rows| && Kept(rows, scope)[i] == rows[at[i]].values
    ensures forall j: nat :: j in at <==>
              && j < |rows|
              && (scope.from == 0 || rows[j].lastSeen > scope.from || rows[j].lastSeen == scope.from)
              && (scope.to == 0 || rows[j].lastSeen < scope.to || rows[j].lastSeen == scope.to)
              && (scope.sensors == None || rows[j].sensor in scope.sensors.value)
  {
    at := [];
    if rows != [] {
      var init := rows[..|rows| - 1];
      at := KeptAre(init, scope);
      assert forall j :: 0 <= j < |init| ==> init[j] == rows[j];
      if scope.Contains(rows[|init|]) {
        at := at + [|init|];
      }
    }
  }

  lemma {:induction false} KeptTable(rows: seq<FlowRow>, w: nat, scope: Scope)
    requires forall i :: 0 <= i < |rows| ==> |rows[i].values| == w
    ensures Table(Kept(rows, scope), w)
  {
    hide Scope.Contains;
    if rows != [] {
      KeptTable(rows[..|rows| - 1], w, scope);
    }
  }

  method Welford(rows: seq<FlowRow>, w: nat, scope: Scope, sqrt: real -> real)
    returns (n: nat, mean: seq<real>, std: seq<real>)
    requires (forall i :: 0 <= i < |rows| ==> |rows[i].values| == w) && IsSqrt(sqrt)
    ensures Table(Kept(rows, scope), w) && n == |Kept(rows, scope)| && |mean| == w && |std| == w
    ensures n > 0 ==> forall j :: 0 <= j < w ==>
              var x := Col(Kept(rows, scope), w, j);
              mean[j] == Sum(x) / n as real && std[j] >= 0.0 && std[j] * std[j] == DevSq(x, mean[j]) / n as real
    ensures n == 0 ==> forall j :: 0 <= j < w ==> mean[j] == 0.0 && std[j] == 0.0
  {
    hide Kept, Col, Sum, Dot, WelfordState, Scope.Contains;
    KeptTable(rows, w, scope);
    n := 0;
    var mu := new real[w](_ => 0.0);
    var m2 := new real[w](_ => 0.0);
    KeptNone(scope);
    forall j | 0 <= j < w ensures Table([], w) && WelfordState(Col([], w, j), 0.0, 0.0) {
      WelfordStart(w, j);
    }
    for i := 0 to |rows|
      invariant Table(Kept(rows[..i], scope), w) && n == |Kept(rows[..i], scope)|
      invariant forall j :: 0 <= j < w ==> WelfordState(Col(Kept(rows[..i], scope), w, j), mu[j], m2[j])
    {
      KeptSnoc(rows, scope, i);
      ghost var before := Kept(rows[..i], scope);
      if scope.Contains(rows[i]) {
        n := n + 1;
        WelfordRow(mu, m2, w, n, rows[i].values, before);
      }
    }
    assert rows[..|rows|] == rows;
    mean, std := mu[..], seq(w, _ => 0.0);
    if n > 0 {
      std := Roots(Kept(rows, scope), w, mean, m2[..], sqrt);
    } else {
      forall j | 0 <= j < w ensures mean[j] == 0.0 {
        WelfordEmpty(Col(Kept(rows, scope), w, j), mean[j], m2[j]);
      }
    }
  }

  /** The body of the loop: row r, the n-th one kept, folded into every feature. */
  method WelfordRow(mu: array<real>, m2: array<real>, w: nat, n: nat, r: seq<real>, ghost before: seq<seq<real>>)
    requires Table(before, w) && |r| == w && mu.Length == m2.Length == w && mu != m2 && n == |before| + 1
    requires forall j :: 0 <= j < w ==> WelfordState(Col(before, w, j), mu[j], m2[j])
    modifies mu, m2
    ensures Table(before + [r], w) && forall j :: 0 <= j < w ==> WelfordState(Col(before + [r], w, j), mu[j], m2[j])
  {
    hide Col, WelfordState;
    for j := 0 to w
      invariant forall k :: 0 <= k < j ==> WelfordState(Col(before + [r], w, k), mu[k], m2[k])
      invariant forall k :: j <= k < w ==> WelfordState(Col(before, w, k), mu[k], m2[k])
    {
      var x, mean0 := r[j], mu[j];
      ghost var sq0 := m2[j];
      var d := x - mean0;
      mu[j] := mu[j] + d / n as real;
      m2[j] := m2[j] + d * (x - mu[j]);
      WelfordStep(Col(before, w, j), x, mean0, sq0, mu[j], m2[j]);
      ColAppend(before, w, j, r);
    }
  }

  lemma WelfordEmpty(x: seq<real>, mean: real, m2: real)
    requires WelfordState(x, mean, m2) && x == []
    ensures mean == 0.0
  {}

  lemma KeptNone(scope: Scope)
    ensures Kept([], scope) == []
  {}

  lemma KeptSnoc(rows: seq<FlowRow>, scope: Scope, i: nat)
    requires i < |rows|
    ensures var before := Kept(rows[..i], scope);
            Kept(rows[..i + 1], scope) == if scope.Contains(rows[i]) then before + [rows[i].values] else before
  {
    hide Scope.Contains;
    assert rows[..i + 1][..i] == rows[..i];
  }

  lemma WelfordStart(w: nat, j: nat)
    requires j < w
    ensures Table([], w) && WelfordState(Col([], w, j), 0.0, 0.0)
  {
    assert Col([], w, j) == [];
  }

  lemma ColAppend(rows: seq<seq<real>>, w: nat, j: nat, r: seq<real>)
    requires Table(rows, w) && |r| == w && j < w
    ensures Table(rows + [r], w) && Col(rows + [r], w, j) == Col(rows, w, j) + [r[j]]
  {}

  method Roots(rows: seq<seq<real>>, w: nat, mean: seq<real>, m2: seq<real>, sqrt: real -> real)
    returns (std: seq<real>)
    requires Table(rows, w) && rows != [] && |mean| == |m2| == w && IsSqrt(sqrt)
    requires forall j :: 0 <= j < w ==> WelfordState(Col(rows, w, j), mean[j], m2[j])
    ensures |std| == w
    ensures forall j :: 0 <= j < w ==>
              var x := Col(rows, w, j);
              && mean[j] == Sum(x) / |rows| as real
              && std[j] >= 0.0 && std[j] * std[j] == DevSq(x, mean[j]) / |rows| as real
  {
    hide Col, Sum, Dot, WelfordState;
    std := [];
    for j := 0 to w
      invariant |std| == j
      invariant forall k :: 0 <= k < j ==>
                  var x := Col(rows, w, k);
                  && mean[k] == Sum(x) / |rows| as real
                  && std[k] >= 0.0 && std[k] * std[k] == DevSq(x, mean[k]) / |rows| as real
    {
      ThreeVariancesAgree(Col(rows, w, j), mean[j], m2[j]);
      assert m2[j] / |rows| as real >= 0.0;
      std := std + [sqrt(m2[j] / |rows| as real)];
    }
  }

  // ---- stats.go: two passes ----

  method ColumnMoments(rows: seq<seq<real>>, w: nat, sqrt: real -> real) returns (mean: seq<real>, stddev: seq<real>)
    requires Table(rows, w) && rows != [] && IsSqrt(sqrt)
    ensures |mean| == w && |stddev| == w
    ensures forall j :: 0 <= j < w ==>
              var x, n := Col(rows, w, j), |rows| as real;
              mean[j] == Sum(x) / n && stddev[j] >= 0.0 && stddev[j] * stddev[j] * n == DevSq(x, mean[j])
  {
    hide Col, Sum, Dot, Shift, IsSqrt;
    mean := ColumnSums(rows, w, seq(w, _ => 0.0), false);
    var n := |rows| as real;
    var sums := mean;
    mean := seq(w, j requires 0 <= j < w => sums[j] / n);
    var sq := ColumnSums(rows, w, mean, true);
    stddev := seq(w, j requires 0 <= j < w => sqrt(sq[j] / n));
    forall j | 0 <= j < w ensures stddev[j] >= 0.0 && stddev[j] * stddev[j] * n == DevSq(Col(rows, w, j), mean[j]) {
      SumSqNonNegative(Shift(Col(rows, w, j), mean[j]));
      RootOfMean(sqrt, sq[j], n);
    }
  }

  lemma RootOfMean(sqrt: real -> real, x: real, n: real)
    requires IsSqrt(sqrt) && x >= 0.0 && n > 0.0
    ensures var r := sqrt(x / n);
            r >= 0.0 && r * r * n == x
  {
    var v := x / n;
    assert v >= 0.0 && v * n == x;
    assert sqrt(v) * sqrt(v) == v;
  }

  /** One pass over the rows: per column, the sum of the values or of their squared deviations. */
  method ColumnSums(rows: seq<seq<real>>, w: nat, mean: seq<real>, squared: bool) returns (out: seq<real>)
    requires Table(rows, w) && |mean| == w
    ensures |out| == w
    ensures forall j :: 0 <= j < w ==>
              out[j] == if squared then DevSq(Col(rows, w, j), mean[j]) else Sum(Col(rows, w, j))
  {
    hide Col, Sum, Dot, Shift;
    var acc := new real[w](_ => 0.0);
    forall j | 0 <= j < w ensures Col(rows[..0], w, j) == [] {}
    NoSums();
    for i := 0 to |rows|
      invariant forall j :: 0 <= j < w ==>
                  acc[j] == if squared then DevSq(Col(rows[..i], w, j), mean[j]) else Sum(Col(rows[..i], w, j))
    {
      for j := 0 to w
        invariant forall k :: 0 <= k < j ==>
                    acc[k] ==
                    if squared then DevSq(Col(rows[..i + 1], w, k), mean[k]) else Sum(Col(rows[..i + 1], w, k))
        invariant forall k :: j <= k < w ==>
                    acc[k] == if squared then DevSq(Col(rows[..i], w, k), mean[k]) else Sum(Col(rows[..i], w, k))
      {
        var v := rows[i][j];
        ColSnoc(rows, w, j, i);
        ShiftSnoc(Col(rows[..i], w, j), v, mean[j]);
        SumSnoc(Col(rows[..i], w, j), v);
        SumSnoc(Shift(Col(rows[..i], w, j), mean[j]), v - mean[j]);
        if squared {
          var d := v - mean[j];
          acc[j] := acc[j] + d * d;
        } else {
          acc[j] := acc[j] + v;
        }
      }
    }
    assert rows[..|rows|] == rows;
    out := acc[..];
  }

  lemma NoSums()
    ensures Sum([]) == 0.0 && forall m :: DevSq([], m) == 0.0
  {
    forall m ensures Shift([], m) == [] {}
  }
}
