/** The filter the benchmark runs: its updates are never refused, so its covariance is symmetric and
    positive semidefinite after every one of its steps. */
module KalmanBenchmark {
  import opened Prelude
  import opened Linear
  import opened Gauss
  import opened Kalman

  function Diagonal(n: nat, s: real): (m: Mat)
    ensures IsMat(m, n, n) && forall i {:trigger m[i]} :: 0 <= i < n ==> m[i] == Scale(s, Unit(n, i))
  {
    seq(n, i requires 0 <= i => Scale(s, Unit(n, i)))
  }

  lemma DiagonalSymmetric(n: nat, s: real)
    ensures Symmetric(Diagonal(n, s), n)
  {
    var d := Diagonal(n, s);
    forall i, j | 0 <= i < n && 0 <= j < n ensures Transpose(d, n)[i][j] == d[i][j] { assert Unit(n, i)[j] == Unit(n, j)[i]; }
    MatEqual(Transpose(d, n), d, n, n);
  }

  /** A diagonal matrix scales what it combines. */
  lemma CombDiagonal(v: Vec, s: real)
    ensures Comb(v, Diagonal(|v|, s), |v|) == Scale(s, v)
  {
    var n := |v|;
    forall j | 0 <= j < n ensures Comb(v, Diagonal(n, s), n)[j] == Scale(s, v)[j] {
      CombAt(v, Diagonal(n, s), n, j);
      DiagonalColumn(n, s, j, Col(Diagonal(n, s), j));
      DotSpike(v, s, j, Col(Diagonal(n, s), j));
    }
  }

  lemma DiagonalColumn(n: nat, s: real, j: nat, col: Vec)
    requires j < n && col == Col(Diagonal(n, s), j)
    ensures Spike(col, s, j)
  {
    forall i | 0 <= i < n ensures col[i] == if i == j then s else 0.0 {
      assert col[i] == s * Unit(n, i)[j];
      assert s * 1.0 == s && s * 0.0 == 0.0;
    }
  }

  /** A vector that is `s` at `j` and zero elsewhere. */
  predicate Spike(col: Vec, s: real, j: nat) {
    forall i {:trigger col[i]} :: 0 <= i < |col| ==> col[i] == if i == j then s else 0.0
  }

  lemma {:induction false} DotSpike(v: Vec, s: real, j: nat, col: Vec)
    requires j < |v| == |col| && Spike(col, s, j)
    ensures Dot(v, col) == v[j] * s
  {
    var n := |v| - 1;
    if j < n {
      DotSpike(v[..n], s, j, col[..n]);
      assert v[n] * 0.0 == 0.0;
    } else {
      DotNothing(v[..n], col[..n]);
    }
  }

  lemma {:induction false} DotNothing(v: Vec, col: Vec)
    requires |v| == |col| && forall i :: 0 <= i < |col| ==> col[i] == 0.0
    ensures Dot(v, col) == 0.0
  {
    if v != [] { DotNothing(v[..|v| - 1], col[..|v| - 1]); assert v[|v| - 1] * 0.0 == 0.0; }
  }

  lemma {:induction false} DotSelf(v: Vec)
    ensures Dot(v, v) >= 0.0
  {
    if v != [] {
      DotSelf(v[..|v| - 1]);
      SquareNonNegative(v[|v| - 1]);
    }
  }

  lemma SquareNonNegative(x: real)
    ensures x * x >= 0.0
  {}

  lemma DiagonalPositive(n: nat, s: real)
    requires s >= 0.0
    ensures PositiveSemidefinite(Diagonal(n, s), n)
  {
    forall v: Vec | |v| == n ensures Quad(Diagonal(n, s), v) >= 0.0 {
      CombDiagonal(v, s);
      DotScale(s, v, v);
      DotSelf(v);
      TimesPositive(s, Dot(v, v));
    }
  }

  lemma TimesPositive(s: real, x: real)
    requires s >= 0.0 && x >= 0.0
    ensures s * x >= 0.0
  {}

  lemma DiagonalCovariance(n: nat, s: real)
    requires s >= 0.0
    ensures Covariance(Diagonal(n, s), n)
  {
    DiagonalSymmetric(n, s);
    DiagonalPositive(n, s);
  }

  // ---------------------------------------------------------------- two measurements

  lemma Quad2(b: Mat, s: real, t: real)
    requires IsMat(b, 2, 2)
    ensures Quad(b, [s, t]) == (s * b[0][0] + t * b[1][0]) * s + (s * b[0][1] + t * b[1][1]) * t
  {
    var v := [s, t];
    CombAt(v, b, 2, 0);
    CombAt(v, b, 2, 1);
    var w := Comb(v, b, 2);
    Dot2(v, Col(b, 0));
    Dot2(v, Col(b, 1));
    Dot2(w, v);
  }

  lemma Dot2(u: Vec, v: Vec)
    requires |u| == |v| == 2
    ensures Dot(u, v) == u[0] * v[0] + u[1] * v[1]
  {
    DotUnfold(u, v);
    DotUnfold(u[..1], v[..1]);
    assert u[..1][..0] == [] && v[..1][..0] == [];
  }

  /** The entries of a symmetric positive semidefinite 2 by 2 matrix. */
  lemma Entries2(b: Mat)
    requires Covariance(b, 2)
    ensures var x, y, z := b[0][0], b[0][1], b[1][1]; b[1][0] == y && x >= 0.0 && z >= 0.0 && x * z >= y * y
  {
    var x, y, z := b[0][0], b[0][1], b[1][1];
    assert Transpose(b, 2)[0][1] == b[1][0];
    Quad2(b, 1.0, 0.0);
    Quad2(b, 0.0, 1.0);
    assert Quad(b, [1.0, 0.0]) >= 0.0 && Quad(b, [0.0, 1.0]) >= 0.0;
    if z > 0.0 {
      Quad2(b, z, -y);
      assert Quad(b, [z, -y]) >= 0.0;
      Determinant(x, y, z);
    } else if y != 0.0 {
      var t := -(x + 1.0) / (2.0 * y);
      Quad2(b, 1.0, t);
      OffDiagonal(x, y, t);
    }
  }

  lemma Determinant(x: real, y: real, z: real)
    requires z > 0.0 && (z * x + -y * y) * z + (z * y + -y * z) * -y >= 0.0
    ensures x * z >= y * y
  {
    assert (z * x + -y * y) * z + (z * y + -y * z) * -y == z * (x * z - y * y);
    if x * z < y * y { NegativeProduct(z, x * z - y * y); }
  }

  lemma NegativeProduct(z: real, d: real)
    requires z > 0.0 && d < 0.0
    ensures z * d < 0.0
  {}

  lemma OffDiagonal(x: real, y: real, t: real)
    requires y != 0.0 && t == -(x + 1.0) / (2.0 * y)
    ensures (1.0 * x + t * y) * 1.0 + (1.0 * y + t * 0.0) * t == -1.0
  {
    assert t * (2.0 * y) == -(x + 1.0);
    assert t * y + y * t == t * (2.0 * y);
  }

  /** What reducing the first column of a symmetric 2 by 2 matrix leaves in the corner. */
  lemma FirstColumn(s: Mat, a: real, y: real, d: real)
    requires s == [[a, y], [y, d]] && a >= SINGULAR_EPSILON
    ensures var r := Column(Pair(s, Identity(2)), 2, 0);
            r.Some? && r.value.a[1][1] == CornerOf(a, y, d)
  {
    var t := Pair(s, Identity(2));
    assert IsMat(s, 2, 2);
    assert Best(s, 2, 0, 1) == 0;
    assert Best(s, 2, 0, 2) == if Abs(y) > a then 1 else 0;
    var u := if Abs(y) > a then Both(Swap(0, 1), t, 2) else t;
    var v := Both(Divide(0, u.a[0][0]), u, 2);
    assert Clear(v, 2, 0, 0) == v;
    assert Clear(v, 2, 0, 1) == v;
    assert v.a[1] == u.a[1];
    var w := Clear(v, 2, 0, 2);
    assert w == if v.a[1][0] == 0.0 then v else Both(Subtract(1, 0, v.a[1][0]), v, 2);
  }

  /** Measurement noise of at least the pivot threshold in each of two independent measurements is
      enough for every update to be accepted. */
  lemma TwoMeasurementsAccepted(b: Mat, noise: real)
    requires Covariance(b, 2) && noise >= SINGULAR_EPSILON
    ensures Inverse(Add(b, Diagonal(2, noise)), 2).Some?
  {
    var x, y, z := b[0][0], b[0][1], b[1][1];
    Entries2(b);
    var s := Add(b, Diagonal(2, noise));
    var a, d := x + noise, z + noise;
    MatEqual(s, [[a, y], [y, d]], 2, 2);
    FirstColumn(s, a, y, d);
    var t := Column(Pair(s, Identity(2)), 2, 0).value;
    assert Best(t.a, 2, 1, 2) == 1;
    Corner(x, y, z, noise);
    assert Column(t, 2, 1).Some?;
    assert Reduce(Column(t, 2, 1).value, 2, 2).Some?;
  }

  function CornerOf(a: real, y: real, d: real): real {
    if Abs(y) > a then (if y == 0.0 then 0.0 else y - a * (1.0 / y * d))
    else if y == 0.0 || a == 0.0 then d
    else d - y * (1.0 / a * y)
  }

  lemma Corner(x: real, y: real, z: real, noise: real)
    requires x >= 0.0 && z >= 0.0 && x * z >= y * y && noise >= SINGULAR_EPSILON
    ensures Abs(CornerOf(x + noise, y, z + noise)) >= SINGULAR_EPSILON
  {
    var a, d := x + noise, z + noise;
    var ad, c := a * d, CornerOf(a, y, d);
    Expand(x, z, noise);
    if Abs(y) > a {
      Cleared(y, a, d, c);
      MeanBound(x, y, z);
      LargeCorner(y, c, noise, x + z, ad);
    } else if y != 0.0 {
      Eliminated(y, a, d, c);
      SmallCorner(c, a, noise, x, z, ad - y * y);
    }
  }

  lemma Expand(x: real, z: real, r: real)
    ensures (x + r) * (z + r) == x * z + r * (x + z + r)
  {}

  lemma Cleared(y: real, a: real, d: real, c: real)
    requires y != 0.0 && c == y - a * (1.0 / y * d)
    ensures c * y == y * y - a * d
  {
    var w := 1.0 / y;
    assert w * y == 1.0;
    assert a * (w * d) * y == a * d * (w * y);
  }

  lemma Eliminated(y: real, a: real, d: real, c: real)
    requires a > 0.0 && c == d - y * (1.0 / a * y)
    ensures c * a == a * d - y * y
  {
    var w := 1.0 / a;
    assert w * a == 1.0;
    assert y * (w * y) * a == y * y * (w * a);
  }

  lemma MeanBound(x: real, y: real, z: real)
    requires x >= 0.0 && z >= 0.0 && x * z >= y * y
    ensures x + z >= 2.0 * Abs(y)
  {
    var m := Abs(y);
    assert m * m == y * y;
    assert (x + z) * (x + z) == (x - z) * (x - z) + 4.0 * (x * z);
    SquareNonNegative(x - z);
    if x + z < 2.0 * m { SquareBound(x + z, 2.0 * m); }
  }

  lemma SquareBound(p: real, q: real)
    requires 0.0 <= p < q
    ensures p * p < q * q
  {
    assert q * q - p * p == (q - p) * (q + p);
    PositiveProduct(q - p, q + p);
  }

  lemma PositiveProduct(p: real, q: real)
    requires p > 0.0 && q > 0.0
    ensures p * q > 0.0
  {}

  lemma LargeCorner(y: real, c: real, noise: real, sum: real, ad: real)
    requires c * y == y * y - ad && y != 0.0 && noise >= SINGULAR_EPSILON
    requires sum >= 2.0 * Abs(y) && ad >= y * y + noise * (sum + noise)
    ensures Abs(c) >= SINGULAR_EPSILON
  {
    var m, n := Abs(y), Abs(c);
    Monotone(noise, 2.0 * m, sum + noise);
    AbsTimes(c, y);
    if n < noise { Strict(m, n, noise); }
  }

  lemma AbsTimes(p: real, q: real)
    ensures Abs(p) * Abs(q) == Abs(p * q)
  {
    if p >= 0.0 && q >= 0.0 { TimesPositive(p, q); }
    else if p >= 0.0 { TimesPositive(p, -q); }
    else if q >= 0.0 { TimesPositive(-p, q); }
    else { TimesPositive(-p, -q); }
  }

  lemma Monotone(k: real, p: real, q: real)
    requires k >= 0.0 && p <= q
    ensures k * p <= k * q
  {}

  lemma SmallCorner(c: real, a: real, noise: real, x: real, z: real, det: real)
    requires c * a == det && x >= 0.0 && z >= 0.0 && noise >= SINGULAR_EPSILON && a == x + noise
    requires det >= noise * (x + z + noise)
    ensures Abs(c) >= SINGULAR_EPSILON
  {
    Monotone(noise, a, x + z + noise);
    if c < noise { Strict(a, c, noise); }
  }

  lemma Strict(k: real, p: real, q: real)
    requires k > 0.0 && p < q
    ensures k * p < k * q
  {}

  // ---------------------------------------------------------------- the benchmark's filter

  const ONE := 1.0
  const CENT := 0.01
  const QUARTER := 0.25
  const TRANSITION: Mat := [[1.0, 0.0, 1.0, 0.0], [0.0, 1.0, 0.0, 1.0], [0.0, 0.0, 1.0, 0.0], [0.0, 0.0, 0.0, 1.0]]
  const OBSERVATION: Mat := [[1.0, 0.0, 0.0, 0.0], [0.0, 1.0, 0.0, 0.0]]
  const BENCHMARK := Model(TRANSITION, Diagonal(4, CENT), OBSERVATION, Diagonal(2, QUARTER), 4, 2)
  const INITIAL := State([0.0, 0.0, 0.0, 0.0], Diagonal(4, ONE))

  lemma StepAccepted(s: State, z: Vec)
    requires IsState(s, 4) && |z| == 2 && Covariance(s.p, 4)
    ensures BENCHMARK.Fits() && Step(s, z, BENCHMARK).Some?
  {
    var k := BENCHMARK;
    DiagonalCovariance(4, CENT);
    PredictSymmetric(s, k);
    PredictPositive(s, k);
    var p := Predict(s, k).p;
    SandwichSymmetric(k.h, p, 2);
    SandwichPositive(k.h, p, 2);
    TwoMeasurementsAccepted(Mul(Mul(k.h, p, 4), Transpose(k.h, 4), 2), QUARTER);
  }

  lemma {:induction false} RunAccepted(s: State, zs: seq<Vec>)
    requires IsState(s, 4) && Measurements(zs, 2) && Covariance(s.p, 4)
    ensures BENCHMARK.Fits() && Filter(s, zs, BENCHMARK).Some?
    decreases zs
  {
    if zs != [] {
      StepAccepted(s, zs[0]);
      DiagonalCovariance(4, CENT);
      DiagonalCovariance(2, QUARTER);
      StepKeepsCovariance(s, zs[0], BENCHMARK);
      RunAccepted(Step(s, zs[0], BENCHMARK).value, zs[1..]);
    }
  }

  /** Whatever is measured, for however many steps: no update is refused, and the covariance ends
      symmetric and positive semidefinite. */
  lemma BenchmarkNeverFails(zs: seq<Vec>)
    requires Measurements(zs, 2)
    ensures BENCHMARK.Fits() && IsState(INITIAL, 4)
    ensures Filter(INITIAL, zs, BENCHMARK).Some? && Covariance(Filter(INITIAL, zs, BENCHMARK).value.p, 4)
  {
    DiagonalCovariance(4, ONE);
    DiagonalCovariance(4, CENT);
    DiagonalCovariance(2, QUARTER);
    RunAccepted(INITIAL, zs);
    RunKeepsCovariance(INITIAL, zs, BENCHMARK, Filter(INITIAL, zs, BENCHMARK).value);
  }
}
