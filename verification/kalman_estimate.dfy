/** What the filter's estimate is: its error obeys the error recursion, its covariance is that of the
    error, and no other linear correction has a smaller one. */
module KalmanEstimate {
  import opened Prelude
  import opened Linear
  import opened Gauss
  import opened Kalman

  // ---------------------------------------------------------------- a matrix applied to a vector

  lemma MatVecPlus(a: Mat, u: Vec, v: Vec)
    requires IsMat(a, |a|, |u|) && |u| == |v|
    ensures MatVec(a, Plus(u, v)) == Plus(MatVec(a, u), MatVec(a, v))
  {
    forall i | 0 <= i < |a| ensures MatVec(a, Plus(u, v))[i] == Plus(MatVec(a, u), MatVec(a, v))[i] {
      DotCommutes(a[i], Plus(u, v));
      DotPlus(u, v, a[i]);
      DotCommutes(a[i], u);
      DotCommutes(a[i], v);
    }
  }

  lemma MatVecMinus(a: Mat, u: Vec, v: Vec)
    requires IsMat(a, |a|, |u|) && |u| == |v|
    ensures MatVec(a, Minus(u, v)) == Minus(MatVec(a, u), MatVec(a, v))
  {
    forall i | 0 <= i < |a| ensures MatVec(a, Minus(u, v))[i] == Minus(MatVec(a, u), MatVec(a, v))[i] {
      DotMinus(a[i], u, v, Minus(u, v));
    }
  }

  lemma MatVecMul(a: Mat, b: Mat, x: Vec)
    requires IsMat(a, |a|, |b|) && IsMat(b, |b|, |x|)
    ensures MatVec(Mul(a, b, |x|), x) == MatVec(a, MatVec(b, x))
  {
    forall i | 0 <= i < |a| ensures MatVec(Mul(a, b, |x|), x)[i] == MatVec(a, MatVec(b, x))[i] {
      SandwichRows(a[i], b, x);
      SandwichDots(a[i], b, x, MatVec(b, x));
    }
  }

  lemma {:induction false} DotUnit(n: nat, i: nat, x: Vec)
    requires i < n == |x|
    ensures Dot(Unit(n, i), x) == x[i]
  {
    var u := Unit(n, i);
    DotUnfold(u, x);
    if i == n - 1 {
      assert u[..n - 1] == Zero(n - 1);
      DotZero(x[..n - 1]);
    } else {
      assert u[..n - 1] == Unit(n - 1, i);
      DotUnit(n - 1, i, x[..n - 1]);
    }
  }

  /** `(I - A) e` is `e - A e`. */
  lemma IdentityMinusApplied(a: Mat, e: Vec)
    requires IsMat(a, |e|, |e|)
    ensures MatVec(Sub(Identity(|e|), a), e) == Minus(e, MatVec(a, e))
  {
    var n := |e|;
    forall i | 0 <= i < n ensures MatVec(Sub(Identity(n), a), e)[i] == Minus(e, MatVec(a, e))[i] {
      DotCommutes(Minus(Unit(n, i), a[i]), e);
      DotMinus(e, Unit(n, i), a[i], Minus(Unit(n, i), a[i]));
      DotCommutes(e, Unit(n, i));
      DotCommutes(e, a[i]);
      DotUnit(n, i, e);
    }
  }

  /** An entry of `A P A^T`: two rows of `A` joined by `P`. */
  lemma SandwichEntry(a: Mat, p: Mat, r: nat, i: nat, j: nat)
    requires IsMat(a, r, |p|) && IsMat(p, |p|, |p|) && i < r && j < r
    ensures Mul(Mul(a, p, |p|), Transpose(a, |p|), r)[i][j] == Dot(a[i], MatVec(p, a[j]))
  {
    var n := |p|;
    var u, at := Comb(a[i], p, n), Transpose(a, n);
    assert Mul(Mul(a, p, n), at, r)[i] == Comb(u, at, r);
    CombAt(u, at, r, j);
    assert Col(at, j) == a[j];
    SandwichRows(a[i], p, a[j]);
    SandwichDots(a[i], p, a[j], MatVec(p, a[j]));
  }

  // ---------------------------------------------------------------- prediction

  /** When the true state moves by `F` and a disturbance `w`, the error of the prediction is `F` times the
      error before, plus `w`; what the prediction expects of the error's spread is `F P F^T + Q`. */
  lemma PredictedError(s: State, k: Model, truth: Vec, w: Vec)
    requires k.Fits() && IsState(s, k.n) && |truth| == k.n == |w|
    ensures Minus(Plus(MatVec(k.f, truth), w), Predict(s, k).x) == Plus(MatVec(k.f, Minus(truth, s.x)), w)
    ensures forall i, j :: 0 <= i < k.n && 0 <= j < k.n ==>
              Predict(s, k).p[i][j] == Dot(k.f[i], MatVec(s.p, k.f[j])) + k.q[i][j]
  {
    MatVecMinus(k.f, truth, s.x);
    forall i, j | 0 <= i < k.n && 0 <= j < k.n
      ensures Predict(s, k).p[i][j] == Dot(k.f[i], MatVec(s.p, k.f[j])) + k.q[i][j]
    {
      SandwichEntry(k.f, s.p, k.n, i, j);
    }
  }

  // ---------------------------------------------------------------- correction

  /** What the spread of `z - H x` is expected to be: `H P H^T + R`. */
  ghost predicate InnovationOf(inn: Mat, p: Mat, k: Model)
    requires k.Fits() && IsMat(p, k.n, k.n)
  {
    IsMat(inn, k.m, k.m)
    && forall i, j :: 0 <= i < k.m && 0 <= j < k.m ==> inn[i][j] == Dot(k.h[i], MatVec(p, k.h[j])) + k.r[i][j]
  }

  lemma InnovationEntries(p: Mat, k: Model)
    requires k.Fits() && IsMat(p, k.n, k.n)
    ensures InnovationOf(Innovation(p, k), p, k)
  {
    forall i, j | 0 <= i < k.m && 0 <= j < k.m
      ensures Innovation(p, k)[i][j] == Dot(k.h[i], MatVec(p, k.h[j])) + k.r[i][j]
    {
      SandwichEntry(k.h, p, k.m, i, j);
    }
  }

  lemma OnlyOneInnovation(a: Mat, b: Mat, p: Mat, k: Model)
    requires k.Fits() && IsMat(p, k.n, k.n) && InnovationOf(a, p, k) && InnovationOf(b, p, k)
    ensures a == b
  {
    forall i, j | 0 <= i < k.m && 0 <= j < k.m ensures a[i][j] == b[i][j] {
      assert a[i][j] == Dot(k.h[i], MatVec(p, k.h[j])) + k.r[i][j];
      assert b[i][j] == Dot(k.h[i], MatVec(p, k.h[j])) + k.r[i][j];
    }
    MatEqual(a, b, k.m, k.m);
  }

  /** `gain` solves the normal equation `K (H P H^T + R) = P H^T`. */
  ghost predicate GainOf(gain: Mat, p: Mat, k: Model)
    requires k.Fits() && IsMat(p, k.n, k.n)
  {
    IsMat(gain, k.n, k.m)
    && forall inn :: InnovationOf(inn, p, k) ==> Mul(gain, inn, k.m) == Mul(p, Transpose(k.h, k.n), k.m)
  }

  lemma GainSolves(p: Mat, k: Model, sInv: Mat)
    requires k.Fits() && IsMat(p, k.n, k.n) && IsMat(sInv, k.m, k.m) && Mul(sInv, Innovation(p, k), k.m) == Identity(k.m)
    ensures GainOf(Gain(p, k, sInv), p, k)
  {
    var g := Mul(p, Transpose(k.h, k.n), k.m);
    forall inn | InnovationOf(inn, p, k) ensures Mul(Gain(p, k, sInv), inn, k.m) == g {
      InnovationEntries(p, k);
      OnlyOneInnovation(inn, Innovation(p, k), p, k);
      MulAssociates(g, sInv, inn, k.m);
      MulIdentity(g, k.m);
    }
  }

  /** The spread of `(I - L H) e - L v` when `e` and `v` have the spreads `P` and `R`. */
  function ErrorCovariance(p: Mat, k: Model, l: Mat): (c: Mat)
    requires k.Fits() && IsMat(p, k.n, k.n) && IsMat(l, k.n, k.m)
    ensures IsMat(c, k.n, k.n)
  {
    var a := Sub(Identity(k.n), Mul(l, k.h, k.n));
    Add(Mul(Mul(a, p, k.n), Transpose(a, k.n), k.n), Mul(Mul(l, k.r, k.m), Transpose(l, k.m), k.n))
  }

  /** When the measurement is `H` of the true state plus a noise `v`, the corrected error is
      `(I - K H)` times the error before, minus `K v`, where `K` solves the normal equation; the corrected
      covariance is that of this error. */
  lemma CorrectedError(s: State, k: Model, truth: Vec, v: Vec, t: State) returns (gain: Mat)
    requires k.Fits() && IsState(s, k.n) && |truth| == k.n && |v| == k.m && Symmetric(s.p, k.n)
    requires Update(s, Plus(MatVec(k.h, truth), v), k) == Some(t)
    ensures GainOf(gain, s.p, k)
    ensures Minus(truth, t.x) == Minus(MatVec(Sub(Identity(k.n), Mul(gain, k.h, k.n)), Minus(truth, s.x)), MatVec(gain, v))
    ensures t.p == ErrorCovariance(s.p, k, gain)
  {
    var z, inn := Plus(MatVec(k.h, truth), v), Innovation(s.p, k);
    InverseIsRight(inn, k.m);
    var sInv := Inverse(inn, k.m).value;
    gain := Gain(s.p, k, sInv);
    GainSolves(s.p, k, sInv);
    JosephForm(s.p, k, sInv);
    ErrorAfter(s.x, k, truth, v, gain);
  }

  lemma ErrorAfter(x: Vec, k: Model, truth: Vec, v: Vec, gain: Mat)
    requires k.Fits() && |truth| == k.n == |x| && |v| == k.m && IsMat(gain, k.n, k.m)
    ensures var z, e := Plus(MatVec(k.h, truth), v), Minus(truth, x);
            Minus(truth, Plus(x, MatVec(gain, Minus(z, MatVec(k.h, x)))))
            == Minus(MatVec(Sub(Identity(k.n), Mul(gain, k.h, k.n)), e), MatVec(gain, v))
  {
    var z, e := Plus(MatVec(k.h, truth), v), Minus(truth, x);
    var he := MatVec(k.h, e);
    MatVecMinus(k.h, truth, x);
    assert Minus(z, MatVec(k.h, x)) == Plus(he, v);
    MatVecPlus(gain, he, v);
    MatVecMul(gain, k.h, e);
    IdentityMinusApplied(Mul(gain, k.h, k.n), e);
  }

  /** The update is refused exactly when the expected spread of the innovation has no inverse that the
      elimination accepts. */
  lemma RefusedWith(s: State, z: Vec, k: Model, inn: Mat)
    requires k.Fits() && IsState(s, k.n) && |z| == k.m && InnovationOf(inn, s.p, k)
    ensures Update(s, z, k).None? <==> Inverse(inn, k.m).None?
  {
    InnovationEntries(s.p, k);
    OnlyOneInnovation(inn, Innovation(s.p, k), s.p, k);
  }

  // ---------------------------------------------------------------- no better gain

  lemma QuadMinus(p: Mat, u: Vec, d: Vec)
    requires Symmetric(p, |u|) && |d| == |u|
    ensures Quad(p, Minus(u, d)) == Quad(p, u) - 2.0 * Dot(Comb(u, p, |u|), d) + Quad(p, d)
  {
    var n, w := |u|, Minus(u, d);
    CombMinus(u, d, p, n);
    var pu, pd := Comb(u, p, n), Comb(d, p, n);
    DotMinus(Comb(w, p, n), u, d, w);
    DotCommutes(Minus(pu, pd), u);
    DotMinus(u, pu, pd, Minus(pu, pd));
    DotCommutes(Minus(pu, pd), d);
    DotMinus(d, pu, pd, Minus(pu, pd));
    DotCommutes(u, pu);
    DotCommutes(u, pd);
    DotCommutes(d, pu);
    DotCommutes(d, pd);
    Adjoint(d, u, p);
    DotCommutes(d, pu);
  }

  /** The spread of the error along `v`, when the correction weighs the innovation by `a = v L`. */
  function Along(p: Mat, k: Model, v: Vec, a: Vec): real
    requires k.Fits() && IsMat(p, k.n, k.n) && |v| == k.n && |a| == k.m
  {
    Quad(p, Minus(v, Comb(a, k.h, k.n))) + Quad(k.r, a)
  }

  lemma CovarianceAlong(p: Mat, k: Model, l: Mat, v: Vec)
    requires k.Fits() && IsMat(p, k.n, k.n) && IsMat(l, k.n, k.m) && |v| == k.n
    ensures Quad(ErrorCovariance(p, k, l), v) == Along(p, k, v, Comb(v, l, k.m))
  {
    var n, m := k.n, k.m;
    var lh := Mul(l, k.h, n);
    var a := Sub(Identity(n), lh);
    QuadAdd(Mul(Mul(a, p, n), Transpose(a, n), n), Mul(Mul(l, k.r, m), Transpose(l, m), n), v);
    QuadSandwich(a, p, v);
    QuadSandwich(l, k.r, v);
    CombSub(v, Identity(n), lh, n);
    CombUnits(v, Identity(n), n);
    assert v + Zero(0) == v;
    CombCombs(v, l, k.h, n);
  }

  lemma CombSub(v: Vec, a: Mat, b: Mat, c: nat)
    requires IsMat(a, |v|, c) && IsMat(b, |v|, c)
    ensures Comb(v, Sub(a, b), c) == Minus(Comb(v, a, c), Comb(v, b, c))
  {
    MulSubRight([v], a, b, c);
    assert Mul([v], Sub(a, b), c)[0] == Comb(v, Sub(a, b), c);
    assert Mul([v], a, c)[0] == Comb(v, a, c) && Mul([v], b, c)[0] == Comb(v, b, c);
  }

  /** Away from the stationary weights `a`, the spread only grows. */
  lemma Stationary(p: Mat, k: Model, v: Vec, a: Vec, b: Vec)
    requires k.Fits() && Covariance(p, k.n) && Covariance(k.r, k.m) && |v| == k.n && |a| == k.m == |b|
    requires var u := Minus(v, Comb(a, k.h, k.n));
             Comb(Comb(u, p, k.n), Transpose(k.h, k.n), k.m) == Comb(a, k.r, k.m)
    ensures Along(p, k, v, a) <= Along(p, k, v, b)
  {
    var n, m := k.n, k.m;
    var u, d := Minus(v, Comb(a, k.h, n)), Minus(b, a);
    var dh, ra := Comb(d, k.h, n), Comb(a, k.r, m);
    CombMinus(b, a, k.h, n);
    assert Minus(v, Comb(b, k.h, n)) == Minus(u, dh);
    QuadMinus(p, u, dh);
    QuadPlus(k.r, a, b);
    Adjoint(d, Comb(u, p, n), k.h);
    DotCommutes(dh, Comb(u, p, n));
    DotCommutes(d, ra);
    assert Quad(p, dh) >= 0.0 && Quad(k.r, Minus(a, b)) >= 0.0;
  }

  lemma QuadPlus(r: Mat, a: Vec, b: Vec)
    requires Symmetric(r, |a|) && |b| == |a|
    ensures Quad(r, b) == Quad(r, a) + 2.0 * Dot(Comb(a, r, |a|), Minus(b, a)) + Quad(r, Minus(a, b))
  {
    var ra := Comb(a, r, |a|);
    assert Minus(a, Minus(a, b)) == b;
    QuadMinus(r, a, Minus(a, b));
    DotMinus(ra, a, b, Minus(a, b));
    DotMinus(ra, b, a, Minus(b, a));
  }

  lemma GainStationary(p: Mat, k: Model, sInv: Mat, v: Vec)
    requires k.Fits() && Symmetric(p, k.n) && IsMat(sInv, k.m, k.m) && Mul(sInv, Innovation(p, k), k.m) == Identity(k.m)
    requires |v| == k.n
    ensures var gain := Gain(p, k, sInv); var a := Comb(v, gain, k.m); var u := Minus(v, Comb(a, k.h, k.n));
            Comb(Comb(u, p, k.n), Transpose(k.h, k.n), k.m) == Comb(a, k.r, k.m)
  {
    var n, m, gain, ht := k.n, k.m, Gain(p, k, sInv), Transpose(k.h, k.n);
    var c := Sub(Identity(n), Mul(gain, k.h, n));
    CorrectedObserved(p, k, sInv);
    CombSub(v, Identity(n), Mul(gain, k.h, n), n);
    CombUnits(v, Identity(n), n);
    assert v + Zero(0) == v;
    CombCombs(v, gain, k.h, n);
    CombCombs(v, c, p, n);
    CombCombs(v, Corrected(p, k, gain), ht, m);
    CombCombs(v, gain, k.r, m);
  }

  /** Whatever gain `L` one might use instead, the error it leaves has no smaller spread in any direction. */
  lemma NoBetterGain(s: State, z: Vec, k: Model, t: State, l: Mat, v: Vec)
    requires k.Fits() && IsState(s, k.n) && |z| == k.m && Covariance(s.p, k.n) && Covariance(k.r, k.m)
    requires Update(s, z, k) == Some(t) && IsMat(l, k.n, k.m) && |v| == k.n
    ensures Quad(t.p, v) <= Quad(ErrorCovariance(s.p, k, l), v)
  {
    var inn := Innovation(s.p, k);
    InverseIsRight(inn, k.m);
    var sInv := Inverse(inn, k.m).value;
    var gain := Gain(s.p, k, sInv);
    JosephForm(s.p, k, sInv);
    CovarianceAlong(s.p, k, gain, v);
    CovarianceAlong(s.p, k, l, v);
    GainStationary(s.p, k, sInv, v);
    Stationary(s.p, k, v, Comb(v, gain, k.m), Comb(v, l, k.m));
  }

  // ---------------------------------------------------------------- whole runs

  /** The true state after `n` moves. */
  function Moved(f: Mat, x: Vec, n: nat): (y: Vec)
    requires IsMat(f, |x|, |x|)
    ensures |y| == |x|
    decreases n
  {
    if n == 0 then x else Moved(f, MatVec(f, x), n - 1)
  }

  /** Each measurement is `H` of the state at its step. */
  ghost predicate Noiseless(zs: seq<Vec>, x: Vec, k: Model)
    requires k.Fits() && |x| == k.n
  {
    forall i :: 0 <= i < |zs| ==> zs[i] == MatVec(k.h, Moved(k.f, x, i + 1))
  }

  lemma NoiselessTail(zs: seq<Vec>, x: Vec, k: Model)
    requires k.Fits() && |x| == k.n && Noiseless(zs, x, k) && zs != []
    ensures zs[0] == MatVec(k.h, MatVec(k.f, x)) && Noiseless(zs[1..], MatVec(k.f, x), k)
  {
    assert Moved(k.f, x, 1) == Moved(k.f, MatVec(k.f, x), 0);
    forall i | 0 <= i < |zs[1..]| ensures zs[1..][i] == MatVec(k.h, Moved(k.f, MatVec(k.f, x), i + 1)) {
      assert zs[1..][i] == zs[i + 1] && Moved(k.f, x, i + 2) == Moved(k.f, MatVec(k.f, x), i + 1);
    }
  }

  lemma {:induction false} MeasuredRight(zs: seq<Vec>, x: Vec, k: Model)
    requires k.Fits() && |x| == k.n && Noiseless(zs, x, k)
    ensures Measurements(zs, k.m)
  {
    if zs != [] {
      NoiselessTail(zs, x, k);
      MeasuredRight(zs[1..], MatVec(k.f, x), k);
    }
  }

  /** Started at the true state and fed noiseless measurements, the filter stays at the true state. */
  lemma {:induction false} StaysExact(s: State, zs: seq<Vec>, k: Model, t: State)
    requires k.Fits() && IsState(s, k.n) && Noiseless(zs, s.x, k) && Measurements(zs, k.m) && Filter(s, zs, k) == Some(t)
    requires Covariance(s.p, k.n) && Covariance(k.q, k.n) && Covariance(k.r, k.m)
    ensures t.x == Moved(k.f, s.x, |zs|)
    decreases zs
  {
    if zs != [] {
      NoiselessTail(zs, s.x, k);
      var next := Step(s, zs[0], k).value;
      OneExact(s, zs[0], k, next);
      StepKeepsCovariance(s, zs[0], k);
      StaysExact(next, zs[1..], k, t);
    }
  }

  lemma OneExact(s: State, z: Vec, k: Model, t: State)
    requires k.Fits() && IsState(s, k.n) && Covariance(s.p, k.n) && Covariance(k.q, k.n)
    requires z == MatVec(k.h, MatVec(k.f, s.x)) && Step(s, z, k) == Some(t)
    ensures t.x == MatVec(k.f, s.x)
  {
    var w, v := Zero(k.n), Zero(k.m);
    var now := MatVec(k.f, s.x);
    PlusZero(now);
    PlusZero(z);
    var gain := StepError(s, k, s.x, w, now, v, z, t);
    NoError(k, gain, s.x);
    MinusZero(now, t.x);
  }

  lemma PlusZero(u: Vec)
    ensures Plus(u, Zero(|u|)) == u
  {}

  lemma MinusZero(u: Vec, v: Vec)
    requires |u| == |v| && Minus(u, v) == Zero(|u|)
    ensures u == v
  {
    forall i | 0 <= i < |u| ensures u[i] == v[i] { assert Minus(u, v)[i] == 0.0; }
  }

  lemma NoError(k: Model, gain: Mat, x: Vec)
    requires k.Fits() && IsMat(gain, k.n, k.m) && |x| == k.n
    ensures Minus(MatVec(Sub(Identity(k.n), Mul(gain, k.h, k.n)), Plus(MatVec(k.f, Minus(x, x)), Zero(k.n))), MatVec(gain, Zero(k.m)))
            == Zero(k.n)
  {
    var a := Sub(Identity(k.n), Mul(gain, k.h, k.n));
    MatVecZero(k.f, k.n);
    MatVecZero(gain, k.m);
    MatVecZero(a, k.n);
    assert Minus(x, x) == Zero(k.n);
    assert Plus(Zero(k.n), Zero(k.n)) == Zero(k.n) && Minus(Zero(k.n), Zero(k.n)) == Zero(k.n);
  }

  lemma MatVecZero(a: Mat, n: nat)
    requires IsMat(a, |a|, n)
    ensures MatVec(a, Zero(n)) == Zero(|a|)
  {
    forall i | 0 <= i < |a| ensures MatVec(a, Zero(n))[i] == 0.0 {
      DotCommutes(a[i], Zero(n));
      DotZero(a[i]);
    }
  }

  /** One step of the filter against one move of the true state: the error after it is
      `(I - K H)(F e + w) - K v`. */
  lemma StepError(s: State, k: Model, truth: Vec, w: Vec, now: Vec, v: Vec, z: Vec, t: State) returns (gain: Mat)
    requires k.Fits() && IsState(s, k.n) && |truth| == k.n == |w| && |v| == k.m
    requires Symmetric(s.p, k.n) && Symmetric(k.q, k.n)
    requires now == Plus(MatVec(k.f, truth), w) && z == Plus(MatVec(k.h, now), v) && Step(s, z, k) == Some(t)
    ensures GainOf(gain, Predict(s, k).p, k)
    ensures Minus(now, t.x)
            == Minus(MatVec(Sub(Identity(k.n), Mul(gain, k.h, k.n)), Plus(MatVec(k.f, Minus(truth, s.x)), w)), MatVec(gain, v))
  {
    PredictSymmetric(s, k);
    PredictedError(s, k, truth, w);
    gain := CorrectedError(Predict(s, k), k, now, v, t);
  }
}
