/** The Kalman filter over exact reals: one predict and one update step, and what they keep of the
    covariance. */
module Kalman {
  import opened Prelude
  import opened Linear
  import opened Gauss

  function MatVec(a: Mat, x: Vec): (y: Vec)
    requires IsMat(a, |a|, |x|)
    ensures |y| == |a| && forall i {:trigger y[i]} :: 0 <= i < |a| ==> y[i] == Dot(a[i], x)
  {
    seq(|a|, i requires 0 <= i < |a| && IsMat(a, |a|, |x|) => Dot(a[i], x))
  }

  datatype State = State(x: Vec, p: Mat)

  ghost predicate IsState(s: State, n: nat) { |s.x| == n && IsMat(s.p, n, n) }

  /** What a filter is given: transition and process noise, observation and measurement noise. */
  datatype Model = Model(f: Mat, q: Mat, h: Mat, r: Mat, n: nat, m: nat) {
    ghost predicate Fits() { IsMat(f, n, n) && IsMat(q, n, n) && IsMat(h, m, n) && IsMat(r, m, m) }
  }

  function Predict(s: State, k: Model): (t: State)
    requires k.Fits() && IsState(s, k.n)
    ensures IsState(t, k.n)
  {
    State(MatVec(k.f, s.x), Add(Mul(Mul(k.f, s.p, k.n), Transpose(k.f, k.n), k.n), k.q))
  }

  /** `H P H^T + R`. */
  function Innovation(p: Mat, k: Model): (s: Mat)
    requires k.Fits() && IsMat(p, k.n, k.n)
    ensures IsMat(s, k.m, k.m)
  {
    Add(Mul(Mul(k.h, p, k.n), Transpose(k.h, k.n), k.m), k.r)
  }

  function Gain(p: Mat, k: Model, sInv: Mat): (g: Mat)
    requires k.Fits() && IsMat(p, k.n, k.n) && IsMat(sInv, k.m, k.m)
    ensures IsMat(g, k.n, k.m)
  {
    Mul(Mul(p, Transpose(k.h, k.n), k.m), sInv, k.m)
  }

  /** `(I - K H) P`. */
  function Corrected(p: Mat, k: Model, gain: Mat): (r: Mat)
    requires k.Fits() && IsMat(p, k.n, k.n) && IsMat(gain, k.n, k.m)
    ensures IsMat(r, k.n, k.n)
  {
    Mul(Sub(Identity(k.n), Mul(gain, k.h, k.n)), p, k.n)
  }

  function Update(s: State, z: Vec, k: Model): (t: Option<State>)
    requires k.Fits() && IsState(s, k.n) && |z| == k.m
    ensures t.Some? ==> IsState(t.value, k.n)
  {
    match Inverse(Innovation(s.p, k), k.m)
    case None => None
    case Some(sInv) =>
      var gain := Gain(s.p, k, sInv);
      Some(State(Plus(s.x, MatVec(gain, Minus(z, MatVec(k.h, s.x)))), Corrected(s.p, k, gain)))
  }

  function Step(s: State, z: Vec, k: Model): (t: Option<State>)
    requires k.Fits() && IsState(s, k.n) && |z| == k.m
    ensures t.Some? ==> IsState(t.value, k.n)
  {
    Update(Predict(s, k), z, k)
  }

  predicate Measurements(zs: seq<Vec>, m: nat) {
    zs == [] || (|zs[0]| == m && Measurements(zs[1..], m))
  }

  /** One predict and one update per measurement, until an update is refused. */
  function Filter(s: State, zs: seq<Vec>, k: Model): (t: Option<State>)
    requires k.Fits() && IsState(s, k.n) && Measurements(zs, k.m)
    ensures t.Some? ==> IsState(t.value, k.n)
    decreases zs
  {
    if zs == [] then Some(s)
    else
      var t := Step(s, zs[0], k);
      if t.None? then None else Filter(t.value, zs[1..], k)
  }

  // ---------------------------------------------------------------- symmetry

  /** `A P A^T` is symmetric when `P` is. */
  lemma SandwichSymmetric(a: Mat, p: Mat, r: nat)
    requires IsMat(a, r, |p|) && Symmetric(p, |p|)
    ensures Symmetric(Mul(Mul(a, p, |p|), Transpose(a, |p|), r), r)
  {
    var n, at := |p|, Transpose(a, |p|);
    TransposeMul(Mul(a, p, n), at, r);
    TransposeMul(a, p, n);
    TransposeTwice(a, n);
    MulAssociates(a, p, at, r);
  }

  lemma SumSymmetric(a: Mat, b: Mat, n: nat)
    requires Symmetric(a, n) && Symmetric(b, n)
    ensures Symmetric(Add(a, b), n)
  {
    TransposeAdd(a, b, n);
  }

  lemma PredictSymmetric(s: State, k: Model)
    requires k.Fits() && IsState(s, k.n) && Symmetric(s.p, k.n) && Symmetric(k.q, k.n)
    ensures Symmetric(Predict(s, k).p, k.n)
  {
    SandwichSymmetric(k.f, s.p, k.n);
    SumSymmetric(Mul(Mul(k.f, s.p, k.n), Transpose(k.f, k.n), k.n), k.q, k.n);
  }

  lemma InnovationSymmetric(p: Mat, k: Model)
    requires k.Fits() && Symmetric(p, k.n) && Symmetric(k.r, k.m)
    ensures Symmetric(Innovation(p, k), k.m)
  {
    SandwichSymmetric(k.h, p, k.m);
    SumSymmetric(Mul(Mul(k.h, p, k.n), Transpose(k.h, k.n), k.m), k.r, k.m);
  }

  /** With `G = P H^T`: the correction is `P - G S^-1 G^T`. */
  lemma CorrectedForm(p: Mat, k: Model, sInv: Mat)
    requires k.Fits() && Symmetric(p, k.n) && IsMat(sInv, k.m, k.m)
    ensures var g := Mul(p, Transpose(k.h, k.n), k.m);
            Transpose(g, k.m) == Mul(k.h, p, k.n)
            && Corrected(p, k, Gain(p, k, sInv)) == Sub(p, Mul(Gain(p, k, sInv), Mul(k.h, p, k.n), k.n))
  {
    var n, m := k.n, k.m;
    var ht := Transpose(k.h, n);
    TransposeMul(p, ht, m);
    TransposeTwice(k.h, n);
    var gain := Gain(p, k, sInv);
    MulSub(Identity(n), Mul(gain, k.h, n), p, n);
    IdentityMul(p, n);
    MulAssociates(gain, k.h, p, n);
  }

  lemma CorrectedSymmetric(p: Mat, k: Model, sInv: Mat)
    requires k.Fits() && Symmetric(p, k.n) && Symmetric(sInv, k.m)
    ensures Symmetric(Corrected(p, k, Gain(p, k, sInv)), k.n)
  {
    var n, m := k.n, k.m;
    var g := Mul(p, Transpose(k.h, n), m);
    CorrectedForm(p, k, sInv);
    var gt := Mul(k.h, p, n);
    TransposeTwice(g, m);
    TransposeTwice(gt, n);
    assert Transpose(gt, n) == g;
    SandwichSymmetric(g, sInv, n);
    TransposeSub(p, Mul(Mul(g, sInv, m), gt, n), n);
  }

  lemma UpdateSymmetric(s: State, z: Vec, k: Model)
    requires k.Fits() && IsState(s, k.n) && |z| == k.m && Symmetric(s.p, k.n) && Symmetric(k.r, k.m)
    requires Update(s, z, k).Some?
    ensures Symmetric(Update(s, z, k).value.p, k.n)
  {
    var inn := Innovation(s.p, k);
    InnovationSymmetric(s.p, k);
    InverseIsRight(inn, k.m);
    var sInv := Inverse(inn, k.m).value;
    LeftInverseSymmetric(sInv, inn, k.m);
    CorrectedSymmetric(s.p, k, sInv);
  }

  // ---------------------------------------------------------------- positive semidefiniteness

  lemma SandwichPositive(a: Mat, p: Mat, r: nat)
    requires IsMat(a, r, |p|) && PositiveSemidefinite(p, |p|)
    ensures PositiveSemidefinite(Mul(Mul(a, p, |p|), Transpose(a, |p|), r), r)
  {
    forall v: Vec | |v| == r ensures Quad(Mul(Mul(a, p, |p|), Transpose(a, |p|), r), v) >= 0.0 { QuadSandwich(a, p, v); }
  }

  lemma SumPositive(a: Mat, b: Mat, n: nat)
    requires PositiveSemidefinite(a, n) && PositiveSemidefinite(b, n)
    ensures PositiveSemidefinite(Add(a, b), n)
  {
    forall v: Vec | |v| == n ensures Quad(Add(a, b), v) >= 0.0 { SumPositiveAt(a, b, v); }
  }

  lemma SumPositiveAt(a: Mat, b: Mat, v: Vec)
    requires PositiveSemidefinite(a, |v|) && PositiveSemidefinite(b, |v|)
    ensures Quad(Add(a, b), v) >= 0.0
  {
    QuadAdd(a, b, v);
  }

  lemma PredictPositive(s: State, k: Model)
    requires k.Fits() && IsState(s, k.n) && PositiveSemidefinite(s.p, k.n) && PositiveSemidefinite(k.q, k.n)
    ensures PositiveSemidefinite(Predict(s, k).p, k.n)
  {
    SandwichPositive(k.f, s.p, k.n);
    SumPositive(Mul(Mul(k.f, s.p, k.n), Transpose(k.f, k.n), k.n), k.q, k.n);
  }

  /** The corrected covariance times `H^T` is the gain times the measurement noise. */
  lemma CorrectedObserved(p: Mat, k: Model, sInv: Mat)
    requires k.Fits() && Symmetric(p, k.n) && IsMat(sInv, k.m, k.m) && Mul(sInv, Innovation(p, k), k.m) == Identity(k.m)
    ensures var gain := Gain(p, k, sInv);
            Mul(Corrected(p, k, gain), Transpose(k.h, k.n), k.m) == Mul(gain, k.r, k.m)
  {
    var n, m, ht, inn := k.n, k.m, Transpose(k.h, k.n), Innovation(p, k);
    var g, gain, hp := Mul(p, ht, m), Gain(p, k, sInv), Mul(k.h, p, n);
    CorrectedForm(p, k, sInv);
    MulSub(p, Mul(gain, hp, n), ht, m);
    MulAssociates(gain, hp, ht, m);
    GainTimesObserved(p, k, sInv);
    SubSub(g, Mul(gain, k.r, m), n, m);
  }

  /** `K H P H^T = P H^T - K R`. */
  lemma GainTimesObserved(p: Mat, k: Model, sInv: Mat)
    requires k.Fits() && IsMat(p, k.n, k.n) && IsMat(sInv, k.m, k.m) && Mul(sInv, Innovation(p, k), k.m) == Identity(k.m)
    ensures var gain, ht := Gain(p, k, sInv), Transpose(k.h, k.n);
            Mul(gain, Mul(Mul(k.h, p, k.n), ht, k.m), k.m) == Sub(Mul(p, ht, k.m), Mul(gain, k.r, k.m))
  {
    var n, m, ht, inn := k.n, k.m, Transpose(k.h, k.n), Innovation(p, k);
    var g, gain, b := Mul(p, ht, m), Gain(p, k, sInv), Mul(Mul(k.h, p, n), ht, m);
    AddSub(b, k.r, m, m);
    MulSubRight(gain, inn, k.r, m);
    MulAssociates(g, sInv, inn, m);
    MulIdentity(g, m);
  }

  lemma AddSub(b: Mat, r: Mat, n: nat, m: nat)
    requires IsMat(b, n, m) && IsMat(r, n, m)
    ensures Sub(Add(b, r), r) == b
  {
    MatEqual(Sub(Add(b, r), r), b, n, m);
  }

  lemma SubSub(g: Mat, x: Mat, n: nat, m: nat)
    requires IsMat(g, n, m) && IsMat(x, n, m)
    ensures Sub(g, Sub(g, x)) == x
  {
    MatEqual(Sub(g, Sub(g, x)), x, n, m);
  }

  lemma SubAdd(c: Mat, x: Mat, n: nat)
    requires IsMat(c, n, n) && IsMat(x, n, n)
    ensures Add(Sub(c, x), x) == c
  {
    MatEqual(Add(Sub(c, x), x), c, n, n);
  }

  /** The stabilised form: `(I - K H) P = (I - K H) P (I - K H)^T + K R K^T`. */
  lemma JosephForm(p: Mat, k: Model, sInv: Mat)
    requires k.Fits() && Symmetric(p, k.n) && IsMat(sInv, k.m, k.m) && Mul(sInv, Innovation(p, k), k.m) == Identity(k.m)
    ensures var gain := Gain(p, k, sInv);
            var a := Sub(Identity(k.n), Mul(gain, k.h, k.n));
            Corrected(p, k, gain)
            == Add(Mul(Mul(a, p, k.n), Transpose(a, k.n), k.n), Mul(Mul(gain, k.r, k.m), Transpose(gain, k.m), k.n))
  {
    var n, m, ht := k.n, k.m, Transpose(k.h, k.n);
    var gain := Gain(p, k, sInv);
    var kh := Mul(gain, k.h, n);
    var a, gt, c := Sub(Identity(n), kh), Transpose(gain, m), Corrected(p, k, gain);
    var noise := Mul(Mul(gain, k.r, m), gt, n);
    IdentitySymmetric(n);
    TransposeSub(Identity(n), kh, n);
    TransposeMul(gain, k.h, n);
    MulSubRight(c, Identity(n), Mul(ht, gt, n), n);
    MulIdentity(c, n);
    MulAssociates(c, ht, gt, n);
    CorrectedObserved(p, k, sInv);
    SubAdd(c, noise, n);
  }

  lemma UpdatePositive(s: State, z: Vec, k: Model)
    requires k.Fits() && IsState(s, k.n) && |z| == k.m && Symmetric(s.p, k.n)
    requires PositiveSemidefinite(s.p, k.n) && PositiveSemidefinite(k.r, k.m) && Update(s, z, k).Some?
    ensures PositiveSemidefinite(Update(s, z, k).value.p, k.n)
  {
    var inn := Innovation(s.p, k);
    InverseIsRight(inn, k.m);
    var sInv := Inverse(inn, k.m).value;
    var gain := Gain(s.p, k, sInv);
    var a := Sub(Identity(k.n), Mul(gain, k.h, k.n));
    JosephForm(s.p, k, sInv);
    SandwichPositive(a, s.p, k.n);
    SandwichPositive(gain, k.r, k.n);
    SumPositive(Mul(Mul(a, s.p, k.n), Transpose(a, k.n), k.n), Mul(Mul(gain, k.r, k.m), Transpose(gain, k.m), k.n), k.n);
  }

  // ---------------------------------------------------------------- whole runs

  ghost predicate Covariance(p: Mat, n: nat) { Symmetric(p, n) && PositiveSemidefinite(p, n) }

  lemma StepKeepsCovariance(s: State, z: Vec, k: Model)
    requires k.Fits() && IsState(s, k.n) && |z| == k.m && Covariance(s.p, k.n)
    requires Covariance(k.q, k.n) && Covariance(k.r, k.m) && Step(s, z, k).Some?
    ensures Covariance(Step(s, z, k).value.p, k.n)
  {
    PredictSymmetric(s, k);
    PredictPositive(s, k);
    UpdateSymmetric(Predict(s, k), z, k);
    UpdatePositive(Predict(s, k), z, k);
  }

  /** However long the filter runs, and whatever it measures, its covariance stays symmetric and
      positive semidefinite. */
  lemma {:induction false} RunKeepsCovariance(s: State, zs: seq<Vec>, k: Model, t: State)
    requires k.Fits() && IsState(s, k.n) && Measurements(zs, k.m) && Covariance(s.p, k.n)
    requires Covariance(k.q, k.n) && Covariance(k.r, k.m) && Filter(s, zs, k) == Some(t)
    ensures Covariance(t.p, k.n)
    decreases zs
  {
    if zs != [] {
      StepKeepsCovariance(s, zs[0], k);
      RunKeepsCovariance(Step(s, zs[0], k).value, zs[1..], k, t);
    }
  }
}
