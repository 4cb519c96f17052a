/** The predict and update procedures on flat buffers, and the benchmark loop around them. */
module KalmanSteps {
  import opened Prelude
  import opened Linear
  import opened Gauss
  import opened Kalman
  import opened KalmanBenchmark
  import opened KalmanMachine

  /** Scratch buffers have 16 entries. */
  lemma FitsScratch(r: nat, c: nat)
    requires r <= 4 && c <= 4
    ensures r * c <= 16
  {
    TimesMonotone(r, 4, c);
  }

  method KfPredict(x: array<real>, p: array<real>, f: array<real>, q: array<real>, ghost s: State, ghost k: Model,
                   n: nat, xNew: array<real>, pNew: array<real>)
    requires k.Fits() && k.n == n <= 4 && IsState(s, n)
    requires x.Length >= n && x[..n] == s.x && Holds(p[..], s.p, n, n) && Holds(f[..], k.f, n, n) && Holds(q[..], k.q, n, n)
    requires xNew.Length >= n && pNew.Length >= n * n && xNew !in {x, p, f, q} && pNew !in {x, p, f, q, xNew}
    modifies xNew, pNew
    ensures xNew[..n] == Predict(s, k).x && Holds(pNew[..], Predict(s, k).p, n, n)
  {
    FitsScratch(n, n);
    MatVecMul(f, k.f, n, n, x, s.x, xNew);
    var ft, fp, fpft := new real[16], new real[16], new real[16];
    MatTranspose(f, k.f, n, n, ft);
    MatMul(f, k.f, n, n, p, s.p, n, fp);
    ghost var FP, FT := Mul(k.f, s.p, n), Transpose(k.f, n);
    MatMul(fp, FP, n, n, ft, FT, n, fpft);
    VecAdd(fpft, q, n * n, pNew);
    HoldsAdd(fpft[..], q[..], pNew[..], Mul(FP, FT, n), k.q, n, n);
  }

  /** `S = H P H^T + R`. */
  method InnovationInto(p: array<real>, h: array<real>, r: array<real>, ht: array<real>, ghost P: Mat, ghost k: Model,
                        n: nat, m: nat, s: array<real>)
    requires k.Fits() && k.n == n <= 4 && k.m == m <= 4 && IsMat(P, n, n) && s.Length == 16
    requires Holds(p[..], P, n, n) && Holds(h[..], k.h, m, n) && Holds(r[..], k.r, m, m) && Holds(ht[..], Transpose(k.h, n), n, m)
    requires s !in {p, h, r, ht}
    modifies s
    ensures Holds(s[..], Innovation(P, k), m, m)
  {
    FitsScratch(m, n);
    FitsScratch(m, m);
    var hp, hpht := new real[16], new real[16];
    MatMul(h, k.h, m, n, p, P, n, hp);
    MatMul(hp, Mul(k.h, P, n), m, n, ht, Transpose(k.h, n), m, hpht);
    VecAdd(hpht, r, m * m, s);
    HoldsAdd(hpht[..], r[..], s[..], Mul(Mul(k.h, P, n), Transpose(k.h, n), m), k.r, m, m);
  }

  /** `I - K H`. */
  method IdentityMinus(kh: array<real>, ghost KH: Mat, n: nat, out: array<real>)
    requires Holds(kh[..], KH, n, n) && out.Length >= n * n && out != kh
    modifies out
    ensures Holds(out[..], Sub(Identity(n), KH), n, n)
  {
    ghost var O := View(out[..], n, n);
    for i := 0 to n
      invariant Holds(out[..], O, n, n)
      invariant forall r, c {:trigger O[r][c]} :: 0 <= r < i && 0 <= c < n ==> O[r][c] == (if r == c then 1.0 else 0.0) - KH[r][c]
    {
      for j := 0 to n
        invariant Holds(out[..], O, n, n)
        invariant forall r, c {:trigger O[r][c]} :: 0 <= r < i && 0 <= c < n ==> O[r][c] == (if r == c then 1.0 else 0.0) - KH[r][c]
        invariant forall c {:trigger O[i][c]} :: 0 <= c < j ==> O[i][c] == (if i == c then 1.0 else 0.0) - KH[i][c]
      {
        assert kh[..][Cell(i, j, n, n)] == KH[i][j];
        var v := (if i == j then 1.0 else 0.0) - kh[Cell(i, j, n, n)];
        Store(out, O, n, n, i, j, v);
        O := Put(O, i, j, v);
      }
    }
    MatEqual(O, Sub(Identity(n), KH), n, n);
  }

  /** The corrected state and covariance, once the innovation has been inverted. */
  method Correct(x: array<real>, p: array<real>, y: array<real>, h: array<real>, ht: array<real>, sInv: array<real>,
                 ghost s: State, ghost z: Vec, ghost k: Model, ghost SI: Mat, n: nat, m: nat,
                 xNew: array<real>, pNew: array<real>)
    requires k.Fits() && k.n == n <= 4 && k.m == m <= 4 && IsState(s, n) && |z| == m && IsMat(SI, m, m)
    requires x.Length >= n && x[..n] == s.x && Holds(p[..], s.p, n, n) && y.Length >= m && y[..m] == Minus(z, MatVec(k.h, s.x))
    requires Holds(h[..], k.h, m, n) && Holds(ht[..], Transpose(k.h, n), n, m) && Holds(sInv[..], SI, m, m)
    requires xNew.Length >= n && pNew.Length >= n * n && xNew !in {x, p, y, h, ht, sInv} && pNew !in {x, p, y, h, ht, sInv, xNew}
    modifies xNew, pNew
    ensures xNew[..n] == Plus(s.x, MatVec(Gain(s.p, k, SI), Minus(z, MatVec(k.h, s.x))))
    ensures Holds(pNew[..], Corrected(s.p, k, Gain(s.p, k, SI)), n, n)
  {
    FitsScratch(n, m);
    FitsScratch(n, n);
    ghost var G := Gain(s.p, k, SI);
    var pht, gain, ky := new real[16], new real[16], new real[16];
    MatMul(p, s.p, n, n, ht, Transpose(k.h, n), m, pht);
    MatMul(pht, Mul(s.p, Transpose(k.h, n), m), n, m, sInv, SI, m, gain);
    MatVecMul(gain, G, n, m, y, Minus(z, MatVec(k.h, s.x)), ky);
    VecAdd(x, ky, n, xNew);
    var kh, iMinusKh := new real[16], new real[16];
    MatMul(gain, G, n, m, h, k.h, n, kh);
    IdentityMinus(kh, Mul(G, k.h, n), n, iMinusKh);
    MatMul(iMinusKh, Sub(Identity(n), Mul(G, k.h, n)), n, n, p, s.p, n, pNew);
  }

  /** 0 and the updated state, or -1 when the innovation cannot be inverted. */
  method KfUpdate(x: array<real>, p: array<real>, z: array<real>, h: array<real>, r: array<real>,
                  ghost s: State, ghost k: Model, n: nat, m: nat, xNew: array<real>, pNew: array<real>) returns (code: int)
    requires k.Fits() && k.n == n <= 4 && k.m == m <= 4 && IsState(s, n) && z.Length >= m
    requires x.Length >= n && x[..n] == s.x && Holds(p[..], s.p, n, n) && Holds(h[..], k.h, m, n) && Holds(r[..], k.r, m, m)
    requires xNew.Length >= n && pNew.Length >= n * n && xNew !in {x, p, z, h, r} && pNew !in {x, p, z, h, r, xNew}
    modifies xNew, pNew
    ensures code == if Update(s, old(z[..m]), k).Some? then 0 else -1
    ensures code == 0 ==> xNew[..n] == Update(s, old(z[..m]), k).value.x && Holds(pNew[..], Update(s, old(z[..m]), k).value.p, n, n)
  {
    FitsScratch(n, m);
    var y := Residual(x, z, h, s, k, n, m);
    var ht, sInv := new real[16], new real[16];
    MatTranspose(h, k.h, m, n, ht);
    code := InvertInnovation(p, h, r, ht, s.p, k, n, m, sInv);
    if code != 0 { return -1; }
    Correct(x, p, y, h, ht, sInv, s, z[..m], k, Inverse(Innovation(s.p, k), m).value, n, m, xNew, pNew);
  }

  /** `y = z - H x`. */
  method Residual(x: array<real>, z: array<real>, h: array<real>, ghost s: State, ghost k: Model, n: nat, m: nat)
    returns (y: array<real>)
    requires k.Fits() && k.n == n && k.m == m <= 4 && IsState(s, n) && z.Length >= m
    requires x.Length >= n && x[..n] == s.x && Holds(h[..], k.h, m, n)
    ensures fresh(y) && y.Length == 4 && y[..m] == Minus(z[..m], MatVec(k.h, s.x))
  {
    y := new real[4];
    var hx := new real[4];
    MatVecMul(h, k.h, m, n, x, s.x, hx);
    VecSub(z, hx, m, y);
  }

  method InvertInnovation(p: array<real>, h: array<real>, r: array<real>, ht: array<real>, ghost P: Mat, ghost k: Model,
                          n: nat, m: nat, sInv: array<real>) returns (code: int)
    requires k.Fits() && k.n == n <= 4 && k.m == m <= 4 && IsMat(P, n, n) && sInv.Length == 16
    requires Holds(p[..], P, n, n) && Holds(h[..], k.h, m, n) && Holds(r[..], k.r, m, m) && Holds(ht[..], Transpose(k.h, n), n, m)
    modifies sInv
    ensures code == if Inverse(Innovation(P, k), m).Some? then 0 else -1
    ensures code == 0 ==> Holds(sInv[..], Inverse(Innovation(P, k), m).value, m, m)
  {
    FitsScratch(m, m);
    var inn := new real[16];
    InnovationInto(p, h, r, ht, P, k, n, m, inn);
    code := MatInv(inn, Innovation(P, k), m, sInv);
  }

  // ---------------------------------------------------------------- the benchmark

  function Time(i: nat): real { if i == 0 then 0.0 else Time(i - 1) + CENT }

  lemma {:induction false} TimeIs(i: nat)
    ensures Time(i) == CENT * (i as real)
  {
    if i > 0 { TimeIs(i - 1); }
  }

  /** What the benchmark measures in its first `n` steps. */
  function Measured(n: nat): (zs: seq<Vec>)
    ensures |zs| == n
  {
    if n == 0 then [] else Measured(n - 1) + [[Time(n - 1), Time(n - 1) * 0.5]]
  }

  lemma {:induction false} OneMore(zs: seq<Vec>, z: Vec, k: Model, s: State)
    requires k.Fits() && IsState(s, k.n) && Measurements(zs, k.m) && |z| == k.m
    ensures Measurements(zs + [z], k.m)
    ensures Filter(s, zs + [z], k) == (var t := Filter(s, zs, k); if t.None? then None else Step(t.value, z, k))
    decreases zs
  {
    var all := zs + [z];
    if zs == [] {
      assert all == [z] && all[1..] == [];
    } else {
      assert all[0] == zs[0] && all[1..] == zs[1..] + [z];
      var t := Step(s, zs[0], k);
      if t.Some? { OneMore(zs[1..], z, k, t.value); } else { AllMeasured(zs[1..], z, k.m); }
    }
  }

  lemma {:induction false} AllMeasured(zs: seq<Vec>, z: Vec, m: nat)
    requires Measurements(zs, m) && |z| == m
    ensures Measurements(zs + [z], m)
  {
    if zs == [] { assert [z][1..] == []; assert zs + [z] == [z]; }
    else { AllMeasured(zs[1..], z, m); assert (zs + [z])[1..] == zs[1..] + [z]; }
  }

  /** A 4 by 4 buffer, cell by cell. */
  lemma Holds16(s: seq<real>, m: Mat)
    requires |s| == 16 && IsMat(m, 4, 4)
    requires forall i :: 0 <= i < 4 ==> m[i] == s[4 * i..4 * i + 4]
    ensures Holds(s, m, 4, 4)
  {
    forall i: nat, k: nat | i < 4 && k < 4 ensures s[Cell(i, k, 4, 4)] == m[i][k] { assert m[i] == s[4 * i..4 * i + 4]; }
  }

  lemma DiagonalHolds(s: seq<real>, c: real)
    requires s == [c, 0.0, 0.0, 0.0, 0.0, c, 0.0, 0.0, 0.0, 0.0, c, 0.0, 0.0, 0.0, 0.0, c]
    ensures Holds(s, Diagonal(4, c), 4, 4)
  {
    var m := Diagonal(4, c);
    forall i | 0 <= i < 4 ensures m[i] == s[4 * i..4 * i + 4] { assert m[i] == Scale(c, Unit(4, i)); }
    Holds16(s, m);
  }

  lemma TransitionHolds(s: seq<real>)
    requires s == [1.0, 0.0, 1.0, 0.0, 0.0, 1.0, 0.0, 1.0, 0.0, 0.0, 1.0, 0.0, 0.0, 0.0, 0.0, 1.0]
    ensures Holds(s, TRANSITION, 4, 4)
  {
    var m := TRANSITION;
    assert m[0] == s[0..4] && m[1] == s[4..8] && m[2] == s[8..12] && m[3] == s[12..16];
    Holds16(s, m);
  }

  method CopyBuffer(from: array<real>, n: nat, into: array<real>)
    requires from.Length == n == into.Length && from != into
    modifies into
    ensures into[..] == from[..]
  {
    for i := 0 to n
      invariant into[..i] == from[..i]
    {
      into[i] := from[i];
    }
    assert into[..n] == into[..] && from[..n] == from[..];
  }

  /** Predict and update into fresh buffers. */
  method PredictUpdate(x: array<real>, p: array<real>, f: array<real>, q: array<real>, h: array<real>, r: array<real>,
                       t: real, ghost s: State, ghost k: Model) returns (x2: array<real>, p2: array<real>)
    requires k.Fits() && k.n == 4 && k.m == 2 && IsState(s, 4) && Step(s, [t, t * 0.5], k).Some?
    requires x.Length == 4 && x[..] == s.x && Holds(p[..], s.p, 4, 4) && Holds(f[..], k.f, 4, 4) && Holds(q[..], k.q, 4, 4)
    requires Holds(h[..], k.h, 2, 4) && Holds(r[..], k.r, 2, 2)
    ensures fresh(x2) && fresh(p2) && x2 != p2 && x2.Length == 4 && p2.Length == 16
    ensures var next := Step(s, [t, t * 0.5], k).value; x2[..] == next.x && Holds(p2[..], next.p, 4, 4)
  {
    var x1, p1 := new real[4], new real[16];
    assert x[..4] == x[..];
    KfPredict(x, p, f, q, s, k, 4, x1, p1);
    var z := new real[][t, t * 0.5];
    assert z[..2] == [t, t * 0.5];
    x2, p2 := new real[4], new real[16];
    var _ := KfUpdate(x1, p1, z, h, r, Predict(s, k), k, 4, 2, x2, p2);
    assert x2[..4] == x2[..];
  }

  /** The filter is never refused, whatever it measures. */
  ghost predicate NeverRefused(s: State, k: Model) {
    k.Fits() && IsState(s, k.n)
    && forall zs {:trigger Filter(s, zs, k)} :: Measurements(zs, k.m) ==> Filter(s, zs, k).Some?
  }

  /** Where the measurements `zs` lead. */
  ghost predicate Reached(s: State, k: Model, zs: seq<Vec>, now: State) {
    k.Fits() && IsState(s, k.n) && Measurements(zs, k.m) && Filter(s, zs, k) == Some(now)
  }

  lemma ReachNext(s: State, k: Model, zs: seq<Vec>, now: State, z: Vec, more: seq<Vec>)
    requires NeverRefused(s, k) && Reached(s, k, zs, now) && |z| == k.m && more == zs + [z]
    ensures Step(now, z, k).Some? && Reached(s, k, more, Step(now, z, k).value)
  {
    OneMore(zs, z, k, s);
  }

  /** The benchmark loop: the model's matrices, and the state updated in place. */
  class Loop {
    const x: array<real>
    const p: array<real>
    const f: array<real>
    const q: array<real>
    const h: array<real>
    const r: array<real>
    var t: real
    ghost const k: Model
    ghost const start: State
    ghost var steps: nat
    ghost var now: State

    constructor ()
      ensures Valid() && fresh(this) && fresh(x) && fresh(p) && steps == 0 && k == BENCHMARK && start == INITIAL
    {
      x := new real[][0.0, 0.0, 0.0, 0.0];
      p := new real[][1.0, 0.0, 0.0, 0.0, 0.0, 1.0, 0.0, 0.0, 0.0, 0.0, 1.0, 0.0, 0.0, 0.0, 0.0, 1.0];
      f := new real[][1.0, 0.0, 1.0, 0.0, 0.0, 1.0, 0.0, 1.0, 0.0, 0.0, 1.0, 0.0, 0.0, 0.0, 0.0, 1.0];
      q := new real[][0.01, 0.0, 0.0, 0.0, 0.0, 0.01, 0.0, 0.0, 0.0, 0.0, 0.01, 0.0, 0.0, 0.0, 0.0, 0.01];
      h := new real[][1.0, 0.0, 0.0, 0.0, 0.0, 1.0, 0.0, 0.0];
      r := new real[][0.25, 0.0, 0.0, 0.25];
      k, start, now, t, steps := BENCHMARK, INITIAL, INITIAL, 0.0, 0;
      new;
      DiagonalHolds(p[..], ONE);
      TransitionHolds(f[..]);
      DiagonalHolds(q[..], CENT);
      HoldsSmall(h[..], r[..]);
      BenchmarkNeverRefused();
    }

    /** The buffers hold the model's matrices and what the filter makes of the measurements so far. */
    ghost predicate Valid() reads this, x, p, f, q, h, r {
      x.Length == 4 && p.Length == 16 && t == Time(steps) && x != p && x !in {f, q, h, r} && p !in {f, q, h, r}
      && NeverRefused(start, k) && Reached(start, k, Measured(steps), now) && k.n == 4 && k.m == 2
      && Holds(f[..], k.f, 4, 4) && Holds(q[..], k.q, 4, 4) && Holds(h[..], k.h, 2, 4) && Holds(r[..], k.r, 2, 2)
      && x[..] == now.x && Holds(p[..], now.p, 4, 4)
    }

    /** One iteration: predict, measure, update, copy back. The update's return code is not looked
        at; it is always 0. */
    method Step()
      requires Valid()
      modifies this, x, p
      ensures Valid() && steps == old(steps) + 1
      ensures Some(now) == Kalman.Step(old(now), [old(t), old(t) * 0.5], k)
    {
      ghost var next := Kalman.Step(now, [t, t * 0.5], k);
      ReachNext(start, k, Measured(steps), now, [t, t * 0.5], Measured(steps + 1));
      var x2, p2 := PredictUpdate(x, p, f, q, h, r, t, now, k);
      Advance(x2, p2, next.value);
    }

    /** Copies the new state back and moves the clock on. */
    method Advance(x2: array<real>, p2: array<real>, ghost next: State)
      requires Valid() && x2 !in {x, p} && p2 !in {x, p} && x2.Length == 4 && p2.Length == 16
      requires x2[..] == next.x && Holds(p2[..], next.p, 4, 4) && Reached(start, k, Measured(steps + 1), next)
      modifies this, x, p
      ensures Valid() && steps == old(steps) + 1 && now == next
    {
      CopyBuffer(x2, 4, x);
      CopyBuffer(p2, 16, p);
      now := next;
      t := t + 0.01;
      steps := steps + 1;
    }

    /** The covariance in the buffer, between any two iterations. */
    lemma CovarianceHolds()
      requires Valid() && k == BENCHMARK && start == INITIAL
      ensures exists m :: Holds(p[..], m, 4, 4) && Covariance(m, 4)
    {
      BenchmarkNeverFails(Measured(steps));
    }
  }

  lemma BenchmarkNeverRefused()
    ensures NeverRefused(INITIAL, BENCHMARK)
  {
    BenchmarkNeverFails([]);
    forall zs | Measurements(zs, 2) ensures Filter(INITIAL, zs, BENCHMARK).Some? { BenchmarkNeverFails(zs); }
  }

  lemma HoldsSmall(h: seq<real>, r: seq<real>)
    requires h == [1.0, 0.0, 0.0, 0.0, 0.0, 1.0, 0.0, 0.0] && r == [0.25, 0.0, 0.0, 0.25]
    ensures Holds(h, OBSERVATION, 2, 4) && Holds(r, Diagonal(2, QUARTER), 2, 2)
  {
    forall i: nat, k: nat | i < 2 && k < 4 ensures h[Cell(i, k, 2, 4)] == OBSERVATION[i][k] {}
    forall i: nat, k: nat | i < 2 && k < 2 ensures r[Cell(i, k, 2, 2)] == Diagonal(2, QUARTER)[i][k] {}
  }
}
