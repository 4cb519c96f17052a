/** Exact linear algebra over rows: a matrix is a sequence of rows, and a product is read as "each row
    of the left matrix combines the rows of the right one". */
module Linear {
  type Vec = seq<real>
  type Mat = seq<Vec>

  ghost predicate IsMat(m: Mat, r: nat, c: nat) { |m| == r && forall i :: 0 <= i < r ==> |m[i]| == c }

  // ---------------------------------------------------------------- vectors

  function Zero(n: nat): (v: Vec)
    ensures |v| == n && forall i :: 0 <= i < n ==> v[i] == 0.0
  {
    seq(n, _ => 0.0)
  }

  function Plus(u: Vec, v: Vec): (w: Vec)
    requires |u| == |v|
    ensures |w| == |u| && forall i {:trigger w[i]} :: 0 <= i < |u| ==> w[i] == u[i] + v[i]
  {
    seq(|u|, i requires 0 <= i < |u| && |u| == |v| => u[i] + v[i])
  }

  function Scale(s: real, v: Vec): (w: Vec)
    ensures |w| == |v| && forall i {:trigger w[i]} :: 0 <= i < |v| ==> w[i] == s * v[i]
  {
    seq(|v|, i requires 0 <= i < |v| => s * v[i])
  }

  function Minus(u: Vec, v: Vec): (w: Vec)
    requires |u| == |v|
    ensures |w| == |u| && forall i {:trigger w[i]} :: 0 <= i < |u| ==> w[i] == u[i] - v[i]
  {
    seq(|u|, i requires 0 <= i < |u| && |u| == |v| => u[i] - v[i])
  }

  function Unit(n: nat, i: nat): (v: Vec)
    ensures |v| == n && forall j :: 0 <= j < n ==> v[j] == if j == i then 1.0 else 0.0
  {
    seq(n, j => if j == i then 1.0 else 0.0)
  }

  /** Summed left to right, as a loop does. */
  function Dot(u: Vec, v: Vec): real
    requires |u| == |v|
  {
    if u == [] then 0.0 else var n := |u| - 1; Dot(u[..n], v[..n]) + u[n] * v[n]
  }

  lemma DotUnfold(u: Vec, v: Vec)
    requires |u| == |v| && u != []
    ensures var n := |u| - 1; Dot(u, v) == Dot(u[..n], v[..n]) + u[n] * v[n]
  {}

  lemma {:induction false} DotCommutes(u: Vec, v: Vec)
    requires |u| == |v|
    ensures Dot(u, v) == Dot(v, u)
  {
    if u != [] { DotCommutes(u[..|u| - 1], v[..|u| - 1]); }
  }

  lemma {:induction false} DotPlus(u: Vec, v: Vec, w: Vec)
    requires |u| == |v| == |w|
    ensures Dot(Plus(u, v), w) == Dot(u, w) + Dot(v, w)
  {
    if u != [] {
      var n := |u| - 1;
      DotPlus(u[..n], v[..n], w[..n]);
      assert Plus(u, v)[..n] == Plus(u[..n], v[..n]);
    }
  }

  lemma ScalePrefix(s: real, v: Vec, n: nat)
    requires n <= |v|
    ensures Scale(s, v)[..n] == Scale(s, v[..n])
  {
    forall i | 0 <= i < n ensures Scale(s, v)[..n][i] == Scale(s, v[..n])[i] { assert v[..n][i] == v[i]; }
  }

  lemma {:induction false} DotScale(s: real, u: Vec, v: Vec)
    requires |u| == |v|
    ensures Dot(Scale(s, u), v) == s * Dot(u, v)
  {
    if u != [] {
      var n := |u| - 1;
      DotScale(s, u[..n], v[..n]);
      ScalePrefix(s, u, n);
      assert s * u[n] * v[n] == s * (u[n] * v[n]);
    }
  }

  lemma {:induction false} DotZero(v: Vec)
    ensures Dot(Zero(|v|), v) == 0.0
  {
    if v != [] {
      DotZero(v[..|v| - 1]);
      assert Zero(|v|)[..|v| - 1] == Zero(|v| - 1);
    }
  }

  // ---------------------------------------------------------------- combining rows

  /** The rows of `b`, weighted by `v` and added up. */
  function Comb(v: Vec, b: Mat, c: nat): (w: Vec)
    requires IsMat(b, |v|, c)
    ensures |w| == c
  {
    if v == [] then Zero(c) else var n := |v| - 1; Plus(Comb(v[..n], b[..n], c), Scale(v[n], b[n]))
  }

  lemma SplitSum(x: real, y: real, a: real, b: real, r: real)
    ensures x + y + (a + b) * r == (x + a * r) + (y + b * r)
  {}

  lemma {:induction false} CombPlus(u: Vec, v: Vec, b: Mat, c: nat)
    requires |u| == |v| && IsMat(b, |u|, c)
    ensures Comb(Plus(u, v), b, c) == Plus(Comb(u, b, c), Comb(v, b, c))
  {
    if u == [] {
      assert Plus(u, v) == [];
      assert Plus(Zero(c), Zero(c)) == Zero(c);
    } else {
      var n := |u| - 1;
      CombPlus(u[..n], v[..n], b[..n], c);
      assert Plus(u, v)[..n] == Plus(u[..n], v[..n]);
      var x, y := Comb(u[..n], b[..n], c), Comb(v[..n], b[..n], c);
      assert Comb(Plus(u, v), b, c) == Plus(Plus(x, y), Scale(u[n] + v[n], b[n]));
      PlusScales(x, y, u[n], v[n], b[n]);
    }
  }

  lemma PlusScales(x: Vec, y: Vec, a: real, b: real, r: Vec)
    requires |x| == |y| == |r|
    ensures Plus(Plus(x, y), Scale(a + b, r)) == Plus(Plus(x, Scale(a, r)), Plus(y, Scale(b, r)))
  {
    forall j | 0 <= j < |r|
      ensures Plus(Plus(x, y), Scale(a + b, r))[j] == Plus(Plus(x, Scale(a, r)), Plus(y, Scale(b, r)))[j]
    {
      SplitSum(x[j], y[j], a, b, r[j]);
    }
  }

  lemma ScaleZero(s: real, c: nat)
    ensures Scale(s, Zero(c)) == Zero(c)
  {
    forall j | 0 <= j < c ensures Scale(s, Zero(c))[j] == 0.0 { assert s * 0.0 == 0.0; }
  }

  lemma FactorOut(s: real, x: real, t: real, y: real)
    ensures s * x + s * t * y == s * (x + t * y)
  {}

  lemma ScaleOut(s: real, x: Vec, t: real, st: real, y: Vec)
    requires |x| == |y| && st == s * t
    ensures Plus(Scale(s, x), Scale(st, y)) == Scale(s, Plus(x, Scale(t, y)))
  {
    forall j | 0 <= j < |x| ensures Plus(Scale(s, x), Scale(st, y))[j] == Scale(s, Plus(x, Scale(t, y)))[j] {
      FactorOut(s, x[j], t, y[j]);
    }
  }

  lemma CombLast(v: Vec, b: Mat, c: nat)
    requires v != [] && IsMat(b, |v|, c)
    ensures var n := |v| - 1; Comb(v, b, c) == Plus(Comb(v[..n], b[..n], c), Scale(v[n], b[n]))
  {}

  lemma {:induction false} CombScale(s: real, v: Vec, b: Mat, c: nat)
    requires IsMat(b, |v|, c)
    ensures Comb(Scale(s, v), b, c) == Scale(s, Comb(v, b, c))
  {
    CombScaled(s, v, Scale(s, v), b, c);
  }

  lemma {:induction false} CombScaled(s: real, v: Vec, sv: Vec, b: Mat, c: nat)
    requires IsMat(b, |v|, c) && sv == Scale(s, v)
    ensures Comb(sv, b, c) == Scale(s, Comb(v, b, c))
  {
    if v == [] {
      ScaleZero(s, c);
    } else {
      var n := |v| - 1;
      ScalePrefix(s, v, n);
      CombScaled(s, v[..n], sv[..n], b[..n], c);
      ScaleOut(s, Comb(v[..n], b[..n], c), v[n], sv[n], b[n]);
    }
  }

  lemma CombMinus(u: Vec, v: Vec, b: Mat, c: nat)
    requires |u| == |v| && IsMat(b, |u|, c)
    ensures Comb(Minus(u, v), b, c) == Minus(Comb(u, b, c), Comb(v, b, c))
  {
    assert Minus(u, v) == Plus(u, Scale(-1.0, v));
    CombPlus(u, Scale(-1.0, v), b, c);
    CombScale(-1.0, v, b, c);
  }

  /** The first `k` unit rows give back the first `k` entries. */
  lemma {:induction false} CombUnits(v: Vec, b: Mat, c: nat)
    requires |v| <= c && IsMat(b, |v|, c) && forall i :: 0 <= i < |v| ==> b[i] == Unit(c, i)
    ensures Comb(v, b, c) == v + Zero(c - |v|)
  {
    if v == [] {
      assert Zero(c) == [] + Zero(c);
    } else {
      var n := |v| - 1;
      CombUnits(v[..n], b[..n], c);
      var w := Comb(v, b, c);
      forall j | 0 <= j < c ensures w[j] == (v + Zero(c - |v|))[j] {
        if j == n { assert v[n] * b[n][j] == v[n]; } else { assert v[n] * b[n][j] == 0.0; }
      }
    }
  }

  lemma {:induction false} CombZero(b: Mat, c: nat)
    requires IsMat(b, |b|, c)
    ensures Comb(Zero(|b|), b, c) == Zero(c)
  {
    if b != [] {
      CombZero(b[..|b| - 1], c);
      assert Zero(|b|)[..|b| - 1] == Zero(|b| - 1);
    }
  }

  /** A unit vector picks a row. */
  lemma {:induction false} UnitComb(n: nat, i: nat, b: Mat, c: nat)
    requires i < n && IsMat(b, n, c)
    ensures Comb(Unit(n, i), b, c) == b[i]
  {
    var v := Unit(n, i);
    if i == n - 1 {
      assert v[..n - 1] == Zero(n - 1);
      CombZero(b[..n - 1], c);
    } else {
      assert v[..n - 1] == Unit(n - 1, i);
      UnitComb(n - 1, i, b[..n - 1], c);
    }
  }

  // ---------------------------------------------------------------- matrices

  function Identity(n: nat): (m: Mat)
    ensures IsMat(m, n, n) && forall i {:trigger m[i]} :: 0 <= i < n ==> m[i] == Unit(n, i)
  {
    seq(n, i requires 0 <= i => Unit(n, i))
  }

  function Mul(a: Mat, b: Mat, c: nat): (m: Mat)
    requires IsMat(a, |a|, |b|) && IsMat(b, |b|, c)
    ensures IsMat(m, |a|, c) && forall i {:trigger m[i]} :: 0 <= i < |a| ==> m[i] == Comb(a[i], b, c)
  {
    seq(|a|, i requires 0 <= i < |a| && IsMat(a, |a|, |b|) && IsMat(b, |b|, c) => Comb(a[i], b, c))
  }

  function Add(a: Mat, b: Mat): (m: Mat)
    requires |a| == |b| && forall i :: 0 <= i < |a| ==> |a[i]| == |b[i]|
    ensures |m| == |a| && forall i {:trigger m[i]} :: 0 <= i < |a| ==> m[i] == Plus(a[i], b[i])
  {
    seq(|a|, i requires 0 <= i < |a| && |a| == |b| && |a[i]| == |b[i]| => Plus(a[i], b[i]))
  }

  function Sub(a: Mat, b: Mat): (m: Mat)
    requires |a| == |b| && forall i :: 0 <= i < |a| ==> |a[i]| == |b[i]|
    ensures |m| == |a| && forall i {:trigger m[i]} :: 0 <= i < |a| ==> m[i] == Minus(a[i], b[i])
  {
    seq(|a|, i requires 0 <= i < |a| && |a| == |b| && |a[i]| == |b[i]| => Minus(a[i], b[i]))
  }

  function Col(b: Mat, j: nat): (v: Vec)
    requires forall i :: 0 <= i < |b| ==> j < |b[i]|
    ensures |v| == |b| && forall i {:trigger v[i]} :: 0 <= i < |b| ==> v[i] == b[i][j]
  {
    seq(|b|, i requires 0 <= i < |b| && j < |b[i]| => b[i][j])
  }

  function Transpose(a: Mat, c: nat): (m: Mat)
    requires IsMat(a, |a|, c)
    ensures IsMat(m, c, |a|) && forall j {:trigger m[j]} :: 0 <= j < c ==> m[j] == Col(a, j)
  {
    seq(c, j requires 0 <= j < c && IsMat(a, |a|, c) => Col(a, j))
  }

  ghost predicate Symmetric(a: Mat, n: nat) { IsMat(a, n, n) && Transpose(a, n) == a }

  lemma MatEqual(a: Mat, b: Mat, r: nat, c: nat)
    requires IsMat(a, r, c) && IsMat(b, r, c) && forall i, j :: 0 <= i < r && 0 <= j < c ==> a[i][j] == b[i][j]
    ensures a == b
  {
    forall i | 0 <= i < r ensures a[i] == b[i] {}
  }

  lemma {:induction false} CombAt(v: Vec, b: Mat, c: nat, j: nat)
    requires IsMat(b, |v|, c) && j < c
    ensures Comb(v, b, c)[j] == Dot(v, Col(b, j))
  {
    if v != [] {
      var n := |v| - 1;
      CombAt(v[..n], b[..n], c, j);
      assert Col(b, j)[..n] == Col(b[..n], j);
    }
  }

  lemma {:induction false} CombCombs(v: Vec, a: Mat, b: Mat, c: nat)
    requires IsMat(a, |v|, |b|) && IsMat(b, |b|, c)
    ensures Comb(Comb(v, a, |b|), b, c) == Comb(v, Mul(a, b, c), c)
  {
    if v == [] {
      CombZero(b, c);
    } else {
      var n := |v| - 1;
      CombCombs(v[..n], a[..n], b, c);
      assert Mul(a, b, c)[..n] == Mul(a[..n], b, c);
      CombPlus(Comb(v[..n], a[..n], |b|), Scale(v[n], a[n]), b, c);
      CombScale(v[n], a[n], b, c);
    }
  }

  lemma MulAssociates(a: Mat, b: Mat, d: Mat, c: nat)
    requires IsMat(a, |a|, |b|) && IsMat(b, |b|, |d|) && IsMat(d, |d|, c)
    ensures Mul(Mul(a, b, |d|), d, c) == Mul(a, Mul(b, d, c), c)
  {
    forall i | 0 <= i < |a| ensures Mul(Mul(a, b, |d|), d, c)[i] == Mul(a, Mul(b, d, c), c)[i] {
      CombCombs(a[i], b, d, c);
    }
  }

  lemma MulIdentity(a: Mat, c: nat)
    requires IsMat(a, |a|, c)
    ensures Mul(a, Identity(c), c) == a
  {
    forall i | 0 <= i < |a| ensures Mul(a, Identity(c), c)[i] == a[i] {
      CombUnits(a[i], Identity(c), c);
      assert a[i] + Zero(0) == a[i];
    }
  }

  lemma IdentityMul(a: Mat, c: nat)
    requires IsMat(a, |a|, c)
    ensures Mul(Identity(|a|), a, c) == a
  {
    forall i | 0 <= i < |a| ensures Mul(Identity(|a|), a, c)[i] == a[i] { UnitComb(|a|, i, a, c); }
  }

  lemma MulSub(a: Mat, b: Mat, d: Mat, c: nat)
    requires |a| == |b| && IsMat(a, |a|, |d|) && IsMat(b, |a|, |d|) && IsMat(d, |d|, c)
    ensures Mul(Sub(a, b), d, c) == Sub(Mul(a, d, c), Mul(b, d, c))
  {
    forall i | 0 <= i < |a| ensures Mul(Sub(a, b), d, c)[i] == Sub(Mul(a, d, c), Mul(b, d, c))[i] {
      CombMinus(a[i], b[i], d, c);
    }
  }

  lemma MulSubRight(x: Mat, a: Mat, b: Mat, c: nat)
    requires |a| == |b| && IsMat(x, |x|, |a|) && IsMat(a, |a|, c) && IsMat(b, |a|, c)
    ensures Mul(x, Sub(a, b), c) == Sub(Mul(x, a, c), Mul(x, b, c))
  {
    var l, r := Mul(x, Sub(a, b), c), Sub(Mul(x, a, c), Mul(x, b, c));
    forall i, j | 0 <= i < |x| && 0 <= j < c ensures l[i][j] == r[i][j] {
      CombAt(x[i], Sub(a, b), c, j);
      CombAt(x[i], a, c, j);
      CombAt(x[i], b, c, j);
      assert Col(Sub(a, b), j) == Minus(Col(a, j), Col(b, j));
      DotMinus(x[i], Col(a, j), Col(b, j), Col(Sub(a, b), j));
    }
    MatEqual(l, r, |x|, c);
  }

  lemma {:induction false} DotMinus(x: Vec, u: Vec, v: Vec, w: Vec)
    requires |x| == |u| == |v| && w == Minus(u, v)
    ensures Dot(x, w) == Dot(x, u) - Dot(x, v)
  {
    if x != [] {
      var n := |x| - 1;
      DotMinus(x[..n], u[..n], v[..n], w[..n]);
      TimesMinus(x[n], u[n], v[n]);
    }
  }

  lemma TimesMinus(x: real, u: real, v: real)
    ensures x * (u - v) == x * u - x * v
  {}

  lemma TransposeTwice(a: Mat, c: nat)
    requires IsMat(a, |a|, c)
    ensures Transpose(Transpose(a, c), |a|) == a
  {
    MatEqual(Transpose(Transpose(a, c), |a|), a, |a|, c);
  }

  lemma TransposeMul(a: Mat, b: Mat, c: nat)
    requires IsMat(a, |a|, |b|) && IsMat(b, |b|, c)
    ensures Transpose(Mul(a, b, c), c) == Mul(Transpose(b, c), Transpose(a, |b|), |a|)
  {
    var l, r := Transpose(Mul(a, b, c), c), Mul(Transpose(b, c), Transpose(a, |b|), |a|);
    forall i, j | 0 <= i < c && 0 <= j < |a| ensures l[i][j] == r[i][j] {
      CombAt(a[j], b, c, i);
      CombAt(Col(b, i), Transpose(a, |b|), |a|, j);
      assert Col(Transpose(a, |b|), j) == a[j];
      DotCommutes(a[j], Col(b, i));
    }
    MatEqual(l, r, c, |a|);
  }

  lemma TransposeAdd(a: Mat, b: Mat, c: nat)
    requires |a| == |b| && IsMat(a, |a|, c) && IsMat(b, |a|, c)
    ensures Transpose(Add(a, b), c) == Add(Transpose(a, c), Transpose(b, c))
  {
    MatEqual(Transpose(Add(a, b), c), Add(Transpose(a, c), Transpose(b, c)), c, |a|);
  }

  lemma TransposeSub(a: Mat, b: Mat, c: nat)
    requires |a| == |b| && IsMat(a, |a|, c) && IsMat(b, |a|, c)
    ensures Transpose(Sub(a, b), c) == Sub(Transpose(a, c), Transpose(b, c))
  {
    MatEqual(Transpose(Sub(a, b), c), Sub(Transpose(a, c), Transpose(b, c)), c, |a|);
  }

  lemma IdentitySymmetric(n: nat)
    ensures Symmetric(Identity(n), n)
  {
    MatEqual(Transpose(Identity(n), n), Identity(n), n, n);
  }

  /** A left inverse of a symmetric matrix is symmetric. */
  lemma LeftInverseSymmetric(inv: Mat, s: Mat, n: nat)
    requires Symmetric(s, n) && IsMat(inv, n, n) && Mul(inv, s, n) == Identity(n)
    ensures Symmetric(inv, n)
  {
    var t := Transpose(inv, n);
    TransposeMul(inv, s, n);
    IdentitySymmetric(n);
    assert Mul(s, t, n) == Identity(n);
    MulAssociates(inv, s, t, n);
    MulIdentity(inv, n);
    IdentityMul(t, n);
  }

  // ---------------------------------------------------------------- quadratic forms

  lemma TransposeAt(v: Vec, a: Mat, j: nat)
    requires j < |a| && IsMat(a, |a|, |v|)
    ensures Comb(v, Transpose(a, |v|), |a|)[j] == Dot(a[j], v)
  {
    CombAt(v, Transpose(a, |v|), |a|, j);
    assert Col(Transpose(a, |v|), j) == a[j];
    DotCommutes(v, a[j]);
  }

  lemma ScaledDot(t: real, u: Vec, v: Vec, x: real)
    requires |u| == |v| && x == Dot(u, v)
    ensures Dot(Scale(t, u), v) == t * x
  {
    DotScale(t, u, v);
    SameTimes(t, Dot(u, v), x);
  }

  lemma SameTimes(t: real, x: real, y: real)
    requires x == y
    ensures t * x == t * y
  {}

  /** `u A v`, row by row. */
  function Sandwich(u: Vec, a: Mat, v: Vec): real
    requires IsMat(a, |u|, |v|)
  {
    if u == [] then 0.0 else var n := |u| - 1; Sandwich(u[..n], a[..n], v) + Dot(Scale(u[n], a[n]), v)
  }

  lemma {:induction false} SandwichRows(u: Vec, a: Mat, v: Vec)
    requires IsMat(a, |u|, |v|)
    ensures Sandwich(u, a, v) == Dot(Comb(u, a, |v|), v)
  {
    if u == [] {
      DotZero(v);
    } else {
      var n := |u| - 1;
      SandwichRows(u[..n], a[..n], v);
      CombLast(u, a, |v|);
      DotPlus(Comb(u[..n], a[..n], |v|), Scale(u[n], a[n]), v);
    }
  }

  lemma {:induction false} SandwichDots(u: Vec, a: Mat, v: Vec, w: Vec)
    requires IsMat(a, |u|, |v|) && |w| == |u| && forall j :: 0 <= j < |u| ==> w[j] == Dot(a[j], v)
    ensures Sandwich(u, a, v) == Dot(u, w)
  {
    if u != [] {
      var n := |u| - 1;
      SandwichDots(u[..n], a[..n], v, w[..n]);
      ScaledDot(u[n], a[n], v, w[n]);
    }
  }

  /** Moving a matrix across a dot product. */
  lemma Adjoint(u: Vec, v: Vec, a: Mat)
    requires IsMat(a, |u|, |v|)
    ensures Dot(Comb(u, a, |v|), v) == Dot(u, Comb(v, Transpose(a, |v|), |u|))
  {
    SandwichRows(u, a, v);
    forall j | 0 <= j < |u| ensures Comb(v, Transpose(a, |v|), |u|)[j] == Dot(a[j], v) { TransposeAt(v, a, j); }
    SandwichDots(u, a, v, Comb(v, Transpose(a, |v|), |u|));
  }

  function Quad(p: Mat, v: Vec): real
    requires IsMat(p, |v|, |v|)
  {
    Dot(Comb(v, p, |v|), v)
  }

  ghost predicate PositiveSemidefinite(p: Mat, n: nat) {
    IsMat(p, n, n) && forall v: Vec {:trigger Quad(p, v)} :: |v| == n ==> Quad(p, v) >= 0.0
  }

  lemma QuadAdd(a: Mat, b: Mat, v: Vec)
    requires IsMat(a, |v|, |v|) && IsMat(b, |v|, |v|)
    ensures Quad(Add(a, b), v) == Quad(a, v) + Quad(b, v)
  {
    var n := |v|;
    forall j | 0 <= j < n ensures Comb(v, Add(a, b), n)[j] == Comb(v, a, n)[j] + Comb(v, b, n)[j] {
      CombAt(v, Add(a, b), n, j);
      CombAt(v, a, n, j);
      CombAt(v, b, n, j);
      assert Col(Add(a, b), j) == Plus(Col(a, j), Col(b, j));
      DotPlus(Col(a, j), Col(b, j), v);
      DotCommutes(v, Col(a, j));
      DotCommutes(v, Col(b, j));
      DotCommutes(v, Plus(Col(a, j), Col(b, j)));
    }
    assert Comb(v, Add(a, b), n) == Plus(Comb(v, a, n), Comb(v, b, n));
    DotPlus(Comb(v, a, n), Comb(v, b, n), v);
  }

  /** The quadratic form of `A P A^T` at `v` is that of `P` at `v A`. */
  lemma QuadSandwich(a: Mat, p: Mat, v: Vec)
    requires IsMat(a, |v|, |p|) && IsMat(p, |p|, |p|)
    ensures Quad(Mul(Mul(a, p, |p|), Transpose(a, |p|), |v|), v) == Quad(p, Comb(v, a, |p|))
  {
    var n, w := |p|, Comb(v, a, |p|);
    CombCombs(v, Mul(a, p, n), Transpose(a, n), |v|);
    CombCombs(v, a, p, n);
    var u := Comb(w, p, n);
    assert Comb(v, Mul(Mul(a, p, n), Transpose(a, n), |v|), |v|) == Comb(u, Transpose(a, n), |v|);
    Adjoint(u, v, Transpose(a, n));
    TransposeTwice(a, n);
  }
}
