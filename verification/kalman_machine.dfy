/** The filter as written: row-major matrices in flat buffers, updated in place by nested loops. Each
    procedure is proved to leave in its output buffer what the matrix it stands for says. */
module KalmanMachine {
  import opened Prelude
  import opened Linear
  import opened Gauss
  import opened Kalman
  import opened KalmanBenchmark

  // ---------------------------------------------------------------- flat buffers

  /** Where entry (i, k) of a matrix with `c` columns is kept. */
  function Cell(i: nat, k: nat, r: nat, c: nat): (p: nat)
    requires i < r && k < c
    ensures p == i * c + k && p < r * c
  {
    CellBound(i, k, r, c);
    i * c + k
  }

  lemma {:induction false} TimesMonotone(p: nat, q: nat, c: nat)
    requires p <= q
    ensures p * c <= q * c
    decreases q
  {
    if p < q { TimesMonotone(p, q - 1, c); assert q * c == (q - 1) * c + c; }
  }

  lemma RowStart(i: nat, c: nat)
    ensures (i + 1) * c == i * c + c
  {}

  lemma CellBound(i: nat, k: nat, r: nat, c: nat)
    requires i < r && k < c
    ensures i * c + k < r * c
  {
    TimesMonotone(i + 1, r, c);
    RowStart(i, c);
  }

  lemma CellsDiffer(i: nat, k: nat, j: nat, l: nat, r: nat, c: nat)
    requires i < r && k < c && j < r && l < c && (i != j || k != l)
    ensures Cell(i, k, r, c) != Cell(j, l, r, c)
  {
    RowStart(i, c);
    RowStart(j, c);
    if i < j { TimesMonotone(i + 1, j, c); } else if j < i { TimesMonotone(j + 1, i, c); }
  }

  /** The buffer `s` starts with the entries of `m`, row by row. */
  ghost predicate Holds(s: seq<real>, m: Mat, r: nat, c: nat) {
    IsMat(m, r, c) && |s| >= r * c
    && forall i: nat, k: nat {:trigger m[i][k]} :: i < r && k < c ==> s[Cell(i, k, r, c)] == m[i][k]
  }

  /** The matrix a buffer starts with, whatever it contains. */
  ghost function View(s: seq<real>, r: nat, c: nat): (m: Mat)
    requires |s| >= r * c
    ensures Holds(s, m, r, c)
  {
    seq(r, i requires 0 <= i < r && |s| >= r * c =>
      seq(c, k requires 0 <= k < c && 0 <= i < r && |s| >= r * c => s[Cell(i, k, r, c)]))
  }

  function Put(m: Mat, i: nat, k: nat, v: real): Mat
    requires i < |m| && k < |m[i]|
  {
    m[i := m[i][k := v]]
  }

  lemma HoldsPut(s: seq<real>, m: Mat, r: nat, c: nat, i: nat, k: nat, v: real)
    requires Holds(s, m, r, c) && i < r && k < c
    ensures Holds(s[Cell(i, k, r, c) := v], Put(m, i, k, v), r, c)
  {
    var t, m2 := s[Cell(i, k, r, c) := v], Put(m, i, k, v);
    forall j: nat, l: nat | j < r && l < c ensures t[Cell(j, l, r, c)] == m2[j][l] {
      if j != i || l != k { CellsDiffer(i, k, j, l, r, c); assert m[j][l] == s[Cell(j, l, r, c)]; }
    }
  }

  /** Stores `v` at entry (i, k). */
  method Store(a: array<real>, ghost m: Mat, r: nat, c: nat, i: nat, k: nat, v: real)
    requires Holds(a[..], m, r, c) && i < r && k < c
    modifies a
    ensures Holds(a[..], Put(m, i, k, v), r, c)
  {
    ghost var s := a[..];
    var p := Cell(i, k, r, c);
    a[p] := v;
    HoldsPut(s, m, r, c, i, k, v);
    assert a[..] == s[p := v];
  }

  function Load(s: seq<real>, i: nat, k: nat, r: nat, c: nat): real
    requires i < r && k < c && |s| >= r * c
  {
    s[Cell(i, k, r, c)]
  }

  // ---------------------------------------------------------------- products

  method MatMul(a: array<real>, ghost A: Mat, ar: nat, ac: nat, b: array<real>, ghost B: Mat, bc: nat, out: array<real>)
    requires Holds(a[..], A, ar, ac) && Holds(b[..], B, ac, bc) && out.Length >= ar * bc && out != a && out != b
    modifies out
    ensures Holds(out[..], Mul(A, B, bc), ar, bc)
  {
    ghost var O := View(out[..], ar, bc);
    for i := 0 to ar
      invariant Holds(out[..], O, ar, bc)
      invariant forall r {:trigger O[r]} :: 0 <= r < i ==> O[r] == Comb(A[r], B, bc)
    {
      O := MulRow(a, A, ar, ac, b, B, bc, out, O, i);
    }
    assert O == Mul(A, B, bc);
  }

  /** One row of a product. */
  method MulRow(a: array<real>, ghost A: Mat, ar: nat, ac: nat, b: array<real>, ghost B: Mat, bc: nat,
                out: array<real>, ghost O: Mat, i: nat) returns (ghost O2: Mat)
    requires Holds(a[..], A, ar, ac) && Holds(b[..], B, ac, bc) && out != a && out != b
    requires Holds(out[..], O, ar, bc) && i < ar
    modifies out
    ensures Holds(out[..], O2, ar, bc) && O2 == O[i := Comb(A[i], B, bc)]
  {
    O2 := O;
    for j := 0 to bc
      invariant Holds(out[..], O2, ar, bc) && O2 == O[i := O2[i]]
      invariant forall l {:trigger O2[i][l]} :: 0 <= l < j ==> O2[i][l] == Comb(A[i], B, bc)[l]
    {
      var sum := RowTimesColumn(a, A, ar, ac, b, B, bc, i, j);
      CombAt(A[i], B, bc, j);
      Store(out, O2, ar, bc, i, j, sum);
      O2 := Put(O2, i, j, sum);
    }
    assert O2[i] == Comb(A[i], B, bc);
  }

  method RowTimesColumn(a: array<real>, ghost A: Mat, ar: nat, ac: nat, b: array<real>, ghost B: Mat, bc: nat, i: nat, j: nat)
    returns (sum: real)
    requires Holds(a[..], A, ar, ac) && Holds(b[..], B, ac, bc) && i < ar && j < bc
    ensures sum == Dot(A[i], Col(B, j))
  {
    ghost var u, v := A[i], Col(B, j);
    sum := 0.0;
    for k := 0 to ac
      invariant sum == Dot(u[..k], v[..k])
    {
      assert u[..k + 1][..k] == u[..k] && v[..k + 1][..k] == v[..k];
      assert a[..][Cell(i, k, ar, ac)] == A[i][k] && b[..][Cell(k, j, ac, bc)] == B[k][j];
      DotUnfold(u[..k + 1], v[..k + 1]);
      sum := sum + a[Cell(i, k, ar, ac)] * b[Cell(k, j, ac, bc)];
    }
    assert u[..ac] == u && v[..ac] == v;
  }

  method MatVecMul(a: array<real>, ghost A: Mat, ar: nat, ac: nat, x: array<real>, ghost X: Vec, out: array<real>)
    requires Holds(a[..], A, ar, ac) && x.Length >= ac == |X| && x[..ac] == X && out.Length >= ar && out != a && out != x
    modifies out
    ensures out[..ar] == MatVec(A, X)
  {
    for i := 0 to ar
      invariant forall l {:trigger out[l]} :: 0 <= l < i ==> out[l] == Dot(A[l], X)
    {
      var sum := RowTimesVector(a, A, ar, ac, x, X, i);
      out[i] := sum;
    }
  }

  method RowTimesVector(a: array<real>, ghost A: Mat, ar: nat, ac: nat, x: array<real>, ghost X: Vec, i: nat) returns (sum: real)
    requires Holds(a[..], A, ar, ac) && x.Length >= ac == |X| && x[..ac] == X && i < ar
    ensures sum == Dot(A[i], X)
  {
    ghost var u := A[i];
    sum := 0.0;
    for k := 0 to ac
      invariant sum == Dot(u[..k], X[..k])
    {
      assert u[..k + 1][..k] == u[..k] && X[..k + 1][..k] == X[..k];
      assert a[..][Cell(i, k, ar, ac)] == A[i][k] && x[k] == X[k];
      DotUnfold(u[..k + 1], X[..k + 1]);
      sum := sum + a[Cell(i, k, ar, ac)] * x[k];
    }
    assert u[..ac] == u && X[..ac] == X;
  }

  method MatTranspose(a: array<real>, ghost A: Mat, r: nat, c: nat, out: array<real>)
    requires Holds(a[..], A, r, c) && out.Length >= c * r && out != a
    modifies out
    ensures Holds(out[..], Transpose(A, c), c, r)
  {
    ghost var O := View(out[..], c, r);
    for i := 0 to r
      invariant Holds(out[..], O, c, r)
      invariant forall j, l {:trigger O[j][l]} :: 0 <= j < c && 0 <= l < i ==> O[j][l] == A[l][j]
    {
      for j := 0 to c
        invariant Holds(out[..], O, c, r)
        invariant forall k, l {:trigger O[k][l]} :: 0 <= k < c && 0 <= l < i ==> O[k][l] == A[l][k]
        invariant forall k {:trigger O[k][i]} :: 0 <= k < j ==> O[k][i] == A[i][k]
      {
        assert a[..][Cell(i, j, r, c)] == A[i][j];
        Store(out, O, c, r, j, i, a[Cell(i, j, r, c)]);
        O := Put(O, j, i, A[i][j]);
      }
    }
    MatEqual(O, Transpose(A, c), c, r);
  }

  method VecAdd(a: array<real>, b: array<real>, n: nat, out: array<real>)
    requires a.Length >= n && b.Length >= n && out.Length >= n && out != a && out != b
    modifies out
    ensures out[..n] == Plus(a[..n], b[..n])
  {
    for i := 0 to n
      invariant forall j {:trigger out[j]} :: 0 <= j < i ==> out[j] == a[j] + b[j]
    {
      out[i] := a[i] + b[i];
    }
  }

  method VecSub(a: array<real>, b: array<real>, n: nat, out: array<real>)
    requires a.Length >= n && b.Length >= n && out.Length >= n && out != a && out != b
    modifies out
    ensures out[..n] == Minus(a[..n], b[..n])
  {
    for i := 0 to n
      invariant forall j {:trigger out[j]} :: 0 <= j < i ==> out[j] == a[j] - b[j]
    {
      out[i] := a[i] - b[i];
    }
  }

  /** Adding the buffers adds the matrices. */
  lemma HoldsAdd(s: seq<real>, t: seq<real>, u: seq<real>, a: Mat, b: Mat, r: nat, c: nat)
    requires Holds(s, a, r, c) && Holds(t, b, r, c) && |u| >= r * c && u[..r * c] == Plus(s[..r * c], t[..r * c])
    ensures Holds(u, Add(a, b), r, c)
  {
    forall i: nat, k: nat | i < r && k < c ensures u[Cell(i, k, r, c)] == Add(a, b)[i][k] {
      var p := Cell(i, k, r, c);
      assert u[p] == u[..r * c][p] == s[p] + t[p];
      assert a[i][k] == s[p] && b[i][k] == t[p];
    }
  }

  lemma HoldsPrefix(s: seq<real>, t: seq<real>, m: Mat, r: nat, c: nat)
    requires Holds(s, m, r, c) && |t| >= r * c && t[..r * c] == s[..r * c]
    ensures Holds(t, m, r, c)
  {
    forall i: nat, k: nat | i < r && k < c ensures t[Cell(i, k, r, c)] == m[i][k] {
      var p := Cell(i, k, r, c);
      assert t[p] == t[..r * c][p] == s[..r * c][p] == s[p];
    }
  }

  // ---------------------------------------------------------------- the inverse

  /** Exchanges two rows, entry by entry. */
  method SwapRows(a: array<real>, ghost m: Mat, n: nat, i: nat, j: nat)
    requires Holds(a[..], m, n, n) && i < n && j < n && i != j
    modifies a
    ensures Holds(a[..], Apply(Swap(i, j), m, n), n, n)
  {
    ghost var t := m;
    for k := 0 to n
      invariant Holds(a[..], t, n, n)
      invariant forall r {:trigger t[r]} :: 0 <= r < n && r != i && r != j ==> t[r] == m[r]
      invariant forall l {:trigger t[i][l]} {:trigger t[j][l]} :: 0 <= l < n ==>
                  if l < k then t[i][l] == m[j][l] && t[j][l] == m[i][l] else t[i][l] == m[i][l] && t[j][l] == m[j][l]
    {
      var p, q := Cell(i, k, n, n), Cell(j, k, n, n);
      assert a[..][p] == t[i][k] && a[..][q] == t[j][k];
      var tmp := a[p];
      var other := a[q];
      Store(a, t, n, n, i, k, other);
      t := Put(t, i, k, other);
      Store(a, t, n, n, j, k, tmp);
      t := Put(t, j, k, tmp);
    }
    MatEqual(t, Apply(Swap(i, j), m, n), n, n);
  }

  method DivideRow(a: array<real>, ghost m: Mat, n: nat, i: nat, pivot: real)
    requires Holds(a[..], m, n, n) && i < n && pivot != 0.0
    modifies a
    ensures Holds(a[..], Apply(Divide(i, pivot), m, n), n, n)
  {
    ghost var t := m;
    for k := 0 to n
      invariant Holds(a[..], t, n, n)
      invariant forall r {:trigger t[r]} :: 0 <= r < n && r != i ==> t[r] == m[r]
      invariant forall l {:trigger t[i][l]} :: 0 <= l < n ==> t[i][l] == if l < k then 1.0 / pivot * m[i][l] else m[i][l]
    {
      assert a[..][Cell(i, k, n, n)] == t[i][k];
      var v := a[Cell(i, k, n, n)] / pivot;
      Quotients(m[i][k], pivot);
      Store(a, t, n, n, i, k, v);
      t := Put(t, i, k, v);
    }
    MatEqual(t, Apply(Divide(i, pivot), m, n), n, n);
  }

  lemma Quotients(x: real, p: real)
    requires p != 0.0
    ensures x / p == 1.0 / p * x
  {
    var q, w := x / p, 1.0 / p;
    assert q * p == x && w * p == 1.0;
    assert w * x == w * (q * p) == q * (w * p);
  }

  method SubtractRow(a: array<real>, ghost m: Mat, n: nat, row: nat, col: nat, factor: real)
    requires Holds(a[..], m, n, n) && row < n && col < n && row != col
    modifies a
    ensures Holds(a[..], Apply(Subtract(row, col, factor), m, n), n, n)
  {
    ghost var t := m;
    for k := 0 to n
      invariant Holds(a[..], t, n, n)
      invariant forall r {:trigger t[r]} :: 0 <= r < n && r != row ==> t[r] == m[r]
      invariant forall l {:trigger t[row][l]} :: 0 <= l < n ==>
                  t[row][l] == if l < k then m[row][l] - factor * m[col][l] else m[row][l]
    {
      assert a[..][Cell(row, k, n, n)] == t[row][k] && a[..][Cell(col, k, n, n)] == t[col][k];
      var v := a[Cell(row, k, n, n)] - factor * a[Cell(col, k, n, n)];
      Store(a, t, n, n, row, k, v);
      t := Put(t, row, k, v);
    }
    MatEqual(t, Apply(Subtract(row, col, factor), m, n), n, n);
  }

  /** The first row from `col` on with the largest entry in that column, and that entry's size. */
  method FindPivot(a: array<real>, ghost m: Mat, n: nat, col: nat) returns (pivotRow: nat, maxVal: real)
    requires Holds(a[..], m, n, n) && col < n
    ensures pivotRow == Best(m, n, col, n) && maxVal == Abs(m[pivotRow][col])
  {
    assert a[..][Cell(col, col, n, n)] == m[col][col];
    pivotRow, maxVal := col, Abs(a[Cell(col, col, n, n)]);
    for row := col + 1 to n
      invariant pivotRow == Best(m, n, col, row) && maxVal == Abs(m[pivotRow][col])
    {
      assert a[..][Cell(row, col, n, n)] == m[row][col];
      var v := Abs(a[Cell(row, col, n, n)]);
      if v > maxVal { maxVal, pivotRow := v, row; }
    }
  }

  method ClearColumn(a: array<real>, inv: array<real>, ghost s: Pair, n: nat, col: nat)
    requires a != inv && Holds(a[..], s.a, n, n) && Holds(inv[..], s.inv, n, n) && col < n
    modifies a, inv
    ensures Holds(a[..], Clear(s, n, col, n).a, n, n) && Holds(inv[..], Clear(s, n, col, n).inv, n, n)
  {
    ghost var t := s;
    for row := 0 to n
      invariant Square(t, n) && t == Clear(s, n, col, row)
      invariant Holds(a[..], t.a, n, n) && Holds(inv[..], t.inv, n, n)
    {
      if row != col {
        assert a[..][Cell(row, col, n, n)] == t.a[row][col];
        var factor := a[Cell(row, col, n, n)];
        if factor != 0.0 {
          SubtractRow(a, t.a, n, row, col, factor);
          SubtractRow(inv, t.inv, n, row, col, factor);
          t := Both(Subtract(row, col, factor), t, n);
        }
      }
    }
  }

  /** One column; false when no pivot is large enough. */
  method DoColumn(a: array<real>, inv: array<real>, ghost s: Pair, n: nat, col: nat) returns (ok: bool)
    requires a != inv && Holds(a[..], s.a, n, n) && Holds(inv[..], s.inv, n, n) && col < n
    modifies a, inv
    ensures ok == Column(s, n, col).Some?
    ensures ok ==> Holds(a[..], Column(s, n, col).value.a, n, n) && Holds(inv[..], Column(s, n, col).value.inv, n, n)
  {
    var pivotRow, maxVal := FindPivot(a, s.a, n, col);
    if maxVal < SINGULAR_EPSILON { return false; }
    ghost var t := s;
    if pivotRow != col {
      SwapRows(a, s.a, n, col, pivotRow);
      SwapRows(inv, s.inv, n, col, pivotRow);
      t := Both(Swap(col, pivotRow), s, n);
    }
    assert a[..][Cell(col, col, n, n)] == t.a[col][col];
    var pivot := a[Cell(col, col, n, n)];
    DivideRow(a, t.a, n, col, pivot);
    DivideRow(inv, t.inv, n, col, pivot);
    ClearColumn(a, inv, Both(Divide(col, pivot), t, n), n, col);
    ok := true;
  }

  method SetIdentity(inv: array<real>, n: nat)
    requires inv.Length >= n * n
    modifies inv
    ensures Holds(inv[..], Identity(n), n, n)
  {
    var size := n * n;
    for i := 0 to size
      invariant forall p {:trigger inv[p]} :: 0 <= p < i ==> inv[p] == 0.0
    {
      inv[i] := 0.0;
    }
    ghost var m := View(inv[..], n, n);
    ZeroRows(inv[..], m, n);
    for i := 0 to n
      invariant Holds(inv[..], m, n, n)
      invariant forall r, k {:trigger m[r][k]} :: 0 <= r < n && 0 <= k < n ==> m[r][k] == if r == k && r < i then 1.0 else 0.0
    {
      Store(inv, m, n, n, i, i, 1.0);
      m := Put(m, i, i, 1.0);
    }
    MatEqual(m, Identity(n), n, n);
  }

  lemma ZeroRows(s: seq<real>, m: Mat, n: nat)
    requires Holds(s, m, n, n) && forall p :: 0 <= p < n * n ==> s[p] == 0.0
    ensures forall r, k :: 0 <= r < n && 0 <= k < n ==> m[r][k] == 0.0
  {
    forall r: nat, k: nat | r < n && k < n ensures m[r][k] == 0.0 { assert m[r][k] == s[Cell(r, k, n, n)]; }
  }

  /** The working copy has 16 entries, so at most 4 rows. */
  lemma FitsBuffer(n: nat)
    requires n <= 4
    ensures n * n <= 16
  {
    TimesMonotone(n, 4, n);
  }

  /** 0 and the inverse in `inv`, or -1 when a column has no pivot above the threshold. */
  method MatInv(elems: array<real>, ghost e: Mat, n: nat, inv: array<real>) returns (code: int)
    requires n <= 4 && Holds(elems[..], e, n, n) && inv.Length >= n * n && inv != elems
    modifies inv
    ensures code == if Inverse(e, n).Some? then 0 else -1
    ensures code == 0 ==> Holds(inv[..], Inverse(e, n).value, n, n) && Inverses(Inverse(e, n).value, e, n)
  {
    FitsBuffer(n);
    var a := new real[16];
    var size := n * n;
    for i := 0 to size
      invariant elems[..] == old(elems[..]) && a[..i] == elems[..i]
    {
      a[i] := elems[i];
    }
    HoldsPrefix(elems[..], a[..], e, n, n);
    SetIdentity(inv, n);
    InverseIsRight(e, n);
    ghost var s := Pair(e, Identity(n));
    for col := 0 to n
      invariant Square(s, n) && Holds(a[..], s.a, n, n) && Holds(inv[..], s.inv, n, n)
      invariant Reduce(Pair(e, Identity(n)), n, 0) == Reduce(s, n, col)
    {
      var ok := DoColumn(a, inv, s, n, col);
      if !ok { return -1; }
      s := Column(s, n, col).value;
    }
    code := 0;
  }
}
