/** Gauss-Jordan inversion with partial pivoting, as row operations on a pair of matrices, and what the
    answer means. */
module Gauss {
  import opened Prelude
  import opened Linear

  const SINGULAR_EPSILON := 0.000000000001

  function Abs(x: real): real { if x < 0.0 then -x else x }

  /** The first of the rows from `col` to `upto` with the largest entry in column `col`. */
  function Best(a: Mat, n: nat, col: nat, upto: nat): (p: nat)
    requires IsMat(a, n, n) && col < upto <= n
    ensures col <= p < upto
    ensures forall r :: col <= r < upto ==> Abs(a[r][col]) <= Abs(a[p][col])
    ensures forall r :: col <= r < p ==> Abs(a[r][col]) < Abs(a[p][col])
  {
    if upto == col + 1 then col
    else
      var p := Best(a, n, col, upto - 1);
      if Abs(a[upto - 1][col]) > Abs(a[p][col]) then upto - 1 else p
  }

  /** The matrix being reduced and the one the same operations build the inverse in. */
  datatype Pair = Pair(a: Mat, inv: Mat)

  ghost predicate Square(s: Pair, n: nat) { IsMat(s.a, n, n) && IsMat(s.inv, n, n) }

  datatype RowOp = Swap(i: nat, j: nat) | Divide(i: nat, pivot: real) | Subtract(i: nat, from: nat, times: real) {
    ghost predicate Fits(n: nat) {
      match this
      case Swap(i, j) => i < n && j < n
      case Divide(i, p) => i < n && p != 0.0
      case Subtract(i, k, _) => i < n && k < n && i != k
    }
  }

  function Apply(op: RowOp, m: Mat, n: nat): (r: Mat)
    requires IsMat(m, n, n) && op.Fits(n)
    ensures IsMat(r, n, n)
  {
    match op
    case Swap(i, j) => m[i := m[j]][j := m[i]]
    case Divide(i, p) => m[i := Scale(1.0 / p, m[i])]
    case Subtract(i, k, f) => m[i := Minus(m[i], Scale(f, m[k]))]
  }

  function Both(op: RowOp, s: Pair, n: nat): (r: Pair)
    requires Square(s, n) && op.Fits(n)
    ensures Square(r, n)
  {
    Pair(Apply(op, s.a, n), Apply(op, s.inv, n))
  }

  /** Clears column `col` in the rows below `upto` but `col` itself. */
  function Clear(s: Pair, n: nat, col: nat, upto: nat): (r: Pair)
    requires Square(s, n) && col < n && upto <= n
    ensures Square(r, n)
  {
    if upto == 0 then s
    else
      var row := upto - 1;
      var t := Clear(s, n, col, row);
      if row == col || t.a[row][col] == 0.0 then t else Both(Subtract(row, col, t.a[row][col]), t, n)
  }

  /** One column: bring the pivot up, make it 1, clear the rest; nothing if it is too small. */
  function Column(s: Pair, n: nat, col: nat): (r: Option<Pair>)
    requires Square(s, n) && col < n
    ensures r.Some? ==> Square(r.value, n)
  {
    var p := Best(s.a, n, col, n);
    if Abs(s.a[p][col]) < SINGULAR_EPSILON then None
    else
      var t := if p == col then s else Both(Swap(col, p), s, n);
      Some(Clear(Both(Divide(col, t.a[col][col]), t, n), n, col, n))
  }

  function Reduce(s: Pair, n: nat, col: nat): (r: Option<Pair>)
    requires Square(s, n) && col <= n
    ensures r.Some? ==> Square(r.value, n)
    decreases n - col
  {
    if col == n then Some(s)
    else match Column(s, n, col) case None => None case Some(t) => Reduce(t, n, col + 1)
  }

  function Inverse(e: Mat, n: nat): (r: Option<Mat>)
    requires IsMat(e, n, n)
    ensures r.Some? ==> IsMat(r.value, n, n)
  {
    match Reduce(Pair(e, Identity(n)), n, 0) case None => None case Some(t) => Some(t.inv)
  }

  // ---------------------------------------------------------------- row operations are invertible

  ghost predicate Inverses(x: Mat, y: Mat, n: nat) {
    IsMat(x, n, n) && IsMat(y, n, n) && Mul(x, y, n) == Identity(n) && Mul(y, x, n) == Identity(n)
  }

  /** A row operation is multiplication by what it makes of the identity. */
  lemma ApplyIsMul(op: RowOp, m: Mat, n: nat)
    requires IsMat(m, n, n) && op.Fits(n)
    ensures Apply(op, m, n) == Mul(Apply(op, Identity(n), n), m, n)
  {
    var e := Apply(op, Identity(n), n);
    forall k | 0 <= k < n ensures Apply(op, m, n)[k] == Comb(e[k], m, n) {
      UnitComb(n, k, m, n);
      match op
      case Swap(i, j) => UnitComb(n, i, m, n); UnitComb(n, j, m, n);
      case Divide(i, p) => CombScale(1.0 / p, Unit(n, i), m, n); UnitComb(n, i, m, n);
      case Subtract(i, r, f) => SubtractRow(i, r, f, m, n);
    }
  }

  lemma SubtractRow(i: nat, r: nat, f: real, m: Mat, n: nat)
    requires IsMat(m, n, n) && i < n && r < n
    ensures Comb(Minus(Unit(n, i), Scale(f, Unit(n, r))), m, n) == Minus(m[i], Scale(f, m[r]))
  {
    CombMinus(Unit(n, i), Scale(f, Unit(n, r)), m, n);
    CombScale(f, Unit(n, r), m, n);
    UnitComb(n, i, m, n);
    UnitComb(n, r, m, n);
  }

  function Undo(op: RowOp): RowOp {
    match op
    case Swap(i, j) => Swap(i, j)
    case Divide(i, p) => Divide(i, if p == 0.0 then 1.0 else 1.0 / p)
    case Subtract(i, k, f) => Subtract(i, k, -f)
  }

  lemma UndoFits(op: RowOp, n: nat)
    requires op.Fits(n)
    ensures Undo(op).Fits(n) && Undo(Undo(op)) == op
  {
    if op.Divide? { ReciprocalTwice(op.pivot); }
  }

  lemma ReciprocalTwice(x: real)
    requires x != 0.0
    ensures 1.0 / x != 0.0 && 1.0 / (1.0 / x) == x
  {
    var y := 1.0 / x;
    assert y * x == 1.0;
    assert y == 0.0 ==> y * x == 0.0;
    assert (1.0 / y) * y == 1.0;
  }

  lemma UndoApply(op: RowOp, m: Mat, n: nat)
    requires IsMat(m, n, n) && op.Fits(n)
    ensures Undo(op).Fits(n) && Apply(Undo(op), Apply(op, m, n), n) == m
  {
    UndoFits(op, n);
    var l := Apply(Undo(op), Apply(op, m, n), n);
    match op
    case Swap(_, _) => assert l == m;
    case Divide(i, p) =>
      ReciprocalTwice(p);
      forall j | 0 <= j < n ensures l[i][j] == m[i][j] { DivideBack(p, m[i][j]); }
      MatEqual(l, m, n, n);
    case Subtract(i, k, f) =>
      forall j | 0 <= j < n ensures l[i][j] == m[i][j] { SubtractBack(m[i][j], f, m[k][j]); }
      MatEqual(l, m, n, n);
  }

  lemma DivideBack(p: real, x: real)
    requires p != 0.0 && 1.0 / p != 0.0 && 1.0 / (1.0 / p) == p
    ensures 1.0 / (1.0 / p) * (1.0 / p * x) == x
  {
    assert p * (1.0 / p) == 1.0;
    assert p * (1.0 / p * x) == (p * (1.0 / p)) * x;
  }

  lemma SubtractBack(x: real, f: real, y: real)
    ensures (x - f * y) - (-f) * y == x
  {}

  /** What the operations make of the identity, and its inverse. */
  lemma OpInvertible(op: RowOp, n: nat)
    requires op.Fits(n)
    ensures Undo(op).Fits(n) && Inverses(Apply(op, Identity(n), n), Apply(Undo(op), Identity(n), n), n)
  {
    UndoFits(op, n);
    var e, u := Apply(op, Identity(n), n), Apply(Undo(op), Identity(n), n);
    ApplyIsMul(Undo(op), e, n);
    UndoApply(op, Identity(n), n);
    ApplyIsMul(op, u, n);
    UndoApply(Undo(op), Identity(n), n);
  }

  // ---------------------------------------------------------------- elimination, stated by entries

  /** No row from `k` on has a pivot in column `k`. */
  ghost predicate NoPivot(w: Mat, n: nat, k: nat) {
    IsMat(w, n, n) && k < n && forall r :: k <= r < n ==> Abs(w[r][k]) < SINGULAR_EPSILON
  }

  /** Row `p` is the first of those from `k` on with the largest entry in column `k`, and that entry is a
      pivot. */
  ghost predicate Chosen(w: Mat, n: nat, k: nat, p: nat) {
    IsMat(w, n, n) && k <= p < n && Abs(w[p][k]) >= SINGULAR_EPSILON
    && (forall r :: k <= r < n ==> Abs(w[r][k]) <= Abs(w[p][k]))
    && (forall r :: k <= r < p ==> Abs(w[r][k]) < Abs(w[p][k]))
  }

  /** Rows `k` and `p` exchanged. */
  function At(w: Mat, k: nat, p: nat, i: nat): Vec
    requires k < |w| && p < |w| && i < |w|
  {
    if i == k then w[p] else if i == p then w[k] else w[i]
  }

  /** `r` is `w` with rows `k` and `p` exchanged, row `k` then divided by its entry in column `k`, and as
      much of it taken from every other row as makes that row's entry in column `k` zero. */
  ghost predicate Pivots(w: Mat, n: nat, k: nat, p: nat, r: Mat) {
    IsMat(w, n, n) && IsMat(r, n, n) && k < n && p < n && w[p][k] != 0.0
    && r[k] == Scale(1.0 / w[p][k], w[p])
    && forall i {:trigger r[i]} :: 0 <= i < n && i != k ==> r[i] == Minus(At(w, k, p, i), Scale(At(w, k, p, i)[k], r[k]))
  }

  /** `w` is what `k` columns of elimination make of `e`. */
  ghost predicate Eliminated(e: Mat, n: nat, k: nat, w: Mat)
    decreases k, 0
  {
    if k == 0 then w == e && IsMat(e, n, n) else EliminatedNext(e, n, k - 1, w)
  }

  ghost predicate EliminatedNext(e: Mat, n: nat, k: nat, w: Mat)
    decreases k, 1
  {
    exists v, p :: Eliminated(e, n, k, v) && Chosen(v, n, k, p) && Pivots(v, n, k, p, w)
  }

  /** Elimination comes to a column without a pivot. */
  ghost predicate Refused(e: Mat, n: nat) { exists k: nat, w :: Eliminated(e, n, k, w) && NoPivot(w, n, k) }

  lemma TakeNothing(u: Vec, v: Vec)
    requires |u| == |v|
    ensures Minus(u, Scale(0.0, v)) == u
  {
    forall i | 0 <= i < |u| ensures Minus(u, Scale(0.0, v))[i] == u[i] { assert 0.0 * v[i] == 0.0; }
  }

  ghost predicate Cleared(a: Mat, r: Mat, n: nat, col: nat, upto: nat) {
    IsMat(a, n, n) && IsMat(r, n, n) && col < n && r[col] == a[col]
    && forall i {:trigger r[i]} :: 0 <= i < n && i != col ==> r[i] == if i < upto then Minus(a[i], Scale(a[i][col], a[col])) else a[i]
  }

  lemma {:induction false} ClearRows(s: Pair, n: nat, col: nat, upto: nat)
    requires Square(s, n) && col < n && upto <= n
    ensures Cleared(s.a, Clear(s, n, col, upto).a, n, col, upto)
  {
    if upto > 0 {
      var row := upto - 1;
      ClearRows(s, n, col, row);
      var t := Clear(s, n, col, row).a;
      if row != col { TakeNothing(t[row], t[col]); }
    }
  }

  /** The loops of one column do what `Pivots` says. */
  lemma ColumnEliminates(s: Pair, n: nat, col: nat)
    requires Square(s, n) && col < n && Column(s, n, col).Some?
    ensures var p := Best(s.a, n, col, n); Chosen(s.a, n, col, p) && Pivots(s.a, n, col, p, Column(s, n, col).value.a)
  {
    var p := Best(s.a, n, col, n);
    var t := if p == col then s else Both(Swap(col, p), s, n);
    assert t.a[col] == s.a[p];
    ClearRows(Both(Divide(col, t.a[col][col]), t, n), n, col, n);
    ClearedPivots(s.a, n, col, p, t.a, Column(s, n, col).value.a);
  }

  lemma ClearedPivots(w: Mat, n: nat, k: nat, p: nat, t: Mat, r: Mat)
    requires IsMat(w, n, n) && IsMat(t, n, n) && k < n && p < n && w[p][k] != 0.0 && t[k] == w[p]
    requires forall i {:trigger t[i]} :: 0 <= i < n ==> t[i] == At(w, k, p, i)
    requires Cleared(Apply(Divide(k, w[p][k]), t, n), r, n, k, n)
    ensures Pivots(w, n, k, p, r)
  {}

  lemma PivotsOnce(w: Mat, n: nat, k: nat, p: nat, r: Mat, t: Mat)
    requires Pivots(w, n, k, p, r) && Pivots(w, n, k, p, t)
    ensures r == t
  {
    forall i | 0 <= i < n ensures r[i] == t[i] {}
  }

  lemma PivotNext(t: Pair, n: nat, k: nat, p: nat, w: Mat) returns (s: Pair)
    requires Square(t, n) && Chosen(t.a, n, k, p) && Pivots(t.a, n, k, p, w)
    ensures Square(s, n) && s.a == w && Column(t, n, k) == Some(s)
  {
    assert p == Best(t.a, n, k, n);
    ColumnEliminates(t, n, k);
    s := Column(t, n, k).value;
    PivotsOnce(t.a, n, k, p, s.a, w);
  }

  /** Elimination is what the reduction runs through. */
  lemma {:induction false} EliminatedIsReached(e: Mat, n: nat, k: nat, w: Mat) returns (s: Pair)
    requires Eliminated(e, n, k, w)
    ensures k <= n && Square(s, n) && s.a == w && IsMat(e, n, n)
    ensures Reduce(Pair(e, Identity(n)), n, 0) == Reduce(s, n, k)
    decreases k
  {
    if k == 0 { return Pair(e, Identity(n)); }
    var l := k - 1;
    var v, p :| Eliminated(e, n, l, v) && Chosen(v, n, l, p) && Pivots(v, n, l, p, w);
    var t := EliminatedIsReached(e, n, l, v);
    s := PivotNext(t, n, l, p, w);
  }

  // ---------------------------------------------------------------- what the reduction keeps

  /** `a` is `inv` times the original matrix, and `inv` can be undone. */
  ghost predicate Tracks(s: Pair, e: Mat, undo: Mat, n: nat) {
    IsMat(e, n, n) && Square(s, n) && s.a == Mul(s.inv, e, n) && Inverses(s.inv, undo, n)
  }

  lemma BothTracks(op: RowOp, s: Pair, e: Mat, undo: Mat, n: nat) returns (undo2: Mat)
    requires Tracks(s, e, undo, n) && op.Fits(n)
    ensures Tracks(Both(op, s, n), e, undo2, n)
  {
    var x, y := Apply(op, Identity(n), n), Apply(Undo(op), Identity(n), n);
    OpInvertible(op, n);
    ApplyIsMul(op, s.a, n);
    ApplyIsMul(op, s.inv, n);
    MulAssociates(x, s.inv, e, n);
    undo2 := Mul(undo, y, n);
    ProductInverse(x, y, s.inv, undo, n);
  }

  lemma ProductInverse(x: Mat, y: Mat, p: Mat, q: Mat, n: nat)
    requires Inverses(x, y, n) && Inverses(p, q, n)
    ensures Inverses(Mul(x, p, n), Mul(q, y, n), n)
  {
    HalfInverse(x, y, p, q, n);
    HalfInverse(q, p, y, x, n);
  }

  lemma HalfInverse(x: Mat, y: Mat, p: Mat, q: Mat, n: nat)
    requires IsMat(x, n, n) && IsMat(y, n, n) && IsMat(p, n, n) && IsMat(q, n, n)
    requires Mul(x, y, n) == Identity(n) && Mul(p, q, n) == Identity(n)
    ensures Mul(Mul(x, p, n), Mul(q, y, n), n) == Identity(n)
  {
    MulAssociates(x, p, Mul(q, y, n), n);
    MulAssociates(p, q, y, n);
    IdentityMul(y, n);
  }

  /** The first `col` columns are those of the identity. */
  ghost predicate UnitColumns(a: Mat, n: nat, col: nat) {
    IsMat(a, n, n) && forall i, c :: 0 <= i < n && 0 <= c < col <= n ==> a[i][c] == if i == c then 1.0 else 0.0
  }

  lemma SwapKeepsUnits(a: Mat, n: nat, col: nat, p: nat)
    requires UnitColumns(a, n, col) && col <= p < n
    ensures UnitColumns(Apply(Swap(col, p), a, n), n, col)
  {}

  lemma DivideKeepsUnits(a: Mat, n: nat, col: nat)
    requires UnitColumns(a, n, col) && col < n && a[col][col] != 0.0
    ensures var r := Apply(Divide(col, a[col][col]), a, n); UnitColumns(r, n, col) && r[col][col] == 1.0
  {
    var x := a[col][col];
    var r := Apply(Divide(col, x), a, n);
    assert 1.0 / x * x == 1.0;
    forall i, c | 0 <= i < n && 0 <= c < col ensures r[i][c] == if i == c then 1.0 else 0.0 {
      if i == col { assert 1.0 / x * a[i][c] == 0.0; }
    }
  }

  lemma {:induction false} ClearKeepsUnits(s: Pair, n: nat, col: nat, upto: nat)
    requires Square(s, n) && col < n && upto <= n && UnitColumns(s.a, n, col) && s.a[col][col] == 1.0
    ensures var r := Clear(s, n, col, upto).a;
            UnitColumns(r, n, col) && r[col] == s.a[col]
            && (forall i :: 0 <= i < upto && i != col ==> r[i][col] == 0.0)
            && (forall i :: upto <= i < n ==> r[i] == s.a[i])
  {
    if upto > 0 {
      var row := upto - 1;
      ClearKeepsUnits(s, n, col, row);
      var t := Clear(s, n, col, row).a;
      if row != col && t[row][col] != 0.0 { SubtractKeepsUnits(t, n, col, row); }
    }
  }

  lemma SubtractKeepsUnits(t: Mat, n: nat, col: nat, row: nat)
    requires UnitColumns(t, n, col) && col < n && row < n && row != col && t[col][col] == 1.0
    ensures var r := Apply(Subtract(row, col, t[row][col]), t, n); UnitColumns(r, n, col) && r[row][col] == 0.0
  {
    var f := t[row][col];
    var r := Apply(Subtract(row, col, f), t, n);
    assert f - f * 1.0 == 0.0;
    forall i, c | 0 <= i < n && 0 <= c < col ensures r[i][c] == if i == c then 1.0 else 0.0 {
      if i == row { assert f * t[col][c] == 0.0; }
    }
  }

  lemma {:induction false} ClearTracks(s: Pair, e: Mat, undo: Mat, n: nat, col: nat, upto: nat) returns (undo2: Mat)
    requires Tracks(s, e, undo, n) && col < n && upto <= n
    ensures Tracks(Clear(s, n, col, upto), e, undo2, n)
  {
    undo2 := undo;
    if upto > 0 {
      var row := upto - 1;
      undo2 := ClearTracks(s, e, undo, n, col, row);
      var t := Clear(s, n, col, row);
      if row != col && t.a[row][col] != 0.0 { undo2 := BothTracks(Subtract(row, col, t.a[row][col]), t, e, undo2, n); }
    }
  }

  lemma ColumnTracks(s: Pair, e: Mat, undo: Mat, n: nat, col: nat) returns (undo2: Mat)
    requires Tracks(s, e, undo, n) && col < n && UnitColumns(s.a, n, col) && Column(s, n, col).Some?
    ensures var r := Column(s, n, col).value; Tracks(r, e, undo2, n) && UnitColumns(r.a, n, col + 1)
  {
    var p := Best(s.a, n, col, n);
    var t := if p == col then s else Both(Swap(col, p), s, n);
    var u := undo;
    if p != col {
      u := BothTracks(Swap(col, p), s, e, undo, n);
      SwapKeepsUnits(s.a, n, col, p);
    }
    var op := Divide(col, t.a[col][col]);
    u := BothTracks(op, t, e, u, n);
    DivideKeepsUnits(t.a, n, col);
    undo2 := ClearTracks(Both(op, t, n), e, u, n, col, n);
    ClearKeepsUnits(Both(op, t, n), n, col, n);
  }

  /** What a reduction that started from `e` has come to. */
  ghost predicate Outcome(e: Mat, n: nat, r: Option<Pair>) {
    if r.Some? then Square(r.value, n) && UnitColumns(r.value.a, n, n) && exists u :: Tracks(r.value, e, u, n) else Refused(e, n)
  }

  lemma {:induction false} ReduceTracks(s: Pair, e: Mat, undo: Mat, n: nat, col: nat)
    requires Tracks(s, e, undo, n) && col <= n && UnitColumns(s.a, n, col) && Eliminated(e, n, col, s.a)
    ensures Outcome(e, n, Reduce(s, n, col))
    decreases n - col
  {
    if col < n {
      var r := Column(s, n, col);
      if r.Some? {
        var u := ColumnTracks(s, e, undo, n, col);
        StillEliminated(e, s, n, col);
        ReduceTracks(r.value, e, u, n, col + 1);
      } else {
        assert NoPivot(s.a, n, col);
      }
    }
  }

  lemma StillEliminated(e: Mat, s: Pair, n: nat, col: nat)
    requires Square(s, n) && col < n && Column(s, n, col).Some? && Eliminated(e, n, col, s.a)
    ensures Eliminated(e, n, col + 1, Column(s, n, col).value.a)
  {
    ColumnEliminates(s, n, col);
    assert EliminatedNext(e, n, col, Column(s, n, col).value.a);
  }

  lemma UnitColumnsIdentity(a: Mat, n: nat)
    requires UnitColumns(a, n, n)
    ensures a == Identity(n)
  {
    MatEqual(a, Identity(n), n, n);
  }

  /** An answer is a two-sided inverse, and there is none exactly when elimination with partial pivoting
      comes to a column without a pivot. */
  lemma InverseIsRight(e: Mat, n: nat)
    requires IsMat(e, n, n)
    ensures Inverse(e, n).Some? ==> Inverses(Inverse(e, n).value, e, n)
    ensures Inverse(e, n).None? <==> Refused(e, n)
  {
    var r := InverseOutcome(e, n);
    if r.Some? { DoneIsInverse(e, n, r.value); }
    if Refused(e, n) { RefusedIsNone(e, n); }
  }

  lemma InverseOutcome(e: Mat, n: nat) returns (r: Option<Pair>)
    requires IsMat(e, n, n)
    ensures Outcome(e, n, r) && Inverse(e, n) == if r.Some? then Some(r.value.inv) else None
  {
    var s := Pair(e, Identity(n));
    StartTracks(e, n);
    ReduceTracks(s, e, Identity(n), n, 0);
    r := Reduce(s, n, 0);
  }

  lemma StartTracks(e: Mat, n: nat)
    requires IsMat(e, n, n)
    ensures Tracks(Pair(e, Identity(n)), e, Identity(n), n)
  {
    IdentityMul(e, n);
    MulIdentity(Identity(n), n);
  }

  lemma DoneIsInverse(e: Mat, n: nat, r: Pair)
    requires UnitColumns(r.a, n, n) && exists u :: Tracks(r, e, u, n)
    ensures Inverses(r.inv, e, n)
  {
    UnitColumnsIdentity(r.a, n);
    var u :| Tracks(r, e, u, n);
    MulAssociates(u, r.inv, e, n);
    IdentityMul(e, n);
    MulIdentity(u, n);
    assert u == e;
  }

  lemma RefusedIsNone(e: Mat, n: nat)
    requires Refused(e, n)
    ensures IsMat(e, n, n) && Inverse(e, n).None?
  {
    var k: nat, w :| Eliminated(e, n, k, w) && NoPivot(w, n, k);
    var s := EliminatedIsReached(e, n, k, w);
    assert Column(s, n, k).None?;
  }

  // ---------------------------------------------------------------- what a refusal says of the matrix

  /** The first `k` rows of `w`, weighted by the first `k` entries of `u`. */
  ghost function Done(u: Vec, w: Mat, n: nat, k: nat): (v: Vec)
    requires IsMat(w, n, n) && |u| == n && k <= n
    ensures |v| == n
  {
    Comb(u[..k], w[..k], n)
  }

  /** Past what the finished rows give, a row of the input is a row still to be done, or nothing. */
  ghost predicate Rest(e: Mat, w: Mat, n: nat, k: nat, i: nat, y: Vec) {
    IsMat(e, n, n) && IsMat(w, n, n) && i < n && k <= n && |y| == n && e[i] == Plus(Done(e[i], w, n, k), y)
    && (y == Zero(n) || exists m :: k <= m < n && y == w[m])
  }

  /** `u` with its share of `s`, which makes entry `k` zero, taken out. */
  function Without(u: Vec, k: nat, s: Vec): (r: Vec)
    requires |u| == |s| && k < |u|
    ensures |r| == |u|
  {
    Minus(u, Scale(u[k], s))
  }

  /** Taking a share out of each row takes it out of their combination. */
  lemma {:induction false} CombWithout(v: Vec, b: Mat, d: Mat, n: nat, k: nat, s: Vec)
    requires IsMat(b, |v|, n) && IsMat(d, |v|, n) && k < n && |s| == n
    requires forall j {:trigger d[j]} :: 0 <= j < |v| ==> d[j] == Without(b[j], k, s)
    ensures Comb(v, d, n) == Without(Comb(v, b, n), k, s)
  {
    if v == [] {
      TakeNothing(Zero(n), s);
    } else {
      var l := |v| - 1;
      CombWithout(v[..l], b[..l], d[..l], n, k, s);
      CombLast(v, b, n);
      CombLast(v, d, n);
      assert d[l] == Without(b[l], k, s);
      WithoutPlus(Comb(v[..l], b[..l], n), v[l], b[l], n, k, s);
    }
  }

  lemma WithoutPlus(x: Vec, t: real, y: Vec, n: nat, k: nat, s: Vec)
    requires |x| == |y| == |s| == n && k < n
    ensures Plus(Without(x, k, s), Scale(t, Without(y, k, s))) == Without(Plus(x, Scale(t, y)), k, s)
  {
    var l, r := Plus(Without(x, k, s), Scale(t, Without(y, k, s))), Without(Plus(x, Scale(t, y)), k, s);
    forall c | 0 <= c < n ensures l[c] == r[c] { Regroup(x[c], x[k], s[c], t, y[c], y[k]); }
  }

  lemma Regroup(xc: real, xk: real, s: real, t: real, yc: real, yk: real)
    ensures (xc - xk * s) + t * (yc - yk * s) == (xc + t * yc) - (xk + t * yk) * s
  {}

  /** Where a row still to be done goes. */
  function Moved(k: nat, p: nat, l: nat): nat { if l == p then k else if l == k then p else l }

  /** What is left of a row after one more column. */
  lemma RestMoves(w: Mat, n: nat, k: nat, p: nat, r: Mat, y: Vec)
    requires k <= p < n && Pivots(w, n, k, p, r) && |y| == n && (y == Zero(n) || exists m :: k <= m < n && y == w[m])
    ensures var z := Without(y, k, r[k]); z == Zero(n) || exists m :: k + 1 <= m < n && z == r[m]
  {
    if y == Zero(n) || y == w[p] {
      forall c | 0 <= c < n ensures Without(y, k, r[k])[c] == 0.0 { OwnShare(w, n, k, p, r, y, c); }
    } else {
      var l :| k <= l < n && y == w[l];
      var m := Moved(k, p, l);
      assert At(w, k, p, m) == y && r[m] == Without(y, k, r[k]);
    }
  }

  lemma OwnShare(w: Mat, n: nat, k: nat, p: nat, r: Mat, y: Vec, c: nat)
    requires Pivots(w, n, k, p, r) && |y| == n && c < n && (y == Zero(n) || y == w[p])
    ensures y[c] == y[k] * r[k][c]
  {
    if y == w[p] {
      var x := w[p][k];
      assert r[k][c] == 1.0 / x * w[p][c];
      assert x * (1.0 / x) == 1.0;
      assert x * (1.0 / x * w[p][c]) == (x * (1.0 / x)) * w[p][c];
    } else {
      assert y[k] == 0.0;
    }
  }

  lemma DoneNext(u: Vec, w: Mat, n: nat, k: nat, p: nat, r: Mat)
    requires k <= p < n && Pivots(w, n, k, p, r) && |u| == n
    ensures Done(u, r, n, k + 1) == Plus(Without(Done(u, w, n, k), k, r[k]), Scale(u[k], r[k]))
  {
    forall j | 0 <= j < k ensures r[..k][j] == Without(w[..k][j], k, r[k]) { assert At(w, k, p, j) == w[j]; }
    CombWithout(u[..k], w[..k], r[..k], n, k, r[k]);
    assert u[..k + 1][..k] == u[..k] && r[..k + 1][..k] == r[..k];
    CombLast(u[..k + 1], r[..k + 1], n);
  }

  /** One column takes its own share out of what is left of a row. */
  lemma RestStep(e: Mat, w: Mat, n: nat, k: nat, p: nat, r: Mat, i: nat, y: Vec) returns (z: Vec)
    requires Rest(e, w, n, k, i, y) && k <= p < n && Pivots(w, n, k, p, r)
    ensures Rest(e, r, n, k + 1, i, z)
  {
    z := Without(y, k, r[k]);
    RestMoves(w, n, k, p, r, y);
    DoneNext(e[i], w, n, k, p, r);
    Share(e[i], Done(e[i], w, n, k), y, n, k, r[k]);
  }

  lemma Share(u: Vec, x: Vec, y: Vec, n: nat, k: nat, s: Vec)
    requires |x| == |y| == |s| == n && k < n && u == Plus(x, y)
    ensures u == Plus(Plus(Without(x, k, s), Scale(u[k], s)), Without(y, k, s))
  {
    var r := Plus(Plus(Without(x, k, s), Scale(u[k], s)), Without(y, k, s));
    forall c | 0 <= c < n ensures u[c] == r[c] { Distribute(u[k], x[k], y[k], s[c]); }
  }

  lemma Distribute(u: real, x: real, y: real, s: real)
    requires u == x + y
    ensures u * s == x * s + y * s
  {}

  lemma {:induction false} RestOfRow(e: Mat, n: nat, k: nat, w: Mat, i: nat) returns (y: Vec)
    requires Eliminated(e, n, k, w) && i < n
    ensures Rest(e, w, n, k, i, y)
    decreases k
  {
    if k == 0 {
      assert Plus(Zero(n), e[i]) == e[i];
      return e[i];
    }
    var l := k - 1;
    var v, p :| Eliminated(e, n, l, v) && Chosen(v, n, l, p) && Pivots(v, n, l, p, w);
    var x := RestOfRow(e, n, l, v, i);
    y := RestStep(e, v, n, l, p, w, i, x);
  }

  /** Column `k` is, entry by entry, less than the threshold away from the columns before it, weighted
      by `x`. */
  ghost predicate NearlySpanned(e: Mat, n: nat, k: nat, x: Vec) {
    IsMat(e, n, n) && k < n && |x| == k && forall i :: 0 <= i < n ==> Abs(e[i][k] - Dot(e[i][..k], x)) < SINGULAR_EPSILON
  }

  /** A matrix that is refused has a column that is nowhere further than the threshold from a combination
      of the columns before it: changing each entry of one column by less than the threshold makes the
      matrix singular. */
  lemma RefusedIsNearlySingular(e: Mat, n: nat)
    requires IsMat(e, n, n) && Inverse(e, n).None?
    ensures exists k: nat, x :: NearlySpanned(e, n, k, x)
  {
    InverseIsRight(e, n);
    var k: nat, w :| Eliminated(e, n, k, w) && NoPivot(w, n, k);
    var x := Col(w[..k], k);
    forall i | 0 <= i < n ensures Abs(e[i][k] - Dot(e[i][..k], x)) < SINGULAR_EPSILON {
      var y := RestOfRow(e, n, k, w, i);
      CombAt(e[i][..k], w[..k], n, k);
      assert e[i][k] == Dot(e[i][..k], x) + y[k];
    }
    assert NearlySpanned(e, n, k, x);
  }

  /** A matrix that sends some vector other than zero to zero is always refused. */
  lemma SingularIsRefused(e: Mat, n: nat, v: Vec)
    requires IsMat(e, n, n) && |v| == n && v != Zero(n) && Comb(v, e, n) == Zero(n)
    ensures Inverse(e, n).None?
  {
    InverseIsRight(e, n);
    if Inverse(e, n).Some? {
      var inv := Inverse(e, n).value;
      CombCombs(v, e, inv, n);
      assert Mul(e, inv, n) == Identity(n);
      CombUnits(v, Identity(n), n);
      assert v + Zero(0) == v;
      CombZero(inv, n);
    }
  }

  /** The pivot test is absolute, so a matrix of very small entries is refused although it has an
      inverse. */
  lemma SmallIsRefused()
    ensures var x := SINGULAR_EPSILON / 2.0; Inverse([[x]], 1).None? && Inverses([[x]], [[1.0 / x]], 1)
  {
    var x := SINGULAR_EPSILON / 2.0;
    var m, r: Mat := [[x]], [[1.0 / x]];
    assert IsMat(m, 1, 1) && IsMat(r, 1, 1);
    assert Best(m, 1, 0, 1) == 0;
    assert Column(Pair(m, Identity(1)), 1, 0).None?;
    assert x * (1.0 / x) == 1.0;
    OneByOne(x, 1.0 / x);
    OneByOne(1.0 / x, x);
  }

  lemma OneByOne(x: real, y: real)
    requires x * y == 1.0
    ensures Mul([[x]], [[y]], 1) == Identity(1)
  {
    var a, b: Mat := [[x]], [[y]];
    assert [x][..0] == [] && b[..0] == [];
    assert Comb([x], b, 1)[0] == 0.0 + x * y;
    MatEqual(Mul(a, b, 1), Identity(1), 1, 1);
  }
}
