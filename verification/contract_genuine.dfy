/** A reported counterexample is a real one, for bodies in which the walker drops no path fact. */
module ContractGenuine {
  import opened Prelude
  import opened Types
  import opened ContractLanguage
  import opened ContractWalker
  import opened ContractFresh
  import opened ContractSound
  import opened ContractSimulation
  import opened ContractTheorems

  // ---------------------------------------------------------------- the bodies covered

  predicate NoReturn(e: Expr) {
    match e
    case Unary(_, a) => NoReturn(a)
    case Binary(_, l, r) => NoReturn(l) && NoReturn(r)
    case If(c, thn, els) => NoReturn(c) && NoReturnBlock(thn) && NoReturnElse(els)
    case Call(_, args) => NoReturnAll(args)
    case _ => true
  }

  predicate NoReturnAll(es: seq<Expr>) { es == [] || (NoReturn(es[0]) && NoReturnAll(es[1..])) }

  predicate NoReturnElse(els: Else) {
    match els case NoElse => true case ElseBlock(b) => NoReturnBlock(b) case ElseIf(e) => NoReturn(e)
  }

  predicate NoReturnBlock(b: seq<Stmt>) { b == [] || (NoReturnStmt(b[0]) && NoReturnBlock(b[1..])) }

  predicate NoReturnStmt(s: Stmt) {
    match s
    case Let(_, _, e) => NoReturn(e)
    case Return(_) => false
    case While(_, _) => false
    case ExprStmt(e) => NoReturn(e)
    case Audited(b) => NoReturnBlock(b)
  }

  /** Every path returns. */
  predicate AllReturn(b: seq<Stmt>) { b != [] && (AllReturnStmt(b[0]) || AllReturn(b[1..])) }

  predicate AllReturnStmt(s: Stmt) {
    match s
    case Return(_) => true
    case ExprStmt(e) => AllReturnExpr(e)
    case Audited(b) => AllReturn(b)
    case _ => false
  }

  predicate AllReturnExpr(e: Expr) { e.If? && AllReturn(e.thn) && AllReturnElse(e.els) }

  predicate AllReturnElse(els: Else) {
    match els case NoElse => false case ElseBlock(b) => AllReturn(b) case ElseIf(e) => AllReturnExpr(e)
  }

  predicate Straight(e: Expr) { CallFree(e) && NoReturn(e) }
  predicate Passes(b: seq<Stmt>) { CallFreeBlock(b) && NoReturnBlock(b) }

  /** Call-free, `return` only in statement position, and each branch of a statement `if` returns on
      all of its paths or on none. */
  predicate Decisive(b: seq<Stmt>)
    decreases b, 0
  {
    b == [] || (DecisiveStmt(b[0]) && Decisive(b[1..]))
  }

  predicate DecisiveStmt(s: Stmt) {
    match s
    case Let(_, _, e) => Straight(e)
    case Return(Some(e)) => Straight(e)
    case Return(None) => true
    case While(_, _) => false
    case ExprStmt(e) => DecisiveExpr(e)
    case Audited(b) => Passes(b)
  }

  predicate DecisiveExpr(e: Expr) {
    if e.If? then Straight(e.cond) && DecisiveBranch(e.thn) && DecisiveElse(e.els) else Straight(e)
  }

  predicate DecisiveBranch(b: seq<Stmt>)
    decreases b, 1
  {
    (Decisive(b) && AllReturn(b)) || Passes(b)
  }

  predicate DecisiveElse(els: Else) {
    match els
    case NoElse => true
    case ElseBlock(b) => DecisiveBranch(b)
    case ElseIf(e) => (DecisiveExpr(e) && AllReturnExpr(e)) || Straight(e)
  }

  // ---------------------------------------------------------------- where a range guard can trap

  /** No `let` in any block. */
  predicate LetFree(e: Expr) {
    match e
    case Unary(_, a) => LetFree(a)
    case Binary(_, l, r) => LetFree(l) && LetFree(r)
    case If(c, thn, els) => LetFree(c) && LetFreeBlock(thn) && LetFreeElse(els)
    case _ => true
  }

  predicate LetFreeElse(els: Else) {
    match els case NoElse => true case ElseBlock(b) => LetFreeBlock(b) case ElseIf(e) => LetFree(e)
  }

  predicate LetFreeBlock(b: seq<Stmt>) { b == [] || (LetFreeStmt(b[0]) && LetFreeBlock(b[1..])) }

  predicate LetFreeStmt(s: Stmt) {
    match s
    case Let(_, _, _) => false
    case Return(Some(e)) => LetFree(e)
    case Return(None) => true
    case While(c, b) => LetFree(c) && LetFreeBlock(b)
    case ExprStmt(e) => LetFree(e)
    case Audited(b) => LetFreeBlock(b)
  }

  /** A `let` stands only where the walker keeps what it learns from it up to the `return`: in the body
      itself, or in a branch that returns; not in a block used as a value, nor in a branch that falls
      through. */
  predicate LetsKept(b: seq<Stmt>)
    decreases b, 0
  {
    b == [] || (LetsKeptStmt(b[0]) && LetsKept(b[1..]))
  }

  predicate LetsKeptStmt(s: Stmt) {
    match s
    case Let(_, _, e) => LetFree(e)
    case ExprStmt(e) => LetsKeptExpr(e)
    case _ => LetFreeStmt(s)
  }

  predicate LetsKeptExpr(e: Expr) {
    if e.If? then LetFree(e.cond) && LetsKeptBranch(e.thn) && LetsKeptElse(e.els) else LetFree(e)
  }

  predicate LetsKeptBranch(b: seq<Stmt>)
    decreases b, 1
  {
    if Passes(b) then LetFreeBlock(b) else LetsKept(b)
  }

  predicate LetsKeptElse(els: Else) {
    match els
    case NoElse => true
    case ElseBlock(b) => LetsKeptBranch(b)
    case ElseIf(e) => if Straight(e) then LetFree(e) else LetsKeptExpr(e)
  }

  // ---------------------------------------------------------------- code without `return`

  ghost predicate Tracks(sc: Scope, env: Env, m: Model) {
    forall x :: x in sc ==> x in env && env[x] == IntV(TermVal(sc[x], m))
  }

  /** Under any model, call-free and `return`-free code does what its term says, or traps. */
  lemma {:induction false} FwdInt(e: Expr, ps: set<string>, sc: Scope, env: Env, st: St, tk: Task, m: Model, fr: Frame, fuel: nat)
    requires Straight(e) && Regular(e, ps, fr.audited) && Tracks(sc, env, m) && st.found.None?
    requires WalkInt(e, sc, st, tk).Done?
    ensures var W, R := WalkInt(e, sc, st, tk), Eval(e, env, fr, fuel);
            W.st.found.None? && (R == Val(IntV(TermVal(W.v, m))) || (R == Trap && !LetFree(e)))
    decreases e, 2
  {
    match e
    case Unary(_, a) => FwdInt(a, ps, sc, env, st, tk, m, fr, fuel);
    case Binary(_, _, _) => FwdPair(e, ps, sc, env, st, tk, m, fr, fuel);
    case If(_, _, _) => FwdIf(e, ps, sc, env, st, tk, m, fr, fuel);
    case _ =>
  }

  lemma {:induction false} FwdPair(e: Expr, ps: set<string>, sc: Scope, env: Env, st: St, tk: Task, m: Model, fr: Frame, fuel: nat)
    requires e.Binary? && Straight(e) && Regular(e, ps, fr.audited) && Tracks(sc, env, m) && st.found.None?
    requires WalkInt(e.l, sc, st, tk).Done? && WalkInt(e.r, sc, WalkInt(e.l, sc, st, tk).st, tk).Done?
    ensures var W1, L := WalkInt(e.l, sc, st, tk), Eval(e.l, env, fr, fuel);
            var W2, R := WalkInt(e.r, sc, W1.st, tk), Eval(e.r, env, fr, fuel);
            W2.st.found.None? && (L == Val(IntV(TermVal(W1.v, m))) || (L == Trap && !LetFree(e.l)))
            && (R == Val(IntV(TermVal(W2.v, m))) || (R == Trap && !LetFree(e.r)))
    decreases e, 1
  {
    FwdInt(e.l, ps, sc, env, st, tk, m, fr, fuel);
    FwdInt(e.r, ps, sc, env, WalkInt(e.l, sc, st, tk).st, tk, m, fr, fuel);
  }

  lemma {:induction false} FwdIf(e: Expr, ps: set<string>, sc: Scope, env: Env, st: St, tk: Task, m: Model, fr: Frame, fuel: nat)
    requires e.If? && Straight(e) && Regular(e, ps, fr.audited) && Tracks(sc, env, m) && st.found.None?
    requires WalkIf(e, sc, st, tk).Done?
    ensures var W, R := WalkIf(e, sc, st, tk), EvalIf(e, env, fr, fuel);
            W.st.found.None? && (R == Val(IntV(TermVal(W.v, m))) || (R == Trap && !LetFree(e)))
    decreases e, 1
  {
    FwdBool(e.cond, ps, sc, env, st, tk, m, fr, fuel);
    var W1 := WalkBool(e.cond, sc, st, tk);
    FwdValue(e.thn, ps, sc, env, W1.st.Assert(W1.v), tk, m, fr, fuel);
    var s2 := WalkBlockValue(e.thn, sc, W1.st.Assert(W1.v), tk).st;
    FwdElseValue(e.els, ps, sc, env, s2.PopTo(W1.st).Assert(NotF(W1.v)), tk, m, fr, fuel);
  }

  lemma {:induction false} FwdElseValue(els: Else, ps: set<string>, sc: Scope, env: Env, st: St, tk: Task, m: Model, fr: Frame, fuel: nat)
    requires CallFreeElse(els) && NoReturnElse(els) && RegularElse(els, ps, fr.audited) && Tracks(sc, env, m) && st.found.None?
    requires WalkElseValue(els, sc, st, tk).Done?
    ensures var W, R := WalkElseValue(els, sc, st, tk), EvalElse(els, env, fr, fuel);
            W.st.found.None? && (R == Val(IntV(TermVal(W.v, m))) || (R == Trap && !LetFreeElse(els)))
    decreases els
  {
    match els
    case ElseBlock(b) => FwdValue(b, ps, sc, env, st, tk, m, fr, fuel);
    case ElseIf(e) => FwdInt(e, ps, sc, env, st, tk, m, fr, fuel);
  }

  lemma {:induction false} FwdBool(e: Expr, ps: set<string>, sc: Scope, env: Env, st: St, tk: Task, m: Model, fr: Frame, fuel: nat)
    requires Straight(e) && Regular(e, ps, fr.audited) && Tracks(sc, env, m) && st.found.None?
    requires WalkBool(e, sc, st, tk).Done?
    ensures var W, R := WalkBool(e, sc, st, tk), Eval(e, env, fr, fuel);
            W.st.found.None? && (R == Val(BoolV(True(W.v, m))) || (R == Trap && !LetFree(e)))
    decreases e, 2
  {
    match e
    case Unary(_, a) => FwdBool(a, ps, sc, env, st, tk, m, fr, fuel);
    case Binary(op, l, r) =>
      if op.IsLogic() || (op.IsEquality() && IsBoolShaped(l) && IsBoolShaped(r)) {
        FwdConnect(e, ps, sc, env, st, tk, m, fr, fuel);
      } else {
        FwdPair(e, ps, sc, env, st, tk, m, fr, fuel);
      }
    case _ =>
  }

  lemma {:induction false} FwdConnect(e: Expr, ps: set<string>, sc: Scope, env: Env, st: St, tk: Task, m: Model, fr: Frame, fuel: nat)
    requires e.Binary? && Straight(e) && Regular(e, ps, fr.audited) && Tracks(sc, env, m) && st.found.None?
    requires e.op.IsLogic() || (e.op.IsEquality() && IsBoolShaped(e.l) && IsBoolShaped(e.r))
    requires WalkBool(e, sc, st, tk).Done?
    ensures var W, R := WalkBool(e, sc, st, tk), Eval(e, env, fr, fuel);
            W.st.found.None? && (R == Val(BoolV(True(W.v, m))) || (R == Trap && !LetFree(e)))
    decreases e, 1
  {
    FwdBool(e.l, ps, sc, env, st, tk, m, fr, fuel);
    FwdBool(e.r, ps, sc, env, WalkBool(e.l, sc, st, tk).st, tk, m, fr, fuel);
  }

  lemma NoReturnTake(b: seq<Stmt>, n: nat)
    requires NoReturnBlock(b) && n < |b|
    ensures NoReturnBlock(b[..n]) && NoReturnStmt(b[n])
    ensures LetFreeBlock(b) ==> LetFreeBlock(b[..n]) && LetFreeStmt(b[n])
  {
    if n > 0 { NoReturnTake(b[1..], n - 1); assert b[..n][1..] == b[1..][..n - 1]; }
  }

  lemma {:induction false} FwdValue(b: seq<Stmt>, ps: set<string>, sc: Scope, env: Env, st: St, tk: Task, m: Model, fr: Frame, fuel: nat)
    requires CallFreeBlock(b) && NoReturnBlock(b) && RegularBlock(b, ps, fr.audited) && Tracks(sc, env, m) && st.found.None?
    requires WalkBlockValue(b, sc, st, tk).Done?
    ensures var W, R := WalkBlockValue(b, sc, st, tk), EvalBlock(b, env, fr, fuel);
            W.st.found.None? && (R == Val(IntV(TermVal(W.v, m))) || (R == Trap && !LetFreeBlock(b)))
    decreases b
  {
    var n := |b| - 1;
    RegularTake(b, n, ps, fr.audited);
    CallFreeTake(b, n);
    NoReturnTake(b, n);
    ExecSplit(b, env, UnitV, fr, fuel);
    FwdStmts(b[..n], ps, sc, env, UnitV, st, tk, m, fr, fuel);
    var W1, R1 := WalkStmts(b[..n], sc, st, tk), Exec(b[..n], env, UnitV, fr, fuel);
    var env1: Env := if R1.Val? then R1.v.0 else map x | x in W1.v.1 :: IntV(TermVal(W1.v.1[x], m));
    FwdTail(b[n], ps, W1.v.1, env1, W1.st, tk, m, fr, fuel);
  }

  lemma {:induction false} FwdTail(s: Stmt, ps: set<string>, sc: Scope, env: Env, st: St, tk: Task, m: Model, fr: Frame, fuel: nat)
    requires CallFreeStmt(s) && NoReturnStmt(s) && RegularStmt(s, ps, fr.audited) && Tracks(sc, env, m) && st.found.None?
    requires WalkTail(s, sc, st, tk).Done?
    ensures var W, R := WalkTail(s, sc, st, tk), ExecOne(s, env, fr, fuel);
            W.st.found.None? && ((R.Val? && R.v.1 == IntV(TermVal(W.v, m))) || (R == Trap && !LetFreeStmt(s)))
    decreases s
  {
    match s case ExprStmt(e) => FwdInt(e, ps, sc, env, st, tk, m, fr, fuel);
  }

  lemma {:induction false} FwdStmts(
      b: seq<Stmt>, ps: set<string>, sc: Scope, env: Env, last: Value, st: St, tk: Task, m: Model, fr: Frame, fuel: nat)
    requires CallFreeBlock(b) && NoReturnBlock(b) && RegularBlock(b, ps, fr.audited) && Tracks(sc, env, m) && st.found.None?
    requires WalkStmts(b, sc, st, tk).Done?
    ensures var W, R := WalkStmts(b, sc, st, tk), Exec(b, env, last, fr, fuel);
            W.st.found.None? && !W.v.0 && ((R.Val? && Tracks(W.v.1, R.v.0, m)) || (R == Trap && !LetFreeBlock(b)))
    decreases b
  {
    if b != [] {
      FwdStmt(b[0], ps, sc, env, st, tk, m, fr, fuel);
      var W1, R1 := WalkStmt(b[0], sc, st, tk), ExecOne(b[0], env, fr, fuel);
      var env1: Env := if R1.Val? then R1.v.0 else map x | x in W1.v.1 :: IntV(TermVal(W1.v.1[x], m));
      FwdStmts(b[1..], ps, W1.v.1, env1, if R1.Val? then R1.v.1 else UnitV, W1.st, tk, m, fr, fuel);
    }
  }

  lemma {:induction false} FwdStmt(s: Stmt, ps: set<string>, sc: Scope, env: Env, st: St, tk: Task, m: Model, fr: Frame, fuel: nat)
    requires CallFreeStmt(s) && NoReturnStmt(s) && RegularStmt(s, ps, fr.audited) && Tracks(sc, env, m) && st.found.None?
    requires WalkStmt(s, sc, st, tk).Done?
    ensures var W, R := WalkStmt(s, sc, st, tk), ExecOne(s, env, fr, fuel);
            W.st.found.None? && W.v.0.Continues? && ((R.Val? && Tracks(W.v.1, R.v.0, m)) || (R == Trap && !LetFreeStmt(s)))
    decreases s
  {
    match s
    case Let(_, _, e) => FwdInt(e, ps, sc, env, st, tk, m, fr, fuel);
    case ExprStmt(e) => FwdExprStmt(e, ps, sc, env, st, tk, m, fr, fuel);
    case Audited(b) => FwdStmts(b, ps, sc, env, UnitV, st, tk, m, fr.(audited := true), fuel);
  }

  lemma {:induction false} FwdExprStmt(e: Expr, ps: set<string>, sc: Scope, env: Env, st: St, tk: Task, m: Model, fr: Frame, fuel: nat)
    requires Straight(e) && Regular(e, ps, fr.audited) && Tracks(sc, env, m) && st.found.None?
    requires WalkExprStmt(e, sc, st, tk).Done?
    ensures var W, R := WalkExprStmt(e, sc, st, tk), Eval(e, env, fr, fuel);
            W.st.found.None? && W.v.Continues? && (R.Val? || (R == Trap && !LetFree(e)))
    decreases e, 3
  {
    if e.If? { FwdIfStmt(e, ps, sc, env, st, tk, m, fr, fuel); } else { FwdInt(e, ps, sc, env, st, tk, m, fr, fuel); }
  }

  lemma {:induction false} FwdIfStmt(e: Expr, ps: set<string>, sc: Scope, env: Env, st: St, tk: Task, m: Model, fr: Frame, fuel: nat)
    requires e.If? && Straight(e) && Regular(e, ps, fr.audited) && Tracks(sc, env, m) && st.found.None?
    requires WalkExprStmt(e, sc, st, tk).Done?
    ensures var W, R := WalkExprStmt(e, sc, st, tk), EvalIf(e, env, fr, fuel);
            W.st.found.None? && W.v.Continues? && (R.Val? || (R == Trap && !LetFree(e)))
    decreases e, 1
  {
    FwdBool(e.cond, ps, sc, env, st, tk, m, fr, fuel);
    var W1 := WalkBool(e.cond, sc, st, tk);
    FwdStmts(e.thn, ps, sc, env, UnitV, W1.st.Assert(W1.v), tk, m, fr, fuel);
    var s2 := WalkStmts(e.thn, sc, W1.st.Assert(W1.v), tk).st;
    FwdElse(e.els, ps, sc, env, s2.PopTo(W1.st).Assert(NotF(W1.v)), tk, m, fr, fuel);
  }

  lemma {:induction false} FwdElse(els: Else, ps: set<string>, sc: Scope, env: Env, st: St, tk: Task, m: Model, fr: Frame, fuel: nat)
    requires CallFreeElse(els) && NoReturnElse(els) && RegularElse(els, ps, fr.audited) && Tracks(sc, env, m) && st.found.None?
    requires WalkElse(els, sc, st, tk).Done?
    ensures var W, R := WalkElse(els, sc, st, tk), EvalElse(els, env, fr, fuel);
            W.st.found.None? && !W.v && (R.Val? || (R == Trap && !LetFreeElse(els)))
    decreases els
  {
    match els
    case NoElse =>
    case ElseBlock(b) => FwdStmts(b, ps, sc, env, UnitV, st, tk, m, fr, fuel);
    case ElseIf(e) => FwdExprStmt(e, ps, sc, env, st, tk, m, fr, fuel);
  }

  // ---------------------------------------------------------------- following the path to a violation

  /** A checking problem: parameters and their symbols (`top`), the task, where the body runs. */
  datatype Site = Site(top: Scope, tk: Task, fr: Frame, fuel: nat) {
    ghost predicate Ok() {
      Honest(tk.oracle) && fr.ret.IsInteger() && !fr.audited
      && forall c :: c in tk.post ==> Plain(c) && Idents(c) <= top.Keys + {"result"}
    }
    ghost predicate Keeps(sc: Scope) { forall p :: p in top ==> p in sc && sc[p] == top[p] }
    ghost function Args(m: Model): Env { EnvOf(top, m) }

    /** Returning `w` on the arguments `m` describes is the violation `v` reports. */
    ghost predicate Exhibits(v: Violation, w: int, m: Model) {
      v.result == AsI64(w) && !Holds(v.clause, Args(m)["result" := IntV(w)], fr.fns)
    }

    /** The run comes to the `return` of `w`, which traps just when `w` is outside the return type; where
        a `let` is not `kept` it may have trapped on the way. */
    ghost predicate Ends<T>(r: Res<T>, w: int, kept: bool) {
      r == (if fr.ret.InRange(w) then Ret(IntV(w)) else Trap) || (r == Trap && !kept)
    }

    /** `v` names one of the clauses and the arguments `m` describes. */
    ghost predicate Reports(v: Violation, m: Model) {
      v.clause in tk.post
      && forall p :: p in top && p != "result" && I64.InRange(TermVal(top[p], m)) ==>
           p in v.bindings && v.bindings[p] == TermVal(top[p], m)
    }
  }

  ghost function EnvOf(sc: Scope, m: Model): Env { map x | x in sc :: IntV(TermVal(sc[x], m)) }

  /** The walker takes a list to return exactly when every path through it does. */
  lemma {:induction false} AllReturnWalk(b: seq<Stmt>, sc: Scope, st: St, tk: Task)
    requires var W := WalkStmts(b, sc, st, tk); W.Done? && W.st.found.None?
    ensures WalkStmts(b, sc, st, tk).v.0 <==> AllReturn(b)
    decreases b
  {
    if b != [] {
      var W1 := WalkStmt(b[0], sc, st, tk);
      AllReturnStmtWalk(b[0], sc, st, tk);
      if !W1.v.0.Returns? {
        AllReturnWalk(b[1..], W1.v.1, if W1.v.0.Continues? then W1.st else W1.st.Assert(W1.v.0.f), tk);
      }
    }
  }

  lemma {:induction false} AllReturnStmtWalk(s: Stmt, sc: Scope, st: St, tk: Task)
    requires var W := WalkStmt(s, sc, st, tk); W.Done? && W.st.found.None?
    ensures WalkStmt(s, sc, st, tk).v.0.Returns? <==> AllReturnStmt(s)
    decreases s
  {
    if s.ExprStmt? { AllReturnExprWalk(s.e, sc, st, tk); }
    else if s.Audited? { AllReturnWalk(s.body, sc, st, tk); }
  }

  lemma {:induction false} AllReturnExprWalk(e: Expr, sc: Scope, st: St, tk: Task)
    requires var W := WalkExprStmt(e, sc, st, tk); W.Done? && W.st.found.None?
    ensures WalkExprStmt(e, sc, st, tk).v.Returns? <==> AllReturnExpr(e)
    decreases e
  {
    if e.If? {
      var W1 := WalkBool(e.cond, sc, st, tk);
      AllReturnWalk(e.thn, sc, W1.st.Assert(W1.v), tk);
      AllReturnElseWalk(e.els, sc, WalkStmts(e.thn, sc, W1.st.Assert(W1.v), tk).st.PopTo(W1.st).Assert(NotF(W1.v)), tk);
    }
  }

  lemma {:induction false} AllReturnElseWalk(els: Else, sc: Scope, st: St, tk: Task)
    requires var W := WalkElse(els, sc, st, tk); W.Done? && W.st.found.None?
    ensures WalkElse(els, sc, st, tk).v <==> AllReturnElse(els)
    decreases els
  {
    match els
    case NoElse =>
    case ElseBlock(b) => AllReturnWalk(b, sc, st, tk);
    case ElseIf(e) => AllReturnExprWalk(e, sc, st, tk);
  }

  /** A statement the walk passed without a finding: under a model of the facts it left behind, the
      run passes it too, or traps. */
  lemma {:induction false} PassStmt(u: Site, s: Stmt, sc: Scope, env: Env, st: St, m: Model)
    requires u.Ok() && DecisiveStmt(s) && RegularStmt(s, u.top.Keys, false) && Tracks(sc, env, m) && st.found.None?
    requires var W := WalkStmt(s, sc, st, u.tk);
             W.Done? && W.st.found.None? && !W.v.0.Returns? && (W.v.0.ContinuesUnder? ==> True(W.v.0.f, m))
    ensures var W, R := WalkStmt(s, sc, st, u.tk), ExecOne(s, env, u.fr, u.fuel);
            (R.Val? && Tracks(W.v.1, R.v.0, m)) || (R == Trap && !(LetsKeptStmt(s) && AllTrue(W.st.facts, m)))
  {
    match s
    case Let(_, _, _) => PassLet(u, s, sc, env, st, m);
    case ExprStmt(e) => if e.If? { PassIf(u, e, sc, env, st, m); } else { FwdStmt(s, u.top.Keys, sc, env, st, u.tk, m, u.fr, u.fuel); }
    case _ => FwdStmt(s, u.top.Keys, sc, env, st, u.tk, m, u.fr, u.fuel);
  }

  /** The facts keep the bounds of a `let`, so its guard does not trap. */
  lemma PassLet(u: Site, s: Stmt, sc: Scope, env: Env, st: St, m: Model)
    requires s.Let? && u.Ok() && DecisiveStmt(s) && RegularStmt(s, u.top.Keys, false) && Tracks(sc, env, m) && st.found.None?
    requires WalkStmt(s, sc, st, u.tk).Done?
    ensures var W, R := WalkStmt(s, sc, st, u.tk), ExecOne(s, env, u.fr, u.fuel);
            (R.Val? && Tracks(W.v.1, R.v.0, m)) || (R == Trap && !(LetFree(s.value) && AllTrue(W.st.facts, m)))
  {
    FwdInt(s.value, u.top.Keys, sc, env, st, u.tk, m, u.fr, u.fuel);
    var W1 := WalkInt(s.value, sc, st, u.tk);
    if AllTrue(WithBounds(W1.st, W1.v, s.ty).facts, m) { InBounds(W1.st, W1.v, s.ty, m); }
  }

  lemma {:induction false} PassIf(u: Site, e: Expr, sc: Scope, env: Env, st: St, m: Model)
    requires e.If? && u.Ok() && DecisiveExpr(e) && Regular(e, u.top.Keys, false) && Tracks(sc, env, m) && st.found.None?
    requires var W := WalkExprStmt(e, sc, st, u.tk);
             W.Done? && W.st.found.None? && !W.v.Returns? && (W.v.ContinuesUnder? ==> True(W.v.f, m))
    ensures var R := EvalIf(e, env, u.fr, u.fuel); R.Val? || (R == Trap && !LetsKeptExpr(e))
  {
    var ps := u.top.Keys;
    FwdBool(e.cond, ps, sc, env, st, u.tk, m, u.fr, u.fuel);
    var W1 := WalkBool(e.cond, sc, st, u.tk);
    var s1 := W1.st.Assert(W1.v);
    var W2 := WalkStmts(e.thn, sc, s1, u.tk);
    if Passes(e.thn) {
      FwdStmts(e.thn, ps, sc, env, UnitV, s1, u.tk, m, u.fr, u.fuel);
    } else {
      AllReturnWalk(e.thn, sc, s1, u.tk);
    }
    PassElse(u, e.els, sc, env, W2.st.PopTo(W1.st).Assert(NotF(W1.v)), m);
  }

  lemma {:induction false} PassElse(u: Site, els: Else, sc: Scope, env: Env, st: St, m: Model)
    requires u.Ok() && DecisiveElse(els) && RegularElse(els, u.top.Keys, false) && Tracks(sc, env, m) && st.found.None?
    requires var W := WalkElse(els, sc, st, u.tk); W.Done? && W.st.found.None?
    ensures var W, R := WalkElse(els, sc, st, u.tk), EvalElse(els, env, u.fr, u.fuel);
            W.v || R.Val? || (R == Trap && !LetsKeptElse(els))
  {
    match els
    case NoElse =>
    case ElseBlock(b) =>
      if Passes(b) {
        FwdStmts(b, u.top.Keys, sc, env, UnitV, st, u.tk, m, u.fr, u.fuel);
      } else {
        AllReturnWalk(b, sc, st, u.tk);
      }
    case ElseIf(e) =>
      if Straight(e) {
        FwdExprStmt(e, u.top.Keys, sc, env, st, u.tk, m, u.fr, u.fuel);
      } else {
        AllReturnExprWalk(e, sc, st, u.tk);
      }
  }

  lemma {:induction false} FindCheck(u: Site, clauses: seq<Expr>, t: Term, sc: Scope, st: St) returns (m: Model)
    requires u.Ok() && u.Keeps(sc) && st.found.None? && |clauses| <= |u.tk.post| && forall c :: c in clauses ==> c in u.tk.post
    requires var W := CheckReturn(clauses, t, sc, st, u.tk); W.Done? && W.st.found.Some?
    ensures AllTrue(st.facts, m)
    ensures var v := CheckReturn(clauses, t, sc, st, u.tk).st.found.value; u.Reports(v, m) && u.Exhibits(v, TermVal(t, m), m)
    decreases |clauses|
  {
    var c, sc2 := clauses[0], sc["result" := t];
    PlainKeeps(c, sc2, st, u.tk.ForClause());
    var q := WalkBool(c, sc2, st, u.tk.ForClause()).v;
    var asked := st.facts + [NotF(q)];
    if u.tk.oracle(asked).Sat? {
      m := u.tk.oracle(asked).model;
      assert AllTrue(asked, m) && True(asked[|st.facts|], m);
      Prefix(st.facts, asked, m);
      PlainBool(c, sc2, u.Args(m)["result" := IntV(TermVal(t, m))], st, u.tk.ForClause(), m, Frame(u.fr.fns, Ty.Bool, false), 0);
    } else {
      m := FindCheck(u, clauses[1..], t, sc, st);
    }
  }

  /** Every run from an environment the model describes comes to the `return` of `w`. */
  ghost predicate Leads(u: Site, b: seq<Stmt>, sc: Scope, m: Model, w: int) {
    forall env: Env, last: Value {:trigger Exec(b, env, last, u.fr, u.fuel)} ::
      Tracks(sc, env, m) ==> u.Ends(Exec(b, env, last, u.fr, u.fuel), w, LetsKept(b))
  }

  ghost predicate LeadsOne(u: Site, s: Stmt, sc: Scope, m: Model, w: int) {
    forall env: Env {:trigger ExecOne(s, env, u.fr, u.fuel)} ::
      Tracks(sc, env, m) ==> u.Ends(ExecOne(s, env, u.fr, u.fuel), w, LetsKeptStmt(s))
  }

  ghost predicate LeadsIf(u: Site, e: Expr, sc: Scope, m: Model, w: int)
    requires e.If?
  {
    forall env: Env {:trigger EvalIf(e, env, u.fr, u.fuel)} ::
      Tracks(sc, env, m) ==> u.Ends(EvalIf(e, env, u.fr, u.fuel), w, LetsKeptExpr(e))
  }

  ghost predicate LeadsElse(u: Site, els: Else, sc: Scope, m: Model, w: int) {
    forall env: Env {:trigger EvalElse(els, env, u.fr, u.fuel)} ::
      Tracks(sc, env, m) ==> u.Ends(EvalElse(els, env, u.fr, u.fuel), w, LetsKeptElse(els))
  }

  lemma {:induction false} FindStmts(u: Site, b: seq<Stmt>, sc: Scope, st: St) returns (m: Model, w: int)
    requires u.Ok() && Decisive(b) && RegularBlock(b, u.top.Keys, false) && u.Keeps(sc) && st.found.None?
    requires var W := WalkStmts(b, sc, st, u.tk); W.Done? && W.st.found.Some?
    ensures AllTrue(st.facts, m)
    ensures var v := WalkStmts(b, sc, st, u.tk).st.found.value; u.Reports(v, m) && u.Exhibits(v, w, m)
    ensures Leads(u, b, sc, m, w)
    decreases b
  {
    var W1 := WalkStmt(b[0], sc, st, u.tk);
    if W1.st.found.Some? {
      FoundStays(b, sc, st, u.tk);
      m, w := FindStmt(u, b[0], sc, st);
      LeadsHere(u, b, sc, m, w);
    } else {
      var s1 := if W1.v.0.ContinuesUnder? then W1.st.Assert(W1.v.0.f) else W1.st;
      KeepsStmt(u, b[0], sc, st);
      m, w := FindStmts(u, b[1..], W1.v.1, s1);
      Prefix(W1.st.facts, s1.facts, m);
      Prefix(st.facts, s1.facts, m);
      if W1.v.0.ContinuesUnder? { assert True(s1.facts[|W1.st.facts|], m); }
      LeadsLater(u, b, sc, st, m, w);
    }
  }

  lemma FoundStays(b: seq<Stmt>, sc: Scope, st: St, tk: Task)
    requires b != [] && st.found.None? && WalkStmts(b, sc, st, tk).Done? && WalkStmt(b[0], sc, st, tk).st.found.Some?
    ensures WalkStmts(b, sc, st, tk).st.found == WalkStmt(b[0], sc, st, tk).st.found
  {
    var W1 := WalkStmt(b[0], sc, st, tk);
    match W1.v.0 {
      case Continues => assert WalkStmts(b[1..], W1.v.1, W1.st, tk).st.found == W1.st.found;
      case Returns =>
      case ContinuesUnder(f) => assert WalkStmts(b[1..], W1.v.1, W1.st.Assert(f), tk).st.found == W1.st.found;
    }
  }

  lemma LeadsHere(u: Site, b: seq<Stmt>, sc: Scope, m: Model, w: int)
    requires b != [] && LeadsOne(u, b[0], sc, m, w)
    ensures Leads(u, b, sc, m, w)
  {
    forall env: Env, last: Value | Tracks(sc, env, m) ensures u.Ends(Exec(b, env, last, u.fr, u.fuel), w, LetsKept(b)) {
      assert u.Ends(ExecOne(b[0], env, u.fr, u.fuel), w, LetsKeptStmt(b[0]));
    }
  }

  lemma LeadsLater(u: Site, b: seq<Stmt>, sc: Scope, st: St, m: Model, w: int)
    requires b != [] && u.Ok() && DecisiveStmt(b[0]) && RegularStmt(b[0], u.top.Keys, false) && st.found.None?
    requires var W := WalkStmt(b[0], sc, st, u.tk);
             W.Done? && W.st.found.None? && !W.v.0.Returns? && (W.v.0.ContinuesUnder? ==> True(W.v.0.f, m))
             && AllTrue(W.st.facts, m) && Leads(u, b[1..], W.v.1, m, w)
    ensures Leads(u, b, sc, m, w)
  {
    forall env: Env, last: Value | Tracks(sc, env, m) ensures u.Ends(Exec(b, env, last, u.fr, u.fuel), w, LetsKept(b)) {
      PassStmt(u, b[0], sc, env, st, m);
    }
  }

  lemma KeepsStmt(u: Site, s: Stmt, sc: Scope, st: St)
    requires u.Keeps(sc) && RegularStmt(s, u.top.Keys, false) && WalkStmt(s, sc, st, u.tk).Done?
    ensures u.Keeps(WalkStmt(s, sc, st, u.tk).v.1)
  {}

  lemma {:induction false} FindStmt(u: Site, s: Stmt, sc: Scope, st: St) returns (m: Model, w: int)
    requires u.Ok() && DecisiveStmt(s) && RegularStmt(s, u.top.Keys, false) && u.Keeps(sc) && st.found.None?
    requires var W := WalkStmt(s, sc, st, u.tk); W.Done? && W.st.found.Some?
    ensures AllTrue(st.facts, m)
    ensures var v := WalkStmt(s, sc, st, u.tk).st.found.value; u.Reports(v, m) && u.Exhibits(v, w, m)
    ensures LeadsOne(u, s, sc, m, w)
    decreases s
  {
    if s.Return? && s.result.Some? {
      m, w := FindReturn(u, s, sc, st);
    } else if s.ExprStmt? && s.e.If? {
      m, w := FindIf(u, s.e, sc, st);
      forall env: Env | Tracks(sc, env, m) ensures u.Ends(ExecOne(s, env, u.fr, u.fuel), w, LetsKeptStmt(s)) {
        assert u.Ends(EvalIf(s.e, env, u.fr, u.fuel), w, LetsKeptExpr(s.e));
      }
    } else {
      m, w := map[], 0;
      if !s.Return? { FwdStmt(s, u.top.Keys, sc, EnvOf(sc, m), st, u.tk, m, u.fr, u.fuel); }
      assert false;
    }
  }

  lemma FindReturn(u: Site, s: Stmt, sc: Scope, st: St) returns (m: Model, w: int)
    requires s.Return? && s.result.Some? && u.Ok() && DecisiveStmt(s) && RegularStmt(s, u.top.Keys, false) && u.Keeps(sc) && st.found.None?
    requires var W := WalkStmt(s, sc, st, u.tk); W.Done? && W.st.found.Some?
    ensures AllTrue(st.facts, m)
    ensures var v := WalkStmt(s, sc, st, u.tk).st.found.value; u.Reports(v, m) && u.Exhibits(v, w, m)
    ensures LeadsOne(u, s, sc, m, w)
  {
    var e, ps := s.result.value, u.top.Keys;
    FwdInt(e, ps, sc, EnvOf(sc, map[]), st, u.tk, map[], u.fr, u.fuel);
    var W1 := WalkInt(e, sc, st, u.tk);
    m := FindCheck(u, u.tk.post, W1.v, sc, W1.st);
    w := TermVal(W1.v, m);
    Prefix(st.facts, W1.st.facts, m);
    forall env: Env | Tracks(sc, env, m) ensures u.Ends(ExecOne(s, env, u.fr, u.fuel), w, LetsKeptStmt(s)) {
      FwdInt(e, ps, sc, env, st, u.tk, m, u.fr, u.fuel);
    }
  }

  lemma {:induction false} FindIf(u: Site, e: Expr, sc: Scope, st: St) returns (m: Model, w: int)
    requires e.If? && u.Ok() && DecisiveExpr(e) && Regular(e, u.top.Keys, false) && u.Keeps(sc) && st.found.None?
    requires var W := WalkExprStmt(e, sc, st, u.tk); W.Done? && W.st.found.Some?
    ensures AllTrue(st.facts, m)
    ensures var v := WalkExprStmt(e, sc, st, u.tk).st.found.value; u.Reports(v, m) && u.Exhibits(v, w, m)
    ensures LeadsIf(u, e, sc, m, w)
    decreases e
  {
    FwdBool(e.cond, u.top.Keys, sc, EnvOf(sc, map[]), st, u.tk, map[], u.fr, u.fuel);
    var W1 := WalkBool(e.cond, sc, st, u.tk);
    var s1 := W1.st.Assert(W1.v);
    var W2 := WalkStmts(e.thn, sc, s1, u.tk);
    if W2.st.found.Some? {
      NotPassed(u, e.thn, sc, s1);
      m, w := FindStmts(u, e.thn, sc, s1);
      assert True(s1.facts[|W1.st.facts|], m);
      Prefix(st.facts, s1.facts, m);
      LeadsThen(u, e, sc, st, m, w);
    } else {
      var s3 := W2.st.PopTo(W1.st).Assert(NotF(W1.v));
      m, w := FindElse(u, e.els, sc, s3);
      assert True(s3.facts[|W1.st.facts|], m);
      Prefix(st.facts, s3.facts, m);
      LeadsToElse(u, e, sc, st, m, w);
    }
  }

  /** A block without `return` finds nothing. */
  lemma NotPassed(u: Site, b: seq<Stmt>, sc: Scope, st: St)
    requires RegularBlock(b, u.top.Keys, u.fr.audited) && st.found.None?
    requires var W := WalkStmts(b, sc, st, u.tk); W.Done? && W.st.found.Some?
    ensures !Passes(b)
  {
    if Passes(b) { FwdStmts(b, u.top.Keys, sc, EnvOf(sc, map[]), UnitV, st, u.tk, map[], u.fr, u.fuel); }
  }

  lemma LeadsThen(u: Site, e: Expr, sc: Scope, st: St, m: Model, w: int)
    requires e.If? && Straight(e.cond) && Regular(e.cond, u.top.Keys, u.fr.audited) && st.found.None?
    requires var W := WalkBool(e.cond, sc, st, u.tk); W.Done? && True(W.v, m)
    requires !Passes(e.thn) && Leads(u, e.thn, sc, m, w)
    ensures LeadsIf(u, e, sc, m, w)
  {
    forall env: Env | Tracks(sc, env, m) ensures u.Ends(EvalIf(e, env, u.fr, u.fuel), w, LetsKeptExpr(e)) {
      FwdBool(e.cond, u.top.Keys, sc, env, st, u.tk, m, u.fr, u.fuel);
      assert u.Ends(Exec(e.thn, env, UnitV, u.fr, u.fuel), w, LetsKept(e.thn));
    }
  }

  lemma LeadsToElse(u: Site, e: Expr, sc: Scope, st: St, m: Model, w: int)
    requires e.If? && Straight(e.cond) && Regular(e.cond, u.top.Keys, u.fr.audited) && st.found.None?
    requires var W := WalkBool(e.cond, sc, st, u.tk); W.Done? && !True(W.v, m)
    requires LeadsElse(u, e.els, sc, m, w)
    ensures LeadsIf(u, e, sc, m, w)
  {
    forall env: Env | Tracks(sc, env, m) ensures u.Ends(EvalIf(e, env, u.fr, u.fuel), w, LetsKeptExpr(e)) {
      FwdBool(e.cond, u.top.Keys, sc, env, st, u.tk, m, u.fr, u.fuel);
      assert u.Ends(EvalElse(e.els, env, u.fr, u.fuel), w, LetsKeptElse(e.els));
    }
  }

  lemma {:induction false} FindElse(u: Site, els: Else, sc: Scope, st: St) returns (m: Model, w: int)
    requires u.Ok() && DecisiveElse(els) && RegularElse(els, u.top.Keys, false) && u.Keeps(sc) && st.found.None?
    requires var W := WalkElse(els, sc, st, u.tk); W.Done? && W.st.found.Some?
    ensures AllTrue(st.facts, m)
    ensures var v := WalkElse(els, sc, st, u.tk).st.found.value; u.Reports(v, m) && u.Exhibits(v, w, m)
    ensures LeadsElse(u, els, sc, m, w)
    decreases els
  {
    match els
    case ElseBlock(b) =>
      NotPassed(u, b, sc, st);
      m, w := FindStmts(u, b, sc, st);
      forall env: Env | Tracks(sc, env, m) ensures u.Ends(EvalElse(els, env, u.fr, u.fuel), w, LetsKeptElse(els)) {
        assert u.Ends(Exec(b, env, UnitV, u.fr, u.fuel), w, LetsKept(b));
      }
    case ElseIf(e) =>
      if Straight(e) { FwdExprStmt(e, u.top.Keys, sc, EnvOf(sc, map[]), st, u.tk, map[], u.fr, u.fuel); }
      m, w := FindIf(u, e, sc, st);
      forall env: Env | Tracks(sc, env, m) ensures u.Ends(EvalElse(els, env, u.fr, u.fuel), w, LetsKeptElse(els)) {
        assert u.Ends(EvalIf(e, env, u.fr, u.fuel), w, LetsKeptExpr(e));
      }
  }

  // ---------------------------------------------------------------- the theorem

  lemma InBounds(st: St, t: Term, ty: Ty, m: Model)
    requires AllTrue(WithBounds(st, t, ty).facts, m)
    ensures ty.InRange(TermVal(t, m))
  {
    var facts, n := WithBounds(st, t, ty).facts, |st.facts|;
    assert True(facts[n], m) && True(facts[n + 1], m);
    assert True(Cmp(GeC, t, Const(ty.Lo())), m) && True(Cmp(LeC, t, Const(ty.Hi())), m);
  }

  /** The arguments a model stands for, by position. */
  lemma ReadArgs(params: seq<Param>, m: Model) returns (vs: seq<Value>)
    requires AllTrue(EnterParams(params, Start).1.facts, m) && forall p :: p in params ==> p.ty.IsInteger()
    ensures |vs| == |params| && Bind(params, vs, false) == Val(EnvOf(EnterParams(params, Start).0, m))
    ensures forall x :: x in EnterParams(params, Start).0 ==>
              exists p :: p in params && p.name == x && p.ty.InRange(TermVal(EnterParams(params, Start).0[x], m))
  {
    vs := [];
    var (sc, st) := EnterParams(params, Start);
    if params != [] {
      var n := |params| - 1;
      var (sc0, st0) := EnterParams(params[..n], Start);
      var v := At(m, st0.next);
      Prefix(st0.facts, st.facts, m);
      InBounds(st0.(next := st0.next + 1), Sym(st0.next), params[n].ty, m);
      var vs0 := ReadArgs(params[..n], m);
      vs := vs0 + [IntV(v)];
      assert vs[..n] == vs0;
      assert sc == sc0[params[n].name := Sym(st0.next)] && params[n] in params;
      assert EnvOf(sc, m) == EnvOf(sc0, m)[params[n].name := IntV(v)];
      assert params[n].ty.InRange(v);
      assert Store(params[n].ty, IntV(v), false) == Val(IntV(v));
    } else {
      assert EnvOf(sc, m) == map[];
    }
  }

  /** Assuming the preconditions adds their formulas, so a model of the facts satisfies them. */
  lemma {:induction false} PreHold(pre: seq<Expr>, sc: Scope, st: St, tk: Task, m: Model, fns: Program)
    requires AllPlain(pre) && AssumePre(pre, sc, st, tk).Done? && AllTrue(AssumePre(pre, sc, st, tk).st.facts, m)
    ensures AllHold(pre, EnvOf(sc, m), fns) && AllTrue(st.facts, m) && AssumePre(pre, sc, st, tk).st.found == st.found
  {
    if pre != [] {
      PlainBool(pre[0], sc, EnvOf(sc, m), st, tk.ForClause(), m, Frame(fns, Ty.Bool, false), 0);
      var f := WalkBool(pre[0], sc, st, tk.ForClause()).v;
      PreHold(pre[1..], sc, st.Assert(f), tk, m, fns);
      assert True(st.Assert(f).facts[|st.facts|], m);
      Prefix(st.facts, st.Assert(f).facts, m);
    }
  }

  /** What makes a reported violation genuine: arguments of the declared types that satisfy every
      `pre` and read the reported bindings, and on which the body comes to return the reported value, a
      value that violates the reported clause. */
  ghost predicate Genuine(f: FnDecl, pre: seq<Expr>, post: seq<Expr>, v: Violation, fns: Program, fuel: nat) {
    exists vs: seq<Value>, env: Env, w: int :: |vs| == |f.params| && GenuineOn(f, pre, post, v, fns, fuel, vs, env, w)
  }

  /** At the `return` the value is held to its type, so the run delivers it just when the report names a
      value of that type; where a `let` is not kept up to the `return`, a run may have trapped there. */
  ghost predicate GenuineOn(f: FnDecl, pre: seq<Expr>, post: seq<Expr>, v: Violation, fns: Program, fuel: nat,
                            vs: seq<Value>, env: Env, w: int)
    requires |vs| == |f.params|
  {
    && Bind(f.params, vs, false) == Val(env) && AllHold(pre, env, fns)
    && (forall p :: p in env && p != "result" ==> p in v.bindings && env[p] == IntV(v.bindings[p]))
    && v.clause in post && v.result == AsI64(w) && !Holds(v.clause, env["result" := IntV(w)], fns)
    && (var R := RunBody(f, env, fns, fuel);
        (LetsKept(f.body) && Typed(f, v) ==> R == Val(IntV(w))) && (!Typed(f, v) ==> R == Trap) && (R == Trap || R == Val(IntV(w))))
  }

  /** The reported value is one of the function's return type. */
  predicate Typed(f: FnDecl, v: Violation) { v.result.Some? && f.ret.InRange(v.result.value) }

  lemma CounterexampleIsGenuine(f: FnDecl, pre: seq<Expr>, tk: Task, fns: Program, fuel: nat)
    requires CheckContract(f, pre, tk).Counterexample? && Checkable(f, pre, tk.post) && Decisive(f.body)
    requires Honest(tk.oracle)
    ensures Genuine(f, pre, tk.post, CheckContract(f, pre, tk).v, fns, fuel)
  {
    var v := CheckContract(f, pre, tk).v;
    var (sc, st) := EnterParams(f.params, Start);
    var s1 := AssumePre(pre, sc, st, tk).st;
    UnboundEmpty(pre + tk.post, ParamNames(f.params) + {"result"});
    EnterKeys(f.params);
    var u := Site(sc, tk, Frame(fns, f.ret, false), fuel);
    NothingFound(pre, sc, st, tk);
    var m, w := FindStmts(u, f.body, sc, s1);
    PreHold(pre, sc, st, tk, m, fns);
    FromModel(u, f, pre, v, m, w);
  }

  lemma FromModel(u: Site, f: FnDecl, pre: seq<Expr>, v: Violation, m: Model, w: int)
    requires u.top == EnterParams(f.params, Start).0 && u.fr == Frame(u.fr.fns, f.ret, false) && f.ret.IsInteger()
    requires AllTrue(EnterParams(f.params, Start).1.facts, m) && forall p :: p in f.params ==> p.ty.IsInteger()
    requires AllHold(pre, EnvOf(u.top, m), u.fr.fns) && u.Reports(v, m) && u.Exhibits(v, w, m) && Leads(u, f.body, u.top, m, w)
    ensures Genuine(f, pre, u.tk.post, v, u.fr.fns, u.fuel)
  {
    var vs := ReadArgs(f.params, m);
    var env := EnvOf(u.top, m);
    BindingsRead(u, f, v, m);
    EndsInBody(u, f, env, v, w) by { assert u.Ends(Exec(f.body, env, UnitV, u.fr, u.fuel), w, LetsKept(f.body)); }
    assert GenuineOn(f, pre, u.tk.post, v, u.fr.fns, u.fuel, vs, env, w);
  }

  lemma BindingsRead(u: Site, f: FnDecl, v: Violation, m: Model)
    requires u.Reports(v, m)
    requires forall x :: x in u.top ==> exists p :: p in f.params && p.name == x && p.ty.InRange(TermVal(u.top[x], m))
    ensures var env := EnvOf(u.top, m); forall p :: p in env && p != "result" ==> p in v.bindings && env[p] == IntV(v.bindings[p])
  {
    var env := EnvOf(u.top, m);
    forall p | p in env && p != "result" ensures p in v.bindings && env[p] == IntV(v.bindings[p]) {
      assert I64.InRange(TermVal(u.top[p], m));
    }
  }

  lemma EndsInBody(u: Site, f: FnDecl, env: Env, v: Violation, w: int)
    requires u.fr == Frame(u.fr.fns, f.ret, false) && f.ret.IsInteger() && v.result == AsI64(w)
    requires u.Ends(Exec(f.body, env, UnitV, u.fr, u.fuel), w, LetsKept(f.body))
    ensures var R := RunBody(f, env, u.fr.fns, u.fuel);
            (LetsKept(f.body) && Typed(f, v) ==> R == Val(IntV(w))) && (!Typed(f, v) ==> R == Trap) && (R == Trap || R == Val(IntV(w)))
  {
    assert Typed(f, v) <==> f.ret.InRange(w);
  }

  lemma EnterKeys(params: seq<Param>)
    ensures EnterParams(params, Start).0.Keys == ParamNames(params) && EnterParams(params, Start).1.found.None?
  {
    if params != [] {
      var n := |params| - 1;
      EnterKeys(params[..n]);
      assert params == params[..n] + [params[n]];
    }
  }

  lemma NothingFound(pre: seq<Expr>, sc: Scope, st: St, tk: Task)
    requires AllPlain(pre) && AssumePre(pre, sc, st, tk).Done?
    ensures AssumePre(pre, sc, st, tk).st.found == st.found
  {
    if pre != [] {
      PlainKeeps(pre[0], sc, st, tk.ForClause());
      NothingFound(pre[1..], sc, st.Assert(WalkBool(pre[0], sc, st, tk.ForClause()).v), tk);
    }
  }
}
