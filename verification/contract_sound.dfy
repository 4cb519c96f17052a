/** Soundness of the walker: a run that neither traps nor gets stuck stays inside the facts the
    walker has collected, so a `return` the walker accepted satisfies every postcondition. */
module ContractSound {
  import opened Prelude
  import opened Types
  import opened ContractLanguage
  import opened ContractWalker
  import opened ContractFresh

  // ---------------------------------------------------------------- what is asked of a program

  /** No calls and no blocks: the shape of a contract clause. */
  predicate Plain(e: Expr) {
    match e
    case Int(_) | Bool(_) | Ident(_) => true
    case Unary(_, a) => Plain(a)
    case Binary(_, l, r) => Plain(l) && Plain(r)
    case _ => false
  }

  predicate AllPlain(es: seq<Expr>) { forall e :: e in es ==> Plain(e) }

  /** No call anywhere in an expression, its blocks included. */
  predicate CallFree(e: Expr) {
    match e
    case Unary(_, a) => CallFree(a)
    case Binary(_, l, r) => CallFree(l) && CallFree(r)
    case If(c, thn, els) =>
      CallFree(c) && CallFreeBlock(thn) && CallFreeElse(els)
    case Call(_, _) => false
    case _ => true
  }

  predicate CallFreeElse(els: Else) {
    match els case NoElse => true case ElseBlock(b) => CallFreeBlock(b) case ElseIf(e) => CallFree(e)
  }

  predicate CallFreeBlock(b: seq<Stmt>) { b == [] || (CallFreeStmt(b[0]) && CallFreeBlock(b[1..])) }

  predicate CallFreeStmt(s: Stmt) {
    match s
    case Let(_, _, e) => CallFree(e)
    case Return(Some(e)) => CallFree(e)
    case Return(None) => true
    case While(c, b) => CallFree(c) && CallFreeBlock(b)
    case ExprStmt(e) => CallFree(e)
    case Audited(b) => CallFreeBlock(b)
  }

  /** What soundness needs of a body: no `let` reuses a parameter's name (`ps`), no call sits in the
      short-circuited operand of `&&`/`||`, and no guarded operation sits inside `audited`. */
  predicate Regular(e: Expr, ps: set<string>, audited: bool) {
    match e
    case Unary(_, a) => Regular(a, ps, audited)
    case Binary(op, l, r) =>
      Regular(l, ps, audited) && Regular(r, ps, audited) && (op.IsLogic() ==> CallFree(r))
    case If(c, thn, els) =>
      Regular(c, ps, audited) && RegularBlock(thn, ps, audited)
      && RegularElse(els, ps, audited)
    case Call(_, args) => !audited && RegularAll(args, ps, audited)
    case _ => true
  }

  predicate RegularElse(els: Else, ps: set<string>, audited: bool) {
    match els
    case NoElse => true
    case ElseBlock(b) => RegularBlock(b, ps, audited)
    case ElseIf(e) => Regular(e, ps, audited)
  }

  predicate RegularAll(es: seq<Expr>, ps: set<string>, audited: bool) {
    es == [] || (Regular(es[0], ps, audited) && RegularAll(es[1..], ps, audited))
  }

  predicate RegularBlock(b: seq<Stmt>, ps: set<string>, audited: bool) {
    b == [] || (RegularStmt(b[0], ps, audited) && RegularBlock(b[1..], ps, audited))
  }

  predicate RegularStmt(s: Stmt, ps: set<string>, audited: bool) {
    match s
    case Let(x, _, e) => !audited && x !in ps && Regular(e, ps, audited)
    case Return(Some(e)) => !audited && Regular(e, ps, audited)
    case Return(None) => true
    case While(c, b) => Regular(c, ps, audited) && RegularBlock(b, ps, audited)
    case ExprStmt(e) => Regular(e, ps, audited)
    case Audited(b) => RegularBlock(b, ps, true)
  }

  // ---------------------------------------------------------------- what a contract means

  ghost predicate AllHold(es: seq<Expr>, env: Env, fns: Program) {
    forall e :: e in es ==> Holds(e, env, fns)
  }

  /** Every run of `d` within `fuel` that ends: its value fits the return type and, if the
      arguments met every `pre`, it meets every `post`. */
  ghost predicate Honours(d: FnDecl, pre: seq<Expr>, post: seq<Expr>, fns: Program, fuel: nat) {
    forall vs: seq<Value>, env: Env, w: Value ::
      |vs| == |d.params| && Bind(d.params, vs, false) == Val(env) && RunBody(d, env, fns, fuel) == Val(w) ==>
        w.IntV? && d.ret.InRange(w.i)
        && (AllHold(pre, env, fns) ==> AllHold(post, env["result" := w], fns))
  }

  ghost predicate SummaryOk(name: string, sm: Summary, fns: Program, fuel: nat) {
    var d := FindFn(fns, name);
    d.Some? && d.value.params == sm.params && d.value.ret == sm.ret && AllPlain(sm.pre) && AllPlain(sm.post)
    && (forall p :: p in sm.params ==> p.ty.IsInteger())
    && forall j: nat :: j < fuel ==> Honours(d.value, sm.pre, sm.post, fns, j)
  }

  ghost predicate SummariesOk(S: map<string, Summary>, fns: Program, fuel: nat) {
    forall g :: g in S ==> SummaryOk(g, S[g], fns, fuel)
  }

  // ---------------------------------------------------------------- the simulation

  /** A checking problem on one run: the parameters, their values, where the code runs. */
  datatype Run = Run(ps: set<string>, args: Env, fr: Frame, fuel: nat, tk: Task) {
    ghost predicate Ok() {
      Honest(tk.oracle) && SummariesOk(tk.summaries, fr.fns, fuel) && fr.ret.IsInteger()
      && (forall c :: c in tk.post ==> Plain(c) && Idents(c) <= ps + {"result"})
    }
    /** What `return w` has to deliver. */
    ghost predicate Meets(w: Value) {
      w.IntV? && forall c :: c in tk.post ==> Holds(c, args["result" := w], fr.fns)
    }
  }

  /** The model `m` satisfies the facts, and the run's environment is the scope read in `m`. */
  ghost predicate Here(u: Run, sc: Scope, env: Env, st: St, m: Model) {
    FreshScope(sc, st.next) && FreshSt(st) && AllTrue(st.facts, m)
    && (forall x :: x in sc ==> x in env && env[x] == IntV(TermVal(sc[x], m)))
    && (forall p :: p in u.ps ==> p in sc && p in env && p in u.args && env[p] == u.args[p])
  }

  lemma Prefix(a: seq<Formula>, b: seq<Formula>, m: Model)
    requires a <= b && AllTrue(b, m)
    ensures AllTrue(a, m)
  {
    forall i | 0 <= i < |a| ensures True(a[i], m) { assert a[i] == b[i]; }
  }

  lemma Forward(u: Run, sc: Scope, env: Env, st: St, m: Model, st2: St, m2: Model)
    requires Here(u, sc, env, st, m) && Agree(m, m2, st.next) && st.next <= st2.next
    requires FreshSt(st2) && AllTrue(st2.facts, m2)
    ensures Here(u, sc, env, st2, m2)
  {
    RaiseScope(sc, st.next, st2.next);
    forall x | x in sc ensures env[x] == IntV(TermVal(sc[x], m2)) { SameT(sc[x], st.next, m, m2); }
  }

  /** The environment reads like the scope, on the names a clause mentions. */
  ghost predicate Reads(e: Expr, sc: Scope, env: Env, m: Model) {
    forall x :: x in Idents(e) && x in sc ==> x in env && env[x] == IntV(TermVal(sc[x], m))
  }

  /** A plain clause: the walk adds nothing, and its formula says what evaluation says. */
  lemma {:induction false} PlainBool(e: Expr, sc: Scope, env: Env, st: St, tk: Task, m: Model, fr: Frame, fuel: nat)
    requires Plain(e) && WalkBool(e, sc, st, tk).Done? && Reads(e, sc, env, m)
    ensures WalkBool(e, sc, st, tk).st == st
    ensures Eval(e, env, fr, fuel) == Val(BoolV(True(WalkBool(e, sc, st, tk).v, m)))
    decreases e, 1
  {
    match e
    case Unary(Not, a) => PlainBool(a, sc, env, st, tk, m, fr, fuel);
    case Binary(op, l, r) =>
      if op.IsLogic() || (op.IsEquality() && IsBoolShaped(l) && IsBoolShaped(r)) {
        PlainConnect(e, sc, env, st, tk, m, fr, fuel);
      } else {
        PlainPair(e, sc, env, st, tk, m, fr, fuel);
      }
    case _ =>
  }

  lemma {:induction false} PlainConnect(e: Expr, sc: Scope, env: Env, st: St, tk: Task, m: Model, fr: Frame, fuel: nat)
    requires e.Binary? && Plain(e) && WalkBool(e, sc, st, tk).Done? && Reads(e, sc, env, m)
    requires e.op.IsLogic() || (e.op.IsEquality() && IsBoolShaped(e.l) && IsBoolShaped(e.r))
    ensures WalkBool(e, sc, st, tk).st == st
    ensures Eval(e, env, fr, fuel) == Val(BoolV(True(WalkBool(e, sc, st, tk).v, m)))
    decreases e, 0
  {
    PlainBool(e.l, sc, env, st, tk, m, fr, fuel);
    PlainBool(e.r, sc, env, st, tk, m, fr, fuel);
  }

  lemma {:induction false} PlainPair(e: Expr, sc: Scope, env: Env, st: St, tk: Task, m: Model, fr: Frame, fuel: nat)
    requires e.Binary? && Plain(e) && WalkInt(e.l, sc, st, tk).Done? && Reads(e, sc, env, m)
    requires WalkInt(e.r, sc, WalkInt(e.l, sc, st, tk).st, tk).Done?
    ensures WalkInt(e.l, sc, st, tk).st == st && WalkInt(e.r, sc, st, tk).Done? && WalkInt(e.r, sc, st, tk).st == st
    ensures Eval(e.l, env, fr, fuel) == Val(IntV(TermVal(WalkInt(e.l, sc, st, tk).v, m)))
    ensures Eval(e.r, env, fr, fuel) == Val(IntV(TermVal(WalkInt(e.r, sc, st, tk).v, m)))
    decreases e, 0
  {
    PlainInt(e.l, sc, env, st, tk, m, fr, fuel);
    PlainInt(e.r, sc, env, st, tk, m, fr, fuel);
  }

  lemma {:induction false} PlainInt(e: Expr, sc: Scope, env: Env, st: St, tk: Task, m: Model, fr: Frame, fuel: nat)
    requires Plain(e) && WalkInt(e, sc, st, tk).Done? && Reads(e, sc, env, m)
    ensures WalkInt(e, sc, st, tk).st == st
    ensures Eval(e, env, fr, fuel) == Val(IntV(TermVal(WalkInt(e, sc, st, tk).v, m)))
    decreases e, 1
  {
    match e
    case Unary(Neg, a) => PlainInt(a, sc, env, st, tk, m, fr, fuel);
    case Binary(op, l, r) => PlainPair(e, sc, env, st, tk, m, fr, fuel);
    case _ =>
  }

  /** Walking a call-free expression leaves the facts and the symbol counter as they were. */
  lemma {:induction false} CallFreeInt(e: Expr, sc: Scope, st: St, tk: Task)
    requires AllPlain(tk.post) && CallFree(e) && WalkInt(e, sc, st, tk).Done?
    ensures var s := WalkInt(e, sc, st, tk).st; s.facts == st.facts && s.next == st.next
    decreases e, 0
  {
    match e
    case Unary(_, a) => CallFreeInt(a, sc, st, tk);
    case Binary(op, l, r) => CallFreeInt(l, sc, st, tk); CallFreeInt(r, sc, WalkInt(l, sc, st, tk).st, tk);
    case If(c, thn, els) =>
      CallFreeBool(c, sc, st, tk);
      var W1 := WalkBool(c, sc, st, tk);
      CallFreeValue(thn, sc, W1.st.Assert(W1.v), tk);
      var s2 := WalkBlockValue(thn, sc, W1.st.Assert(W1.v), tk).st;
      CallFreeElseValue(els, sc, s2.PopTo(W1.st).Assert(NotF(W1.v)), tk);
    case _ =>
  }

  lemma {:induction false} CallFreeElseValue(els: Else, sc: Scope, st: St, tk: Task)
    requires AllPlain(tk.post) && CallFreeElse(els) && WalkElseValue(els, sc, st, tk).Done?
    ensures WalkElseValue(els, sc, st, tk).st.next == st.next
    decreases els
  {
    match els
    case ElseBlock(b) => CallFreeValue(b, sc, st, tk);
    case ElseIf(e) => CallFreeInt(e, sc, st, tk);
  }

  lemma {:induction false} CallFreeBool(e: Expr, sc: Scope, st: St, tk: Task)
    requires AllPlain(tk.post) && CallFree(e) && WalkBool(e, sc, st, tk).Done?
    ensures var s := WalkBool(e, sc, st, tk).st; s.facts == st.facts && s.next == st.next
    decreases e, 0
  {
    match e
    case Unary(_, a) => CallFreeBool(a, sc, st, tk);
    case Binary(op, l, r) =>
      if op.IsLogic() || (op.IsEquality() && IsBoolShaped(l) && IsBoolShaped(r)) {
        CallFreeBool(l, sc, st, tk); CallFreeBool(r, sc, WalkBool(l, sc, st, tk).st, tk);
      } else {
        CallFreeInt(l, sc, st, tk); CallFreeInt(r, sc, WalkInt(l, sc, st, tk).st, tk);
      }
    case _ =>
  }

  lemma PlainKeeps(e: Expr, sc: Scope, st: St, tk: Task)
    requires Plain(e) && WalkBool(e, sc, st, tk).Done?
    ensures WalkBool(e, sc, st, tk).st == st
  {
    PlainBool(e, sc, map x | x in sc :: IntV(TermVal(sc[x], map[])), st, tk, map[], Frame([], Ty.Bool, false), 0);
  }

  lemma {:induction false} CheckKeeps(clauses: seq<Expr>, t: Term, sc: Scope, st: St, tk: Task)
    requires |clauses| <= |tk.post| && AllPlain(clauses) && CheckReturn(clauses, t, sc, st, tk).Done?
    ensures var s := CheckReturn(clauses, t, sc, st, tk).st; s.facts == st.facts && s.next == st.next
    decreases clauses
  {
    if clauses != [] && st.found.None? {
      PlainKeeps(clauses[0], sc["result" := t], st, tk.ForClause());
      var W1 := WalkBool(clauses[0], sc["result" := t], st, tk.ForClause());
      CheckKeeps(clauses[1..], t, sc, Ask(clauses[0], W1.v, t, sc, W1.st, tk.oracle), tk);
    }
  }

  lemma CallFreeTake(b: seq<Stmt>, n: nat)
    requires CallFreeBlock(b) && n < |b|
    ensures CallFreeBlock(b[..n]) && CallFreeStmt(b[n])
  {
    if n > 0 { CallFreeTake(b[1..], n - 1); assert b[..n][1..] == b[1..][..n - 1]; }
  }

  lemma {:induction false} CallFreeValue(b: seq<Stmt>, sc: Scope, st: St, tk: Task)
    requires AllPlain(tk.post) && CallFreeBlock(b) && WalkBlockValue(b, sc, st, tk).Done?
    ensures WalkBlockValue(b, sc, st, tk).st.next == st.next
    decreases b
  {
    var n := |b| - 1;
    CallFreeTake(b, n);
    CallFreeStmts(b[..n], sc, st, tk);
    var W1 := WalkStmts(b[..n], sc, st, tk);
    CallFreeTail(b[n], W1.v.1, W1.st, tk);
  }

  lemma {:induction false} CallFreeTail(s: Stmt, sc: Scope, st: St, tk: Task)
    requires AllPlain(tk.post) && CallFreeStmt(s) && WalkTail(s, sc, st, tk).Done?
    ensures WalkTail(s, sc, st, tk).st.next == st.next
    decreases s
  {
    match s case ExprStmt(e) => CallFreeInt(e, sc, st, tk);
  }

  lemma {:induction false} CallFreeStmts(b: seq<Stmt>, sc: Scope, st: St, tk: Task)
    requires AllPlain(tk.post) && CallFreeBlock(b) && WalkStmts(b, sc, st, tk).Done?
    ensures WalkStmts(b, sc, st, tk).st.next == st.next
    decreases b
  {
    if b != [] && st.found.None? {
      CallFreeStmt1(b[0], sc, st, tk);
      var W1 := WalkStmt(b[0], sc, st, tk);
      match W1.v.0 {
        case Continues => CallFreeStmts(b[1..], W1.v.1, W1.st, tk);
        case Returns =>
        case ContinuesUnder(f) => CallFreeStmts(b[1..], W1.v.1, W1.st.Assert(f), tk);
      }
    }
  }

  lemma {:induction false} CallFreeStmt1(s: Stmt, sc: Scope, st: St, tk: Task)
    requires AllPlain(tk.post) && CallFreeStmt(s) && WalkStmt(s, sc, st, tk).Done?
    ensures WalkStmt(s, sc, st, tk).st.next == st.next
    decreases s
  {
    match s
    case Let(_, _, e) => CallFreeInt(e, sc, st, tk);
    case Return(Some(e)) =>
      CallFreeInt(e, sc, st, tk);
      var W1 := WalkInt(e, sc, st, tk);
      CheckKeeps(tk.post, W1.v, sc, W1.st, tk);
    case Return(None) =>
    case ExprStmt(e) => CallFreeExprStmt(e, sc, st, tk);
    case Audited(b) => CallFreeStmts(b, sc, st, tk);
  }

  lemma {:induction false} CallFreeExprStmt(e: Expr, sc: Scope, st: St, tk: Task)
    requires AllPlain(tk.post) && CallFree(e) && WalkExprStmt(e, sc, st, tk).Done?
    ensures WalkExprStmt(e, sc, st, tk).st.next == st.next
    decreases e, 1
  {
    if e.If? {
      CallFreeBool(e.cond, sc, st, tk);
      var W1 := WalkBool(e.cond, sc, st, tk);
      CallFreeStmts(e.thn, sc, W1.st.Assert(W1.v), tk);
      var s3 := WalkStmts(e.thn, sc, W1.st.Assert(W1.v), tk).st.PopTo(W1.st).Assert(NotF(W1.v));
      match e.els {
        case NoElse =>
        case ElseBlock(b) => CallFreeStmts(b, sc, s3, tk);
        case ElseIf(e2) => CallFreeExprStmt(e2, sc, s3, tk);
      }
    } else {
      CallFreeInt(e, sc, st, tk);
    }
  }
}
