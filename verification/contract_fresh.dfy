/** Symbols are never reused: everything the walker builds mentions only symbols it has consumed,
    so a model can be extended for the next symbol without disturbing what it already satisfies. */
module ContractFresh {
  import opened Prelude
  import opened Types
  import opened ContractLanguage
  import opened ContractWalker

  predicate FreshT(t: Term, n: nat) {
    match t
    case Const(_) => true
    case Sym(id) => id < n
    case NegT(a) => FreshT(a, n)
    case AddT(a, b) => FreshT(a, n) && FreshT(b, n)
    case SubT(a, b) => FreshT(a, n) && FreshT(b, n)
    case MulT(a, b) => FreshT(a, n) && FreshT(b, n)
    case Ite(c, a, b) => FreshF(c, n) && FreshT(a, n) && FreshT(b, n)
  }

  predicate FreshF(f: Formula, n: nat) {
    match f
    case Truth(_) => true
    case NotF(g) => FreshF(g, n)
    case AndF(p, q) => FreshF(p, n) && FreshF(q, n)
    case OrF(p, q) => FreshF(p, n) && FreshF(q, n)
    case Iff(p, q) => FreshF(p, n) && FreshF(q, n)
    case EqT(x, y) => FreshT(x, n) && FreshT(y, n)
    case Cmp(_, x, y) => FreshT(x, n) && FreshT(y, n)
  }

  ghost predicate FreshScope(sc: Scope, n: nat) { forall x :: x in sc ==> FreshT(sc[x], n) }

  ghost predicate FreshSt(st: St) {
    forall i :: 0 <= i < |st.facts| ==> FreshF(st.facts[i], st.next)
  }

  ghost predicate FreshTs(ts: seq<Term>, n: nat) { forall i :: 0 <= i < |ts| ==> FreshT(ts[i], n) }

  /** `m2` agrees with `m` on every symbol below `n`. */
  ghost predicate Agree(m: Model, m2: Model, n: nat) {
    forall id: nat :: id < n ==> At(m, id) == At(m2, id)
  }

  lemma {:induction false} RaiseT(t: Term, n: nat, n2: nat)
    requires FreshT(t, n) && n <= n2
    ensures FreshT(t, n2)
  {
    match t
    case NegT(a) => RaiseT(a, n, n2);
    case AddT(a, b) => RaiseT(a, n, n2); RaiseT(b, n, n2);
    case SubT(a, b) => RaiseT(a, n, n2); RaiseT(b, n, n2);
    case MulT(a, b) => RaiseT(a, n, n2); RaiseT(b, n, n2);
    case Ite(c, a, b) => RaiseF(c, n, n2); RaiseT(a, n, n2); RaiseT(b, n, n2);
    case _ =>
  }

  lemma {:induction false} RaiseF(f: Formula, n: nat, n2: nat)
    requires FreshF(f, n) && n <= n2
    ensures FreshF(f, n2)
  {
    match f
    case NotF(g) => RaiseF(g, n, n2);
    case AndF(p, q) => RaiseF(p, n, n2); RaiseF(q, n, n2);
    case OrF(p, q) => RaiseF(p, n, n2); RaiseF(q, n, n2);
    case Iff(p, q) => RaiseF(p, n, n2); RaiseF(q, n, n2);
    case EqT(x, y) => RaiseT(x, n, n2); RaiseT(y, n, n2);
    case Cmp(_, x, y) => RaiseT(x, n, n2); RaiseT(y, n, n2);
    case _ =>
  }

  lemma RaiseScope(sc: Scope, n: nat, n2: nat)
    requires FreshScope(sc, n) && n <= n2
    ensures FreshScope(sc, n2)
  {
    forall x | x in sc ensures FreshT(sc[x], n2) { RaiseT(sc[x], n, n2); }
  }

  lemma RaiseSt(st: St, n2: nat)
    requires FreshSt(st) && st.next <= n2
    ensures FreshSt(st.(next := n2))
  {
    forall i | 0 <= i < |st.facts| ensures FreshF(st.facts[i], n2) { RaiseF(st.facts[i], st.next, n2); }
  }

  lemma {:induction false} SameT(t: Term, n: nat, m: Model, m2: Model)
    requires FreshT(t, n) && Agree(m, m2, n)
    ensures TermVal(t, m) == TermVal(t, m2)
  {
    match t
    case NegT(a) => SameT(a, n, m, m2);
    case AddT(a, b) => SameT(a, n, m, m2); SameT(b, n, m, m2);
    case SubT(a, b) => SameT(a, n, m, m2); SameT(b, n, m, m2);
    case MulT(a, b) => SameT(a, n, m, m2); SameT(b, n, m, m2);
    case Ite(c, a, b) => SameF(c, n, m, m2); SameT(a, n, m, m2); SameT(b, n, m, m2);
    case _ =>
  }

  lemma {:induction false} SameF(f: Formula, n: nat, m: Model, m2: Model)
    requires FreshF(f, n) && Agree(m, m2, n)
    ensures True(f, m) == True(f, m2)
  {
    match f
    case NotF(g) => SameF(g, n, m, m2);
    case AndF(p, q) => SameF(p, n, m, m2); SameF(q, n, m, m2);
    case OrF(p, q) => SameF(p, n, m, m2); SameF(q, n, m, m2);
    case Iff(p, q) => SameF(p, n, m, m2); SameF(q, n, m, m2);
    case EqT(x, y) => SameT(x, n, m, m2); SameT(y, n, m, m2);
    case Cmp(_, x, y) => SameT(x, n, m, m2); SameT(y, n, m, m2);
    case _ =>
  }

  lemma SameFacts(st: St, m: Model, m2: Model)
    requires FreshSt(st) && Agree(m, m2, st.next) && AllTrue(st.facts, m)
    ensures AllTrue(st.facts, m2)
  {
    forall i | 0 <= i < |st.facts| ensures True(st.facts[i], m2) { SameF(st.facts[i], st.next, m, m2); }
  }

  // ---------------------------------------------------------------- the walk keeps freshness

  lemma {:induction false} FreshInt(e: Expr, sc: Scope, st: St, tk: Task)
    requires FreshScope(sc, st.next) && FreshSt(st) && WalkInt(e, sc, st, tk).Done?
    ensures var W := WalkInt(e, sc, st, tk); FreshT(W.v, W.st.next) && FreshSt(W.st)
    decreases 2 * tk.Size() + 1, e, 2
  {
    match e
    case Unary(Neg, a) => FreshInt(a, sc, st, tk);
    case Binary(op, l, r) =>
      FreshInt(l, sc, st, tk);
      var s1 := WalkInt(l, sc, st, tk).st;
      RaiseScope(sc, st.next, s1.next);
      FreshInt(r, sc, s1, tk);
      RaiseT(WalkInt(l, sc, st, tk).v, s1.next, WalkInt(r, sc, s1, tk).st.next);
    case If(c, thn, els) =>
      FreshBool(c, sc, st, tk);
      var W1 := WalkBool(c, sc, st, tk);
      var f, s1 := W1.v, W1.st;
      RaiseScope(sc, st.next, s1.next);
      FreshBlockValue(thn, sc, s1.Assert(f), tk);
      var W2 := WalkBlockValue(thn, sc, s1.Assert(f), tk);
      RaiseScope(sc, s1.next, W2.st.next);
      RaiseF(f, s1.next, W2.st.next);
      RaiseSt(s1, W2.st.next);
      FreshElseValue(els, sc, W2.st.PopTo(s1).Assert(NotF(f)), tk);
      var s3 := WalkElseValue(els, sc, W2.st.PopTo(s1).Assert(NotF(f)), tk).st;
      RaiseSt(s1, s3.next);
      RaiseF(f, s1.next, s3.next);
      RaiseT(W2.v, W2.st.next, s3.next);
    case Call(g, args) =>
      FreshArgs(args, sc, st, tk);
      var W1 := WalkArgs(args, sc, st, tk);
      FreshCall(tk.summaries[g], W1.v, W1.st, tk);
    case _ =>
  }

  lemma {:induction false} FreshElseValue(els: Else, sc: Scope, st: St, tk: Task)
    requires FreshScope(sc, st.next) && FreshSt(st) && WalkElseValue(els, sc, st, tk).Done?
    ensures var W := WalkElseValue(els, sc, st, tk); FreshT(W.v, W.st.next) && FreshSt(W.st)
    decreases 2 * tk.Size() + 1, els
  {
    match els
    case ElseBlock(body) => FreshBlockValue(body, sc, st, tk);
    case ElseIf(e) => FreshInt(e, sc, st, tk);
  }

  lemma {:induction false} FreshCall(sm: Summary, ts: seq<Term>, st: St, tk: Task)
    requires |sm.params| == |ts| && FreshTs(ts, st.next) && FreshSt(st) && CallAxioms(sm, ts, st, tk).Done?
    ensures var W := CallAxioms(sm, ts, st, tk); FreshT(W.v, W.st.next) && FreshSt(W.st)
    decreases 2, |sm.pre| + |sm.post| + 1
  {
    var res := Sym(st.next);
    var s2 := WithBounds(st.(next := st.next + 1), res, sm.ret);
    RaiseSt(st, st.next + 1);
    FreshBind(sm.params, ts, st.next);
    var callScope := BindTerms(sm.params, ts);
    RaiseScope(callScope, st.next, s2.next);
    FreshClauses(sm.pre, callScope, s2, tk.ForClause());
    var W3 := WalkClauses(sm.pre, callScope, s2, tk.ForClause());
    RaiseScope(callScope, s2.next, W3.st.next);
    FreshAxioms(sm.post, W3.v, callScope["result" := res], W3.st, tk, res);
  }

  lemma {:induction false} FreshBool(e: Expr, sc: Scope, st: St, tk: Task)
    requires FreshScope(sc, st.next) && FreshSt(st) && WalkBool(e, sc, st, tk).Done?
    ensures var W := WalkBool(e, sc, st, tk); FreshF(W.v, W.st.next) && FreshSt(W.st)
    decreases 2 * tk.Size() + 1, e, 2
  {
    match e
    case Unary(Not, a) => FreshBool(a, sc, st, tk);
    case Binary(op, l, r) =>
      if op.IsLogic() || (op.IsEquality() && IsBoolShaped(l) && IsBoolShaped(r)) {
        FreshBool(l, sc, st, tk);
        var W1 := WalkBool(l, sc, st, tk);
        RaiseScope(sc, st.next, W1.st.next);
        FreshBool(r, sc, W1.st, tk);
        RaiseF(W1.v, W1.st.next, WalkBool(r, sc, W1.st, tk).st.next);
      } else {
        FreshInt(l, sc, st, tk);
        var W1 := WalkInt(l, sc, st, tk);
        RaiseScope(sc, st.next, W1.st.next);
        FreshInt(r, sc, W1.st, tk);
        RaiseT(W1.v, W1.st.next, WalkInt(r, sc, W1.st, tk).st.next);
      }
    case _ =>
  }

  lemma {:induction false} FreshArgs(es: seq<Expr>, sc: Scope, st: St, tk: Task)
    requires FreshScope(sc, st.next) && FreshSt(st) && WalkArgs(es, sc, st, tk).Done?
    ensures var W := WalkArgs(es, sc, st, tk); FreshTs(W.v, W.st.next) && FreshSt(W.st)
    decreases 2 * tk.Size() + 1, es, 0
  {
    if es != [] {
      FreshInt(es[0], sc, st, tk);
      var W1 := WalkInt(es[0], sc, st, tk);
      RaiseScope(sc, st.next, W1.st.next);
      FreshArgs(es[1..], sc, W1.st, tk);
      RaiseT(W1.v, W1.st.next, WalkArgs(es[1..], sc, W1.st, tk).st.next);
    }
  }

  lemma FreshBind(params: seq<Param>, ts: seq<Term>, n: nat)
    requires |params| == |ts| && FreshTs(ts, n)
    ensures FreshScope(BindTerms(params, ts), n)
  {
    if params != [] { FreshBind(params[..|params| - 1], ts[..|params| - 1], n); }
  }

  lemma {:induction false} FreshClauses(es: seq<Expr>, sc: Scope, st: St, ck: Task)
    requires ck.Size() == 0
    requires FreshScope(sc, st.next) && FreshSt(st) && WalkClauses(es, sc, st, ck).Done?
    ensures var W := WalkClauses(es, sc, st, ck); FreshF(W.v, W.st.next) && FreshSt(W.st)
    decreases 2, |es|
  {
    if es != [] {
      var n := |es| - 1;
      FreshClauses(es[..n], sc, st, ck);
      var W1 := WalkClauses(es[..n], sc, st, ck);
      RaiseScope(sc, st.next, W1.st.next);
      FreshBool(es[n], sc, W1.st, ck);
      RaiseF(W1.v, W1.st.next, WalkBool(es[n], sc, W1.st, ck).st.next);
    }
  }

  lemma {:induction false} FreshAxioms(es: seq<Expr>, pre: Formula, sc: Scope, st: St, tk: Task, res: Term)
    requires FreshScope(sc, st.next) && FreshSt(st) && FreshF(pre, st.next) && FreshT(res, st.next)
    requires WalkAxioms(es, pre, sc, st, tk, res).Done?
    ensures var W := WalkAxioms(es, pre, sc, st, tk, res); FreshT(W.v, W.st.next) && FreshSt(W.st)
    decreases 2, |es|
  {
    if es != [] {
      FreshBool(es[0], sc, st, tk.ForClause());
      var W1 := WalkBool(es[0], sc, st, tk.ForClause());
      RaiseScope(sc, st.next, W1.st.next);
      RaiseF(pre, st.next, W1.st.next);
      RaiseT(res, st.next, W1.st.next);
      FreshAxioms(es[1..], pre, sc, W1.st.Assert(OrF(NotF(pre), W1.v)), tk, res);
    }
  }

  lemma {:induction false} FreshBlockValue(b: seq<Stmt>, sc: Scope, st: St, tk: Task)
    requires FreshScope(sc, st.next) && FreshSt(st) && WalkBlockValue(b, sc, st, tk).Done?
    ensures var W := WalkBlockValue(b, sc, st, tk); FreshT(W.v, W.st.next) && FreshSt(W.st)
    decreases 2 * tk.Size() + 1, b
  {
    FreshStmts(b[..|b| - 1], sc, st, tk);
    var W1 := WalkStmts(b[..|b| - 1], sc, st, tk);
    FreshTail(b[|b| - 1], W1.v.1, W1.st, tk);
  }

  lemma {:induction false} FreshTail(s: Stmt, sc: Scope, st: St, tk: Task)
    requires FreshScope(sc, st.next) && FreshSt(st) && WalkTail(s, sc, st, tk).Done?
    ensures var W := WalkTail(s, sc, st, tk); FreshT(W.v, W.st.next) && FreshSt(W.st)
    decreases 2 * tk.Size() + 1, s
  {
    match s case ExprStmt(e) => FreshInt(e, sc, st, tk);
  }

  lemma {:induction false} FreshStmts(stmts: seq<Stmt>, sc: Scope, st: St, tk: Task)
    requires FreshScope(sc, st.next) && FreshSt(st) && WalkStmts(stmts, sc, st, tk).Done?
    ensures var W := WalkStmts(stmts, sc, st, tk); FreshScope(W.v.1, W.st.next) && FreshSt(W.st)
    decreases 2 * tk.Size() + 1, stmts
  {
    if stmts != [] && st.found.None? {
      FreshStmt(stmts[0], sc, st, tk);
      var W1 := WalkStmt(stmts[0], sc, st, tk);
      match W1.v.0 {
        case Continues => FreshStmts(stmts[1..], W1.v.1, W1.st, tk);
        case Returns =>
        case ContinuesUnder(f) =>
          FreshStmts(stmts[1..], W1.v.1, W1.st.Assert(f), tk);
          RaiseSt(W1.st, WalkStmts(stmts[1..], W1.v.1, W1.st.Assert(f), tk).st.next);
      }
    }
  }

  lemma {:induction false} FreshStmt(s: Stmt, sc: Scope, st: St, tk: Task)
    requires FreshScope(sc, st.next) && FreshSt(st) && WalkStmt(s, sc, st, tk).Done?
    ensures var W := WalkStmt(s, sc, st, tk);
            FreshScope(W.v.1, W.st.next) && FreshSt(W.st)
            && (W.v.0.ContinuesUnder? ==> FreshF(W.v.0.f, W.st.next))
    decreases 2 * tk.Size() + 1, s
  {
    match s
    case Let(_, _, e) => FreshInt(e, sc, st, tk); RaiseScope(sc, st.next, WalkInt(e, sc, st, tk).st.next);
    case Return(Some(e)) =>
      FreshInt(e, sc, st, tk);
      var W1 := WalkInt(e, sc, st, tk);
      RaiseScope(sc, st.next, W1.st.next);
      FreshCheck(tk.post, W1.v, sc, W1.st, tk);
    case Return(None) =>
    case ExprStmt(e) => FreshExprStmt(e, sc, st, tk);
    case Audited(body) =>
      FreshStmts(body, sc, st, tk);
      RaiseScope(sc, st.next, WalkStmts(body, sc, st, tk).st.next);
  }

  lemma {:induction false} FreshExprStmt(e: Expr, sc: Scope, st: St, tk: Task)
    requires FreshScope(sc, st.next) && FreshSt(st) && WalkExprStmt(e, sc, st, tk).Done?
    ensures var W := WalkExprStmt(e, sc, st, tk);
            FreshScope(sc, W.st.next) && FreshSt(W.st) && (W.v.ContinuesUnder? ==> FreshF(W.v.f, W.st.next))
    decreases 2 * tk.Size() + 1, e, 3
  {
    RaiseScope(sc, st.next, WalkExprStmt(e, sc, st, tk).st.next);
    if e.If? {
      FreshBool(e.cond, sc, st, tk);
      var W1 := WalkBool(e.cond, sc, st, tk);
      var f, s1 := W1.v, W1.st;
      RaiseScope(sc, st.next, s1.next);
      FreshStmts(e.thn, sc, s1.Assert(f), tk);
      var s2 := WalkStmts(e.thn, sc, s1.Assert(f), tk).st;
      RaiseScope(sc, s1.next, s2.next);
      RaiseF(f, s1.next, s2.next);
      RaiseSt(s1, s2.next);
      FreshElse(e.els, sc, s2.PopTo(s1).Assert(NotF(f)), tk);
      var s4 := WalkExprStmt(e, sc, st, tk).st;
      RaiseSt(s1, s4.next);
      RaiseF(f, s1.next, s4.next);
    } else {
      FreshInt(e, sc, st, tk);
    }
  }

  lemma {:induction false} FreshElse(els: Else, sc: Scope, st: St, tk: Task)
    requires FreshScope(sc, st.next) && FreshSt(st) && WalkElse(els, sc, st, tk).Done?
    ensures FreshSt(WalkElse(els, sc, st, tk).st)
    decreases 2 * tk.Size() + 1, els
  {
    match els
    case NoElse =>
    case ElseBlock(body) => FreshStmts(body, sc, st, tk);
    case ElseIf(e) => FreshExprStmt(e, sc, st, tk);
  }

  lemma {:induction false} FreshCheck(clauses: seq<Expr>, t: Term, sc: Scope, st: St, tk: Task)
    requires |clauses| <= |tk.post| && FreshT(t, st.next)
    requires FreshScope(sc, st.next) && FreshSt(st) && CheckReturn(clauses, t, sc, st, tk).Done?
    ensures var W := CheckReturn(clauses, t, sc, st, tk); FreshScope(sc, W.st.next) && FreshSt(W.st)
    decreases 2 * tk.Size(), |clauses|
  {
    if clauses != [] && st.found.None? {
      FreshBool(clauses[0], sc["result" := t], st, tk.ForClause());
      var W1 := WalkBool(clauses[0], sc["result" := t], st, tk.ForClause());
      RaiseScope(sc, st.next, W1.st.next);
      RaiseT(t, st.next, W1.st.next);
      FreshCheck(clauses[1..], t, sc, Ask(clauses[0], W1.v, t, sc, W1.st, tk.oracle), tk);
    }
  }
}
