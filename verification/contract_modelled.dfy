/** Which bodies the walker has to model: the answer "cannot model this" is never given for them. */
module ContractModelled {
  import opened Prelude
  import opened Types
  import opened ContractLanguage
  import opened ContractWalker
  import opened ContractSound
  import opened ContractGenuine
  import opened ContractTheorems

  /** Contract clauses: conditions over `names`, without calls and blocks. */
  predicate Clauses(es: seq<Expr>, names: set<string>) { forall e :: e in es ==> Condition(e, names) }

  predicate Condition(e: Expr, names: set<string>) {
    match e
    case Bool(_) => true
    case Unary(Not, a) => Condition(a, names)
    case Binary(op, l, r) =>
      ((op.IsLogic() || op.IsEquality()) && Condition(l, names) && Condition(r, names))
      || (op.IsComparison() && Number(l, names) && Number(r, names))
    case _ => false
  }

  predicate Number(e: Expr, names: set<string>) {
    match e
    case Int(_) => true
    case Ident(x) => x in names
    case Unary(Neg, a) => Number(a, names)
    case Binary(op, l, r) => (op.Add? || op.Sub? || op.Mul?) && Number(l, names) && Number(r, names)
    case _ => false
  }

  /** Names bound by the `let`s of a list, blocks inside it not counted. */
  function Lets(b: seq<Stmt>): set<string> {
    if b == [] then {} else LetOf(b[0]) + Lets(b[1..])
  }

  function LetOf(s: Stmt): set<string> { match s case Let(x, _, _) => {x} case _ => {} }

  /** An integer expression the walker has a term for: names in scope, `-`, `+`, `-`, `*`, an `if` with
      an `else` whose blocks end in such an expression, a call of a function already proved.

      Once a violation may have been found (`late`), or after a `return` inside a value, a block's
      statements may be skipped, so what its last expression uses has to be in scope outside it. */
  predicate Integral(e: Expr, names: set<string>, S: map<string, Summary>, late: bool)
    decreases e, 2
  {
    match e
    case Int(_) => true
    case Ident(x) => x in names
    case Unary(Neg, a) => Integral(a, names, S, late)
    case Binary(op, l, r) => (op.Add? || op.Sub? || op.Mul?) && Integral(l, names, S, late) && Integral(r, names, S, late || !NoReturn(l))
    case If(c, thn, els) =>
      Boolean(c, names, S, late) && Block(thn, names, S, late || !NoReturn(c))
      && ElseIntegral(els, names, S, late || !NoReturn(c) || !NoReturnBlock(thn))
    case Call(g, args) =>
      g in S && |S[g].params| == |args| && AllIntegral(args, names, S, late)
      && Clauses(S[g].pre, ParamNames(S[g].params)) && Clauses(S[g].post, ParamNames(S[g].params) + {"result"})
    case _ => false
  }

  predicate ElseIntegral(els: Else, names: set<string>, S: map<string, Summary>, late: bool)
    decreases els
  {
    match els
    case NoElse => false
    case ElseBlock(b) => Block(b, names, S, late)
    case ElseIf(e) => Integral(e, names, S, late)
  }

  predicate AllIntegral(es: seq<Expr>, names: set<string>, S: map<string, Summary>, late: bool)
    decreases es
  {
    es == [] || (Integral(es[0], names, S, late) && AllIntegral(es[1..], names, S, late || !NoReturn(es[0])))
  }

  predicate Boolean(e: Expr, names: set<string>, S: map<string, Summary>, late: bool)
    decreases e, 2
  {
    match e
    case Bool(_) => true
    case Unary(Not, a) => Boolean(a, names, S, late)
    case Binary(op, l, r) =>
      ((op.IsLogic() || op.IsEquality()) && Boolean(l, names, S, late) && Boolean(r, names, S, late || !NoReturn(l)))
      || (op.IsComparison() && Integral(l, names, S, late) && Integral(r, names, S, late || !NoReturn(l)))
    case _ => false
  }

  /** A block used as a value. */
  predicate Block(b: seq<Stmt>, names: set<string>, S: map<string, Summary>, late: bool)
    decreases b, 1
  {
    b != [] && var n := |b| - 1;
    Body(b[..n], names, S, late)
    && var cut := late || !NoReturnBlock(b[..n]);
      Tail(b[n], if cut then names else names + Lets(b[..n]), S, cut)
  }

  predicate Tail(s: Stmt, names: set<string>, S: map<string, Summary>, late: bool)
    decreases s
  {
    s.ExprStmt? && Integral(s.e, names, S, late)
  }

  /** A statement list without loops, whose `let`s are of integer types. */
  predicate Body(b: seq<Stmt>, names: set<string>, S: map<string, Summary>, late: bool)
    decreases b, 0
  {
    b == [] || (Statement(b[0], names, S, late) && Body(b[1..], names + LetOf(b[0]), S, late || !NoReturnStmt(b[0])))
  }

  predicate Statement(s: Stmt, names: set<string>, S: map<string, Summary>, late: bool)
    decreases s
  {
    match s
    case Let(_, ty, e) => ty.IsInteger() && Integral(e, names, S, late)
    case Return(Some(e)) => Integral(e, names, S, late)
    case Return(None) => true
    case While(_, _) => false
    case ExprStmt(e) => Effect(e, names, S, late)
    case Audited(b) => Body(b, names, S, late)
  }

  /** An expression in statement position: an `if` may lack its `else` and its blocks need no value. */
  predicate Effect(e: Expr, names: set<string>, S: map<string, Summary>, late: bool)
    decreases e, 3
  {
    if e.If? then
      Boolean(e.cond, names, S, late) && Body(e.thn, names, S, late || !NoReturn(e.cond))
      && ElseEffect(e.els, names, S, late || !NoReturn(e.cond) || !NoReturnBlock(e.thn))
    else Integral(e, names, S, late)
  }

  predicate ElseEffect(els: Else, names: set<string>, S: map<string, Summary>, late: bool)
    decreases els
  {
    match els
    case NoElse => true
    case ElseBlock(b) => Body(b, names, S, late)
    case ElseIf(e) => Effect(e, names, S, late)
  }

  // ---------------------------------------------------------------- the walk gets through

  /** Where a walk stands: `late` is off only before any violation is found. */
  ghost predicate Stands(ps: set<string>, names: set<string>, sc: Scope, st: St, tk: Task, late: bool) {
    ps <= names <= sc.Keys && (late || st.found.None?) && Clauses(tk.post, ps + {"result"})
  }

  /** A walk that gets through; without a `return` inside it finds nothing new. */
  ghost predicate Through<T>(r: W<T>, st: St, quiet: bool) {
    r.Done? && (quiet ==> r.st.found == st.found)
  }

  lemma {:induction false} PlainThrough(e: Expr, names: set<string>, sc: Scope, st: St, tk: Task)
    requires names <= sc.Keys
    ensures Number(e, names) ==> WalkInt(e, sc, st, tk).Done? && WalkInt(e, sc, st, tk).st == st
    ensures Condition(e, names) ==> WalkBool(e, sc, st, tk).Done? && WalkBool(e, sc, st, tk).st == st
  {
    match e
    case Unary(_, a) => PlainThrough(a, names, sc, st, tk);
    case Binary(_, l, r) => PlainThrough(l, names, sc, st, tk); PlainThrough(r, names, sc, st, tk);
    case _ =>
  }

  lemma ClauseThrough(e: Expr, es: seq<Expr>, names: set<string>, sc: Scope, st: St, tk: Task)
    requires Clauses(es, names) && e in es && names <= sc.Keys
    ensures WalkBool(e, sc, st, tk).Done? && WalkBool(e, sc, st, tk).st == st
  {
    PlainThrough(e, names, sc, st, tk);
  }

  lemma {:induction false} ClausesThrough(es: seq<Expr>, names: set<string>, sc: Scope, st: St, ck: Task)
    requires Clauses(es, names) && names <= sc.Keys && ck.Size() == 0
    ensures WalkClauses(es, sc, st, ck).Done? && WalkClauses(es, sc, st, ck).st == st
  {
    if es != [] {
      var n := |es| - 1;
      ClausesThrough(es[..n], names, sc, st, ck);
      ClauseThrough(es[n], es, names, sc, st, ck);
    }
  }

  lemma {:induction false} AxiomsThrough(es: seq<Expr>, names: set<string>, pre: Formula, sc: Scope, st: St, tk: Task, res: Term)
    requires Clauses(es, names) && names <= sc.Keys
    ensures WalkAxioms(es, pre, sc, st, tk, res).Done? && WalkAxioms(es, pre, sc, st, tk, res).st.found == st.found
    decreases |es|
  {
    if es != [] {
      ClauseThrough(es[0], es, names, sc, st, tk.ForClause());
      AxiomsThrough(es[1..], names, pre, sc, st.Assert(OrF(NotF(pre), WalkBool(es[0], sc, st, tk.ForClause()).v)), tk, res);
    }
  }

  lemma {:induction false} CheckThrough(es: seq<Expr>, names: set<string>, t: Term, sc: Scope, st: St, tk: Task)
    requires |es| <= |tk.post| && Clauses(es, names + {"result"}) && names <= sc.Keys
    ensures CheckReturn(es, t, sc, st, tk).Done?
    decreases |es|
  {
    if es != [] && st.found.None? {
      ClauseThrough(es[0], es, names + {"result"}, sc["result" := t], st, tk.ForClause());
      var W1 := WalkBool(es[0], sc["result" := t], st, tk.ForClause());
      CheckThrough(es[1..], names, t, sc, Ask(es[0], W1.v, t, sc, W1.st, tk.oracle), tk);
    }
  }

  lemma BindKeys(params: seq<Param>, ts: seq<Term>)
    requires |params| == |ts|
    ensures BindTerms(params, ts).Keys == ParamNames(params)
  {
    if params != [] {
      var n := |params| - 1;
      BindKeys(params[..n], ts[..n]);
      assert params == params[..n] + [params[n]];
    }
  }

  lemma CallThrough(sm: Summary, ts: seq<Term>, st: St, tk: Task)
    requires |sm.params| == |ts|
    requires Clauses(sm.pre, ParamNames(sm.params)) && Clauses(sm.post, ParamNames(sm.params) + {"result"})
    ensures CallAxioms(sm, ts, st, tk).Done? && CallAxioms(sm, ts, st, tk).st.found == st.found
  {
    var names, res, sc := ParamNames(sm.params), Sym(st.next), BindTerms(sm.params, ts);
    BindKeys(sm.params, ts);
    var s2 := WithBounds(st.(next := st.next + 1), res, sm.ret);
    ClausesThrough(sm.pre, names, sc, s2, tk.ForClause());
    var W1 := WalkClauses(sm.pre, sc, s2, tk.ForClause());
    AxiomsThrough(sm.post, names + {"result"}, W1.v, sc["result" := res], W1.st, tk, res);
  }

  lemma {:induction false} IntThrough(e: Expr, ps: set<string>, names: set<string>, sc: Scope, st: St, tk: Task, late: bool)
    requires Integral(e, names, tk.summaries, late) && Stands(ps, names, sc, st, tk, late)
    ensures Through(WalkInt(e, sc, st, tk), st, NoReturn(e))
    decreases e, 2
  {
    match e
    case Unary(_, a) => IntThrough(a, ps, names, sc, st, tk, late);
    case Binary(_, l, r) =>
      IntThrough(l, ps, names, sc, st, tk, late);
      IntThrough(r, ps, names, sc, WalkInt(l, sc, st, tk).st, tk, late || !NoReturn(l));
    case If(_, _, _) => IfThrough(e, ps, names, sc, st, tk, late);
    case Call(g, args) =>
      ArgsThrough(args, ps, names, sc, st, tk, late);
      var W1 := WalkArgs(args, sc, st, tk);
      CallThrough(tk.summaries[g], W1.v, W1.st, tk);
    case _ =>
  }

  lemma {:induction false} ArgsThrough(es: seq<Expr>, ps: set<string>, names: set<string>, sc: Scope, st: St, tk: Task, late: bool)
    requires AllIntegral(es, names, tk.summaries, late) && Stands(ps, names, sc, st, tk, late)
    ensures Through(WalkArgs(es, sc, st, tk), st, NoReturnAll(es))
    decreases es
  {
    if es != [] {
      IntThrough(es[0], ps, names, sc, st, tk, late);
      ArgsThrough(es[1..], ps, names, sc, WalkInt(es[0], sc, st, tk).st, tk, late || !NoReturn(es[0]));
    }
  }

  lemma {:induction false} IfThrough(e: Expr, ps: set<string>, names: set<string>, sc: Scope, st: St, tk: Task, late: bool)
    requires e.If? && Integral(e, names, tk.summaries, late) && Stands(ps, names, sc, st, tk, late)
    ensures Through(WalkIf(e, sc, st, tk), st, NoReturn(e))
    decreases e, 1
  {
    BoolThrough(e.cond, ps, names, sc, st, tk, late);
    var W1, late1 := WalkBool(e.cond, sc, st, tk), late || !NoReturn(e.cond);
    ValueThrough(e.thn, ps, names, sc, W1.st.Assert(W1.v), tk, late1);
    var W2 := WalkBlockValue(e.thn, sc, W1.st.Assert(W1.v), tk);
    ElseValueThrough(e.els, ps, names, sc, W2.st.PopTo(W1.st).Assert(NotF(W1.v)), tk, late1 || !NoReturnBlock(e.thn));
  }

  lemma {:induction false} ElseValueThrough(els: Else, ps: set<string>, names: set<string>, sc: Scope, st: St, tk: Task, late: bool)
    requires ElseIntegral(els, names, tk.summaries, late) && Stands(ps, names, sc, st, tk, late)
    ensures Through(WalkElseValue(els, sc, st, tk), st, NoReturnElse(els))
    decreases els
  {
    match els
    case ElseBlock(b) => ValueThrough(b, ps, names, sc, st, tk, late);
    case ElseIf(e) => IntThrough(e, ps, names, sc, st, tk, late);
  }

  /** A condition looks like one, and a number does not. */
  lemma Shapes(e: Expr, names: set<string>, S: map<string, Summary>, late: bool)
    ensures Boolean(e, names, S, late) ==> IsBoolShaped(e)
    ensures Integral(e, names, S, late) ==> !IsBoolShaped(e)
  {}

  lemma {:induction false} BoolThrough(e: Expr, ps: set<string>, names: set<string>, sc: Scope, st: St, tk: Task, late: bool)
    requires Boolean(e, names, tk.summaries, late) && Stands(ps, names, sc, st, tk, late)
    ensures Through(WalkBool(e, sc, st, tk), st, NoReturn(e))
    decreases e, 2
  {
    match e
    case Unary(_, a) => BoolThrough(a, ps, names, sc, st, tk, late);
    case Binary(op, l, r) =>
      Shapes(l, names, tk.summaries, late);
      Shapes(r, names, tk.summaries, late || !NoReturn(l));
      if op.IsLogic() || (op.IsEquality() && IsBoolShaped(l) && IsBoolShaped(r)) {
        BoolThrough(l, ps, names, sc, st, tk, late);
        BoolThrough(r, ps, names, sc, WalkBool(l, sc, st, tk).st, tk, late || !NoReturn(l));
      } else {
        IntThrough(l, ps, names, sc, st, tk, late);
        IntThrough(r, ps, names, sc, WalkInt(l, sc, st, tk).st, tk, late || !NoReturn(l));
      }
    case _ =>
  }

  lemma {:induction false} ValueThrough(b: seq<Stmt>, ps: set<string>, names: set<string>, sc: Scope, st: St, tk: Task, late: bool)
    requires Block(b, names, tk.summaries, late) && Stands(ps, names, sc, st, tk, late)
    ensures Through(WalkBlockValue(b, sc, st, tk), st, NoReturnBlock(b))
    decreases b, 1
  {
    var n := |b| - 1;
    var first := b[..n];
    BodyThrough(first, ps, names, sc, st, tk, late);
    var W1, cut := WalkStmts(first, sc, st, tk), late || !NoReturnBlock(first);
    TailThrough(b[n], ps, if cut then names else names + Lets(first), W1.v.1, W1.st, tk, cut);
    if NoReturnBlock(b) { NoReturnTake(b, n); }
  }

  lemma {:induction false} TailThrough(s: Stmt, ps: set<string>, names: set<string>, sc: Scope, st: St, tk: Task, late: bool)
    requires Tail(s, names, tk.summaries, late) && Stands(ps, names, sc, st, tk, late)
    ensures Through(WalkTail(s, sc, st, tk), st, NoReturnStmt(s))
    decreases s
  {
    match s case ExprStmt(e) => IntThrough(e, ps, names, sc, st, tk, late);
  }

  lemma {:induction false} BodyThrough(b: seq<Stmt>, ps: set<string>, names: set<string>, sc: Scope, st: St, tk: Task, late: bool)
    requires Body(b, names, tk.summaries, late) && Stands(ps, names, sc, st, tk, late)
    ensures var W := WalkStmts(b, sc, st, tk);
            Through(W, st, NoReturnBlock(b)) && names <= W.v.1.Keys
            && (NoReturnBlock(b) ==> !W.v.0 && (st.found.None? ==> names + Lets(b) <= W.v.1.Keys))
    decreases b, 0
  {
    if b != [] && st.found.None? {
      StatementThrough(b[0], ps, names, sc, st, tk, late);
      var W1, late1, names1 := WalkStmt(b[0], sc, st, tk), late || !NoReturnStmt(b[0]), names + LetOf(b[0]);
      match W1.v.0 {
        case Continues => BodyThrough(b[1..], ps, names1, W1.v.1, W1.st, tk, late1);
        case Returns =>
        case ContinuesUnder(f) => BodyThrough(b[1..], ps, names1, W1.v.1, W1.st.Assert(f), tk, late1);
      }
    }
  }

  lemma {:induction false} StatementThrough(s: Stmt, ps: set<string>, names: set<string>, sc: Scope, st: St, tk: Task, late: bool)
    requires Statement(s, names, tk.summaries, late) && Stands(ps, names, sc, st, tk, late)
    ensures var W := WalkStmt(s, sc, st, tk);
            Through(W, st, NoReturnStmt(s)) && names + LetOf(s) <= W.v.1.Keys && (NoReturnStmt(s) ==> W.v.0.Continues?)
    decreases s
  {
    match s
    case Let(_, _, e) => IntThrough(e, ps, names, sc, st, tk, late);
    case Return(Some(e)) =>
      IntThrough(e, ps, names, sc, st, tk, late);
      var W1 := WalkInt(e, sc, st, tk);
      CheckThrough(tk.post, ps, W1.v, sc, W1.st, tk);
    case Return(None) =>
    case ExprStmt(e) => EffectThrough(e, ps, names, sc, st, tk, late);
    case Audited(b) => BodyThrough(b, ps, names, sc, st, tk, late);
  }

  lemma {:induction false} EffectThrough(e: Expr, ps: set<string>, names: set<string>, sc: Scope, st: St, tk: Task, late: bool)
    requires Effect(e, names, tk.summaries, late) && Stands(ps, names, sc, st, tk, late)
    ensures var W := WalkExprStmt(e, sc, st, tk); Through(W, st, NoReturn(e)) && (NoReturn(e) ==> W.v.Continues?)
    decreases e, 3
  {
    if e.If? {
      BoolThrough(e.cond, ps, names, sc, st, tk, late);
      var W1, late1 := WalkBool(e.cond, sc, st, tk), late || !NoReturn(e.cond);
      BodyThrough(e.thn, ps, names, sc, W1.st.Assert(W1.v), tk, late1);
      var W2 := WalkStmts(e.thn, sc, W1.st.Assert(W1.v), tk);
      ElseEffectThrough(e.els, ps, names, sc, W2.st.PopTo(W1.st).Assert(NotF(W1.v)), tk, late1 || !NoReturnBlock(e.thn));
    } else {
      IntThrough(e, ps, names, sc, st, tk, late);
    }
  }

  lemma {:induction false} ElseEffectThrough(els: Else, ps: set<string>, names: set<string>, sc: Scope, st: St, tk: Task, late: bool)
    requires ElseEffect(els, names, tk.summaries, late) && Stands(ps, names, sc, st, tk, late)
    ensures var W := WalkElse(els, sc, st, tk); Through(W, st, NoReturnElse(els)) && (NoReturnElse(els) ==> !W.v)
    decreases els
  {
    match els
    case NoElse =>
    case ElseBlock(b) => BodyThrough(b, ps, names, sc, st, tk, late);
    case ElseIf(e) => EffectThrough(e, ps, names, sc, st, tk, late);
  }

  lemma {:induction false} AssumeThrough(pre: seq<Expr>, names: set<string>, sc: Scope, st: St, tk: Task)
    requires Clauses(pre, names) && names <= sc.Keys
    ensures AssumePre(pre, sc, st, tk).Done? && AssumePre(pre, sc, st, tk).st.found == st.found
  {
    if pre != [] {
      ClauseThrough(pre[0], pre, names, sc, st, tk.ForClause());
      AssumeThrough(pre[1..], names, sc, st.Assert(WalkBool(pre[0], sc, st, tk.ForClause()).v), tk);
    }
  }

  /** A function over integers, with clauses that speak of its parameters and, in a `post`, of
      `result`, and with a body the walker has terms for, is decided: proved or refuted. */
  lemma ModelledIsDecided(f: FnDecl, pre: seq<Expr>, tk: Task)
    requires f.ret.IsInteger() && forall p :: p in f.params ==> p.ty.IsInteger()
    requires Clauses(pre, ParamNames(f.params)) && Clauses(tk.post, ParamNames(f.params) + {"result"})
    requires Body(f.body, ParamNames(f.params), tk.summaries, false)
    ensures CheckContract(f, pre, tk).Proved? || CheckContract(f, pre, tk).Counterexample?
  {
    var names := ParamNames(f.params);
    var (sc, st) := EnterParams(f.params, Start);
    EnterKeys(f.params);
    forall e | e in pre + tk.post ensures Idents(e) <= names + {"result"} {
      PlainNames(e, if e in pre then names else names + {"result"});
    }
    AllBound(pre + tk.post, names + {"result"});
    AssumeThrough(pre, names, sc, st, tk);
    BodyThrough(f.body, names, names, sc, AssumePre(pre, sc, st, tk).st, tk, false);
  }

  /** An identifier is reported exactly when a clause names something else than a parameter or `result`. */
  lemma UnboundIsReported(f: FnDecl, pre: seq<Expr>, tk: Task)
    requires f.ret.IsInteger() && forall p :: p in f.params ==> p.ty.IsInteger()
    ensures var v := CheckContract(f, pre, tk);
            (v.UnboundIdentifier? <==> exists e :: e in pre + tk.post && !(Idents(e) <= ParamNames(f.params) + {"result"}))
            && (v.UnboundIdentifier? ==> forall x :: x in v.names <==>
                  x != "result" && x !in ParamNames(f.params) && exists e :: e in pre + tk.post && x in Idents(e))
  {
    var es, allowed := pre + tk.post, ParamNames(f.params) + {"result"};
    forall x ensures x in ExprsIdents(es) <==> exists e :: e in es && x in Idents(e) { NamedBy(es, x); }
    if Unbound(es, allowed) != {} {
      var x :| x in Unbound(es, allowed);
      var e :| e in es && x in Idents(e);
      assert !(Idents(e) <= allowed);
    } else {
      UnboundEmpty(es, allowed);
    }
  }

  lemma {:induction false} NamedBy(es: seq<Expr>, x: string)
    ensures x in ExprsIdents(es) <==> exists e :: e in es && x in Idents(e)
  {
    if es != [] {
      NamedBy(es[1..], x);
      if e :| e in es && x in Idents(e) {
        assert e == es[0] || e in es[1..];
      }
    }
  }

  lemma {:induction false} PlainNames(e: Expr, names: set<string>)
    requires Number(e, names) || Condition(e, names)
    ensures Idents(e) <= names
  {
    match e
    case Unary(_, a) => PlainNames(a, names);
    case Binary(_, l, r) => PlainNames(l, names); PlainNames(r, names);
    case _ =>
  }

  lemma AllBound(es: seq<Expr>, allowed: set<string>)
    requires forall e :: e in es ==> Idents(e) <= allowed
    ensures Unbound(es, allowed) == {}
  {
    forall x | x in ExprsIdents(es) ensures x in allowed {
      NamedBy(es, x);
    }
  }

  // ---------------------------------------------------------------- what is known of a call

  lemma AllHoldBoth(a: seq<Expr>, b: seq<Expr>, env: Env, fns: Program)
    ensures AllHold(a + b, env, fns) <==> AllHold(a, env, fns) && AllHold(b, env, fns)
  {
    assert forall e :: e in a + b <==> e in a || e in b;
  }

  lemma ClauseMeans(e: Expr, sc: Scope, st: St, ck: Task, m: Model, fns: Program)
    requires Plain(e) && WalkBool(e, sc, st, ck).Done?
    ensures WalkBool(e, sc, st, ck).st == st
    ensures AllHold([e], EnvOf(sc, m), fns) <==> True(WalkBool(e, sc, st, ck).v, m)
  {
    PlainBool(e, sc, EnvOf(sc, m), st, ck, m, Frame(fns, Ty.Bool, false), 0);
    assert e in [e] && forall x :: x in [e] ==> x == e;
  }

  lemma {:induction false} ClausesMean(es: seq<Expr>, sc: Scope, st: St, ck: Task, m: Model, fns: Program)
    requires AllPlain(es) && ck.Size() == 0 && WalkClauses(es, sc, st, ck).Done?
    ensures var W := WalkClauses(es, sc, st, ck); W.st == st && (True(W.v, m) <==> AllHold(es, EnvOf(sc, m), fns))
  {
    if es != [] {
      var n := |es| - 1;
      ClausesMean(es[..n], sc, st, ck, m, fns);
      ClauseMeans(es[n], sc, st, ck, m, fns);
      AllHoldBoth(es[..n], [es[n]], EnvOf(sc, m), fns);
      assert es == es[..n] + [es[n]];
    }
  }

  lemma {:induction false} AxiomsMean(es: seq<Expr>, pre: Formula, sc: Scope, st: St, tk: Task, res: Term, m: Model, fns: Program)
    requires AllPlain(es) && WalkAxioms(es, pre, sc, st, tk, res).Done? && AllTrue(WalkAxioms(es, pre, sc, st, tk, res).st.facts, m)
    ensures WalkAxioms(es, pre, sc, st, tk, res).v == res && AllTrue(st.facts, m) && (True(pre, m) ==> AllHold(es, EnvOf(sc, m), fns))
    decreases es
  {
    if es != [] {
      ClauseMeans(es[0], sc, st, tk.ForClause(), m, fns);
      var q := WalkBool(es[0], sc, st, tk.ForClause()).v;
      var s2 := st.Assert(OrF(NotF(pre), q));
      AxiomsMean(es[1..], pre, sc, s2, tk, res, m, fns);
      AllHoldBoth([es[0]], es[1..], EnvOf(sc, m), fns);
      assert es == [es[0]] + es[1..];
      assert s2.facts[|st.facts|] == OrF(NotF(pre), q);
      assert True(OrF(NotF(pre), q), m);
      if True(pre, m) {
        assert !True(NotF(pre), m) && True(q, m);
        assert AllHold([es[0]], EnvOf(sc, m), fns);
        assert AllHold(es[1..], EnvOf(sc, m), fns);
        assert AllHold(es, EnvOf(sc, m), fns);
      }
      Prefix(st.facts, s2.facts, m);
    }
  }

  /** After a call the facts say all that the callee's contract does: under any model of them the result
      is of the return type and, if the arguments meet every `pre`, it meets every `post`. */
  lemma CallIsKnown(sm: Summary, ts: seq<Term>, st: St, tk: Task, m: Model, fns: Program)
    requires |sm.params| == |ts| && AllPlain(sm.pre) && AllPlain(sm.post)
    requires CallAxioms(sm, ts, st, tk).Done? && AllTrue(CallAxioms(sm, ts, st, tk).st.facts, m)
    ensures var args, w := EnvOf(BindTerms(sm.params, ts), m), TermVal(CallAxioms(sm, ts, st, tk).v, m);
            AllTrue(st.facts, m) && sm.ret.InRange(w) && (AllHold(sm.pre, args, fns) ==> AllHold(sm.post, args["result" := IntV(w)], fns))
  {
    var res, sc := Sym(st.next), BindTerms(sm.params, ts);
    var s1 := st.(next := st.next + 1);
    var s2 := WithBounds(s1, res, sm.ret);
    ClausesMean(sm.pre, sc, s2, tk.ForClause(), m, fns);
    var pre := WalkClauses(sm.pre, sc, s2, tk.ForClause()).v;
    AxiomsMean(sm.post, pre, sc["result" := res], s2, tk, res, m, fns);
    InBounds(s1, res, sm.ret, m);
    Prefix(st.facts, s2.facts, m);
    assert EnvOf(sc["result" := res], m) == EnvOf(sc, m)["result" := IntV(TermVal(res, m))];
  }

  lemma {:induction false} BindsLast(params: seq<Param>, ts: seq<Term>, i: nat)
    requires |params| == |ts| && i < |params| && forall j :: i < j < |params| ==> params[j].name != params[i].name
    ensures params[i].name in BindTerms(params, ts) && BindTerms(params, ts)[params[i].name] == ts[i]
  {
    var n := |params| - 1;
    if i < n { BindsLast(params[..n], ts[..n], i); }
  }
}
