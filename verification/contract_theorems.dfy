/** What a verdict of the Tier-1 contract checker is worth. */
module ContractTheorems {
  import opened Prelude
  import opened Types
  import opened ContractLanguage
  import opened ContractWalker
  import opened ContractFresh
  import opened ContractSound
  import opened ContractSimulation

  /** The hypotheses on a function and its contract under which `Proved` can be trusted. */
  predicate Checkable(f: FnDecl, pre: seq<Expr>, post: seq<Expr>) {
    AllPlain(pre) && AllPlain(post) && RegularBlock(f.body, ParamNames(f.params), false)
  }

  lemma EnterNames(params: seq<Param>, vs: seq<Value>)
    requires |params| == |vs| && Bind(params, vs, false).Val?
    ensures EnterParams(params, Start).0.Keys == ParamNames(params) && Bind(params, vs, false).v.Keys == ParamNames(params)
  {
    if params != [] {
      var n := |params| - 1;
      EnterNames(params[..n], vs[..n]);
      assert params == params[..n] + [params[n]];
      assert ParamNames(params) == ParamNames(params[..n]) + {params[n].name};
    }
  }

  /** Entering a function: some model reads the parameter symbols as the arguments. */
  lemma Enter(params: seq<Param>, vs: seq<Value>) returns (m: Model)
    requires |params| == |vs| && Bind(params, vs, false).Val?
    requires forall p :: p in params ==> p.ty.IsInteger()
    ensures var (sc, st) := EnterParams(params, Start); var env := Bind(params, vs, false).v;
            FreshScope(sc, st.next) && FreshSt(st) && AllTrue(st.facts, m) && st.found.None?
            && forall x :: x in sc ==> x in env && env[x] == IntV(TermVal(sc[x], m))
  {
    m := map[];
    if params != [] {
      var n := |params| - 1;
      var m0 := Enter(params[..n], vs[..n]);
      var (sc, st) := EnterParams(params[..n], Start);
      m := EnterOne(params[n].ty, vs[n].i, sc, st, m0);
    }
  }

  lemma EnterOne(ty: Ty, v: int, sc: Scope, st: St, m0: Model) returns (m: Model)
    requires FreshScope(sc, st.next) && FreshSt(st) && AllTrue(st.facts, m0) && ty.InRange(v)
    ensures m == m0[st.next := v]
    ensures forall x :: x in sc ==> TermVal(sc[x], m) == TermVal(sc[x], m0) && FreshT(sc[x], st.next + 1)
    ensures var s := WithBounds(st.(next := st.next + 1), Sym(st.next), ty); FreshSt(s) && AllTrue(s.facts, m)
  {
    m := m0[st.next := v];
    assert Agree(m0, m, st.next);
    SameFacts(st, m0, m);
    RaiseSt(st, st.next + 1);
    RaiseScope(sc, st.next, st.next + 1);
    BoundsTrue(st.(next := st.next + 1), Sym(st.next), ty, m);
    forall x | x in sc ensures TermVal(sc[x], m0) == TermVal(sc[x], m) { SameT(sc[x], st.next, m0, m); }
  }

  lemma {:induction false} AssumeHolds(pre: seq<Expr>, sc: Scope, env: Env, st: St, tk: Task, m: Model, fns: Program)
    requires AllPlain(pre) && AssumePre(pre, sc, st, tk).Done? && AllHold(pre, env, fns)
    requires FreshScope(sc, st.next) && FreshSt(st) && AllTrue(st.facts, m)
    requires forall x :: x in sc ==> x in env && env[x] == IntV(TermVal(sc[x], m))
    ensures var s := AssumePre(pre, sc, st, tk).st;
            s.next == st.next && s.found == st.found && FreshSt(s) && AllTrue(s.facts, m)
  {
    if pre != [] {
      PlainBool(pre[0], sc, env, st, tk.ForClause(), m, Frame(fns, Ty.Bool, false), 0);
      FreshBool(pre[0], sc, st, tk.ForClause());
      var f := WalkBool(pre[0], sc, st, tk.ForClause()).v;
      assert Holds(pre[0], env, fns);
      AssumeHolds(pre[1..], sc, env, st.Assert(f), tk, m, fns);
    }
  }

  lemma {:induction false} IdentsIn(es: seq<Expr>, i: nat)
    requires i < |es|
    ensures Idents(es[i]) <= ExprsIdents(es)
  {
    if i > 0 { IdentsIn(es[1..], i - 1); }
  }

  lemma UnboundEmpty(es: seq<Expr>, allowed: set<string>)
    requires Unbound(es, allowed) == {}
    ensures forall e :: e in es ==> Idents(e) <= allowed
  {
    forall e | e in es ensures Idents(e) <= allowed {
      var i :| 0 <= i < |es| && es[i] == e;
      IdentsIn(es, i);
      forall x | x in Idents(e) ensures x in allowed { assert x !in ExprsIdents(es) - allowed; }
    }
  }

  /** Every `return` of a body fits the return type, unless it sits inside `audited`. */
  lemma {:induction false} FitsExpr(e: Expr, env: Env, fr: Frame, fuel: nat, ps: set<string>)
    requires Regular(e, ps, fr.audited) && fr.ret.IsInteger()
    ensures var R := Eval(e, env, fr, fuel); R.Ret? ==> R.r.IntV? && fr.ret.InRange(R.r.i)
    decreases fuel, e, 1
  {
    match e
    case Unary(_, a) => FitsExpr(a, env, fr, fuel, ps);
    case Binary(_, l, r) => FitsExpr(l, env, fr, fuel, ps); FitsExpr(r, env, fr, fuel, ps);
    case If(_, _, _) => FitsIf(e, env, fr, fuel, ps);
    case Call(_, args) => FitsAll(args, env, fr, fuel, ps);
    case _ =>
  }

  lemma {:induction false} FitsIf(e: Expr, env: Env, fr: Frame, fuel: nat, ps: set<string>)
    requires e.If? && Regular(e, ps, fr.audited) && fr.ret.IsInteger()
    ensures var R := EvalIf(e, env, fr, fuel); R.Ret? ==> R.r.IntV? && fr.ret.InRange(R.r.i)
    decreases fuel, e, 0
  {
    FitsExpr(e.cond, env, fr, fuel, ps);
    FitsBlock(e.thn, env, UnitV, fr, fuel, ps);
    FitsElse(e.els, env, fr, fuel, ps);
  }

  lemma {:induction false} FitsElse(els: Else, env: Env, fr: Frame, fuel: nat, ps: set<string>)
    requires RegularElse(els, ps, fr.audited) && fr.ret.IsInteger()
    ensures var R := EvalElse(els, env, fr, fuel); R.Ret? ==> R.r.IntV? && fr.ret.InRange(R.r.i)
    decreases fuel, els
  {
    match els
    case NoElse =>
    case ElseBlock(b) => FitsBlock(b, env, UnitV, fr, fuel, ps);
    case ElseIf(e) => FitsExpr(e, env, fr, fuel, ps);
  }

  lemma {:induction false} FitsAll(es: seq<Expr>, env: Env, fr: Frame, fuel: nat, ps: set<string>)
    requires RegularAll(es, ps, fr.audited) && fr.ret.IsInteger()
    ensures var R := EvalAll(es, env, fr, fuel); R.Ret? ==> R.r.IntV? && fr.ret.InRange(R.r.i)
    decreases fuel, es
  {
    if es != [] { FitsExpr(es[0], env, fr, fuel, ps); FitsAll(es[1..], env, fr, fuel, ps); }
  }

  lemma {:induction false} FitsBlock(b: seq<Stmt>, env: Env, last: Value, fr: Frame, fuel: nat, ps: set<string>)
    requires RegularBlock(b, ps, fr.audited) && fr.ret.IsInteger()
    ensures var R := Exec(b, env, last, fr, fuel); R.Ret? ==> R.r.IntV? && fr.ret.InRange(R.r.i)
    decreases fuel, b
  {
    if b != [] {
      FitsStmt(b[0], env, fr, fuel, ps);
      var r := ExecOne(b[0], env, fr, fuel);
      if r.Val? { FitsBlock(b[1..], r.v.0, r.v.1, fr, fuel, ps); }
    }
  }

  lemma {:induction false} FitsStmt(s: Stmt, env: Env, fr: Frame, fuel: nat, ps: set<string>)
    requires RegularStmt(s, ps, fr.audited) && fr.ret.IsInteger()
    ensures var R := ExecOne(s, env, fr, fuel); R.Ret? ==> R.r.IntV? && fr.ret.InRange(R.r.i)
    decreases fuel, s
  {
    match s
    case Let(_, _, e) => FitsExpr(e, env, fr, fuel, ps);
    case Return(Some(e)) => FitsExpr(e, env, fr, fuel, ps);
    case Return(None) =>
    case While(c, b) =>
      FitsExpr(c, env, fr, fuel, ps);
      FitsBlock(b, env, UnitV, fr, fuel, ps);
      if fuel > 0 { FitsStmt(s, env, fr, fuel - 1, ps); }
    case ExprStmt(e) => FitsExpr(e, env, fr, fuel, ps);
    case Audited(b) => FitsBlock(b, env, UnitV, fr.(audited := true), fuel, ps);
  }

  /** A `Proved` contract is honoured by every run that ends: whatever the fuel, arguments the
      parameter types admit and every `pre` accepts produce a value every `post` accepts. */
  lemma OneRun(f: FnDecl, pre: seq<Expr>, tk: Task, fns: Program, fuel: nat, vs: seq<Value>, env: Env)
    requires CheckContract(f, pre, tk).Proved? && Checkable(f, pre, tk.post)
    requires Honest(tk.oracle) && SummariesOk(tk.summaries, fns, fuel)
    requires |vs| == |f.params| && Bind(f.params, vs, false) == Val(env) && AllHold(pre, env, fns)
    ensures var R := RunBody(f, env, fns, fuel); R.Val? ==> AllHold(tk.post, env["result" := R.v], fns)
  {
    var m := Enter(f.params, vs);
    EnterNames(f.params, vs);
    var (sc, st) := EnterParams(f.params, Start);
    AssumeHolds(pre, sc, env, st, tk, m, fns);
    UnboundEmpty(pre + tk.post, ParamNames(f.params) + {"result"});
    var u := Run(ParamNames(f.params), env, Frame(fns, f.ret, false), fuel, tk);
    var _ := SimStmts(u, f.body, sc, env, UnitV, AssumePre(pre, sc, st, tk).st, m);
  }

  lemma ReturnFits(f: FnDecl, env: Env, fns: Program, fuel: nat)
    requires RegularBlock(f.body, ParamNames(f.params), false) && f.ret.IsInteger()
    ensures var R := RunBody(f, env, fns, fuel); R.Val? ==> R.v.IntV? && f.ret.InRange(R.v.i)
  {
    FitsBlock(f.body, env, UnitV, Frame(fns, f.ret, false), fuel, ParamNames(f.params));
  }

  lemma ProvedIsHonoured(f: FnDecl, pre: seq<Expr>, tk: Task, fns: Program, fuel: nat)
    requires CheckContract(f, pre, tk).Proved? && Checkable(f, pre, tk.post)
    requires Honest(tk.oracle) && SummariesOk(tk.summaries, fns, fuel)
    ensures Honours(f, pre, tk.post, fns, fuel)
  {
    forall vs: seq<Value>, env: Env, w: Value
      | |vs| == |f.params| && Bind(f.params, vs, false) == Val(env) && RunBody(f, env, fns, fuel) == Val(w)
      ensures w.IntV? && f.ret.InRange(w.i)
              && (AllHold(pre, env, fns) ==> AllHold(tk.post, env["result" := w], fns))
    {
      OneValue(f, pre, tk, fns, fuel, vs, env, w);
    }
  }

  lemma OneValue(f: FnDecl, pre: seq<Expr>, tk: Task, fns: Program, fuel: nat, vs: seq<Value>, env: Env, w: Value)
    requires CheckContract(f, pre, tk).Proved? && Checkable(f, pre, tk.post)
    requires Honest(tk.oracle) && SummariesOk(tk.summaries, fns, fuel)
    requires |vs| == |f.params| && Bind(f.params, vs, false) == Val(env) && RunBody(f, env, fns, fuel) == Val(w)
    ensures w.IntV? && f.ret.InRange(w.i)
    ensures AllHold(pre, env, fns) ==> AllHold(tk.post, env["result" := w], fns)
  {
    ReturnFits(f, env, fns, fuel);
    if AllHold(pre, env, fns) { OneRun(f, pre, tk, fns, fuel, vs, env); }
  }
}
