/** The simulation proof, construct by construct. */
module ContractSimulation {
  import opened Prelude
  import opened Types
  import opened ContractLanguage
  import opened ContractWalker
  import opened ContractFresh
  import opened ContractSound

  // ---------------------------------------------------------------- lists

  lemma RegularTake(b: seq<Stmt>, n: nat, ps: set<string>, audited: bool)
    requires RegularBlock(b, ps, audited) && n < |b|
    ensures RegularBlock(b[..n], ps, audited) && RegularStmt(b[n], ps, audited)
  {
    if n > 0 { RegularTake(b[1..], n - 1, ps, audited); assert b[..n][1..] == b[1..][..n - 1]; }
  }

  /** Running a block is running all but its last statement, then the last one. */
  lemma ExecSplit(b: seq<Stmt>, env: Env, last: Value, fr: Frame, fuel: nat)
    requires b != []
    ensures var n := |b| - 1; var r := Exec(b[..n], env, last, fr, fuel);
            Exec(b, env, last, fr, fuel) == if r.Val? then ExecOne(b[n], r.v.0, fr, fuel) else r
  {
    var n := |b| - 1;
    var r1 := ExecOne(b[0], env, fr, fuel);
    if n > 0 {
      assert b[..n][1..] == b[1..][..n - 1] && b[..n][0] == b[0];
      if r1.Val? { ExecSplit(b[1..], r1.v.0, r1.v.1, fr, fuel); }
    } else if r1.Val? {
      assert b[1..] == [];
    }
  }

  // ---------------------------------------------------------------- returns

  /** Accepting a `return`: the solver found no violation, so the value meets every clause. */
  lemma {:induction false} SimCheck(u: Run, clauses: seq<Expr>, t: Term, sc: Scope, env: Env, st: St, m: Model)
    requires u.Ok() && Here(u, sc, env, st, m) && FreshT(t, st.next)
    requires |clauses| <= |u.tk.post| && forall c :: c in clauses ==> c in u.tk.post
    requires var W := CheckReturn(clauses, t, sc, st, u.tk); W.Done? && W.st.found.None?
    ensures CheckReturn(clauses, t, sc, st, u.tk).st == st
    ensures AllHold(clauses, u.args["result" := IntV(TermVal(t, m))], u.fr.fns)
    decreases |clauses|
  {
    if clauses != [] {
      var c := clauses[0];
      assert c in u.tk.post;
      var sc2, env2 := sc["result" := t], u.args["result" := IntV(TermVal(t, m))];
      PlainBool(c, sc2, env2, st, u.tk.ForClause(), m, Frame(u.fr.fns, Ty.Bool, false), 0);
      var q := WalkBool(c, sc2, st, u.tk.ForClause()).v;
      var asked := st.facts + [NotF(q)];
      var answer := u.tk.oracle(asked);
      assert !True(q, m) ==> AllTrue(asked, m);
      assert True(q, m);
      SimCheck(u, clauses[1..], t, sc, env, st, m);
    }
  }

  // ---------------------------------------------------------------- calls

  lemma BindMatches(params: seq<Param>, ts: seq<Term>, vs: seq<Value>, m: Model)
    requires |params| == |ts| == |vs| && Bind(params, vs, false).Val?
    requires forall p :: p in params ==> p.ty.IsInteger()
    requires forall i :: 0 <= i < |vs| ==> vs[i] == IntV(TermVal(ts[i], m))
    ensures var sc, env := BindTerms(params, ts), Bind(params, vs, false).v;
            forall x :: x in sc ==> x in env && env[x] == IntV(TermVal(sc[x], m))
  {
    if params != [] {
      var n := |params| - 1;
      BindMatches(params[..n], ts[..n], vs[..n], m);
    }
  }

  lemma {:induction false} ClausesMeaning(es: seq<Expr>, sc: Scope, env: Env, st: St, ck: Task, m: Model, fns: Program)
    requires ck.Size() == 0 && AllPlain(es) && WalkClauses(es, sc, st, ck).Done?
    requires forall x :: x in sc ==> x in env && env[x] == IntV(TermVal(sc[x], m))
    ensures WalkClauses(es, sc, st, ck).st == st
    ensures True(WalkClauses(es, sc, st, ck).v, m) ==> AllHold(es, env, fns)
    decreases |es|
  {
    if es != [] {
      var n := |es| - 1;
      ClausesMeaning(es[..n], sc, env, st, ck, m, fns);
      PlainBool(es[n], sc, env, st, ck, m, Frame(fns, Ty.Bool, false), 0);
      assert es == es[..n] + [es[n]];
    }
  }

  /** The asserted axioms `pre => post` hold of a call's real value. */
  lemma {:induction false} AxiomsHold(es: seq<Expr>, pre: Formula, sc: Scope, env: Env, st: St, tk: Task, res: Term, m: Model, fns: Program)
    requires AllPlain(es) && WalkAxioms(es, pre, sc, st, tk, res).Done?
    requires forall x :: x in sc ==> x in env && env[x] == IntV(TermVal(sc[x], m))
    requires True(pre, m) ==> AllHold(es, env, fns)
    requires AllTrue(st.facts, m)
    ensures var W := WalkAxioms(es, pre, sc, st, tk, res);
            W.v == res && W.st.next == st.next && W.st.found == st.found && AllTrue(W.st.facts, m)
    decreases |es|
  {
    if es != [] {
      PlainBool(es[0], sc, env, st, tk.ForClause(), m, Frame(fns, Ty.Bool, false), 0);
      var q := WalkBool(es[0], sc, st, tk.ForClause()).v;
      if True(pre, m) { assert Holds(es[0], env, fns); }
      AxiomsHold(es[1..], pre, sc, env, st.Assert(OrF(NotF(pre), q)), tk, res, m, fns);
    }
  }

  lemma BoundsTrue(st: St, t: Term, ty: Ty, m: Model)
    requires AllTrue(st.facts, m) && ty.InRange(TermVal(t, m))
    ensures AllTrue(WithBounds(st, t, ty).facts, m)
  {}

  /** The axioms of a call hold once its fresh symbol reads the value the call really returned. */
  lemma CallHolds(u: Run, sm: Summary, ts: seq<Term>, inner: Env, w: int, st: St, m: Model)
    requires |sm.params| == |ts| && AllPlain(sm.pre) && AllPlain(sm.post) && CallAxioms(sm, ts, st, u.tk).Done?
    requires AllTrue(st.facts, m) && At(m, st.next) == w && sm.ret.InRange(w)
    requires var sc := BindTerms(sm.params, ts); forall x :: x in sc ==> x in inner && inner[x] == IntV(TermVal(sc[x], m))
    requires AllHold(sm.pre, inner, u.fr.fns) ==> AllHold(sm.post, inner["result" := IntV(w)], u.fr.fns)
    ensures var W := CallAxioms(sm, ts, st, u.tk);
            W.v == Sym(st.next) && W.st.next == st.next + 1 && AllTrue(W.st.facts, m)
  {
    var res, sc := Sym(st.next), BindTerms(sm.params, ts);
    var s1 := st.(next := st.next + 1);
    BoundsTrue(s1, res, sm.ret, m);
    var s2 := WithBounds(s1, res, sm.ret);
    ClausesMeaning(sm.pre, sc, inner, s2, u.tk.ForClause(), m, u.fr.fns);
    var pre := WalkClauses(sm.pre, sc, s2, u.tk.ForClause());
    AxiomsHold(sm.post, pre.v, sc["result" := res], inner["result" := IntV(w)], pre.st, u.tk, res, m, u.fr.fns);
  }

  /** The model in which the fresh symbol of a call is the value the call really returned. */
  lemma CallModel(u: Run, sm: Summary, d: FnDecl, ts: seq<Term>, vs: seq<Value>, w: Value, st: St, m: Model) returns (m2: Model)
    requires |sm.params| == |ts| == |vs| && d.params == sm.params && d.ret == sm.ret && u.fuel > 0
    requires AllPlain(sm.pre) && AllPlain(sm.post) && forall p :: p in sm.params ==> p.ty.IsInteger()
    requires Honours(d, sm.pre, sm.post, u.fr.fns, u.fuel - 1)
    requires Bind(d.params, vs, false).Val? && RunBody(d, Bind(d.params, vs, false).v, u.fr.fns, u.fuel - 1) == Val(w)
    requires FreshSt(st) && AllTrue(st.facts, m) && FreshTs(ts, st.next)
    requires forall i :: 0 <= i < |vs| ==> vs[i] == IntV(TermVal(ts[i], m))
    requires CallAxioms(sm, ts, st, u.tk).Done?
    ensures Agree(m, m2, st.next) && w.IntV? && At(m2, st.next) == w.i
    ensures var W := CallAxioms(sm, ts, st, u.tk);
            W.v == Sym(st.next) && W.st.next == st.next + 1 && AllTrue(W.st.facts, m2)
  {
    m2 := m[st.next := w.i];
    forall i | 0 <= i < |vs| ensures vs[i] == IntV(TermVal(ts[i], m2)) { SameT(ts[i], st.next, m, m2); }
    BindMatches(sm.params, ts, vs, m2);
    SameFacts(st, m, m2);
    CallHolds(u, sm, ts, Bind(d.params, vs, false).v, w.i, st, m2);
  }

  lemma {:induction false} SimCall(u: Run, e: Expr, sc: Scope, env: Env, st: St, m: Model) returns (m2: Model)
    requires e.Call? && u.Ok() && Regular(e, u.ps, u.fr.audited) && Here(u, sc, env, st, m)
    requires var W := WalkCall(e, sc, st, u.tk); W.Done? && W.st.found.None?
    ensures var W, R := WalkCall(e, sc, st, u.tk), EvalCall(e, env, u.fr, u.fuel);
            && (R.Val? ==> Agree(m, m2, st.next) && Here(u, sc, env, W.st, m2) && R.v == IntV(TermVal(W.v, m2)))
            && (R.Ret? ==> u.Meets(R.r))
    decreases e, 1
  {
    var g, args := e.callee, e.args;
    var sm := u.tk.summaries[g];
    var W := WalkCall(e, sc, st, u.tk);
    var W1 := WalkArgs(args, sc, st, u.tk);
    m2 := SimAll(u, args, sc, env, st, m);
    if EvalCall(e, env, u.fr, u.fuel).Val? {
      assert SummaryOk(g, sm, u.fr.fns, u.fuel);
      var d := FindFn(u.fr.fns, g).value;
      var vs := EvalAll(args, env, u.fr, u.fuel).v;
      var w := RunBody(d, Bind(d.params, vs, false).v, u.fr.fns, u.fuel - 1).v;
      FreshArgs(args, sc, st, u.tk);
      FreshInt(e, sc, st, u.tk);
      var m1 := m2;
      m2 := CallModel(u, sm, d, W1.v, vs, w, W1.st, m1);
      Forward(u, sc, env, W1.st, m1, W.st, m2);
    }
  }

  /** The values are those of the terms. */
  predicate Read(ts: seq<Term>, vs: seq<Value>, m: Model) {
    |ts| == |vs| && forall i :: 0 <= i < |vs| ==> vs[i] == IntV(TermVal(ts[i], m))
  }

  lemma ReadMore(t: Term, ts: seq<Term>, v: Value, vs: seq<Value>, m: Model)
    requires v == IntV(TermVal(t, m)) && Read(ts, vs, m)
    ensures Read([t] + ts, [v] + vs, m)
  {}

  lemma {:induction false} SimAll(u: Run, es: seq<Expr>, sc: Scope, env: Env, st: St, m: Model) returns (m2: Model)
    requires u.Ok() && RegularAll(es, u.ps, u.fr.audited) && Here(u, sc, env, st, m)
    requires var W := WalkArgs(es, sc, st, u.tk); W.Done? && W.st.found.None?
    ensures var W, R := WalkArgs(es, sc, st, u.tk), EvalAll(es, env, u.fr, u.fuel);
            && (R.Val? ==> Agree(m, m2, st.next) && Here(u, sc, env, W.st, m2) && Read(W.v, R.v, m2))
            && (R.Ret? ==> u.Meets(R.r))
    decreases es, 0
  {
    m2 := m;
    if es != [] {
      var W1, R1 := WalkInt(es[0], sc, st, u.tk), Eval(es[0], env, u.fr, u.fuel);
      m2 := SimInt(u, es[0], sc, env, st, m);
      if R1.Val? {
        var m1 := m2;
        var W2, R2 := WalkArgs(es[1..], sc, W1.st, u.tk), EvalAll(es[1..], env, u.fr, u.fuel);
        m2 := SimAll(u, es[1..], sc, env, W1.st, m1);
        if R2.Val? {
          FreshInt(es[0], sc, st, u.tk);
          SameT(W1.v, W1.st.next, m1, m2);
          ReadMore(W1.v, W2.v, R1.v, R2.v, m2);
        }
      }
    }
  }

  // ---------------------------------------------------------------- expressions

  lemma {:induction false} SimInt(u: Run, e: Expr, sc: Scope, env: Env, st: St, m: Model) returns (m2: Model)
    requires u.Ok() && Regular(e, u.ps, u.fr.audited) && Here(u, sc, env, st, m)
    requires var W := WalkInt(e, sc, st, u.tk); W.Done? && W.st.found.None?
    ensures var W, R := WalkInt(e, sc, st, u.tk), Eval(e, env, u.fr, u.fuel);
            && (R.Val? ==> Agree(m, m2, st.next) && Here(u, sc, env, W.st, m2) && R.v == IntV(TermVal(W.v, m2)))
            && (R.Ret? ==> u.Meets(R.r))
    decreases e, 2
  {
    if e.Unary? { m2 := SimInt(u, e.arg, sc, env, st, m); }
    else if e.Binary? { m2 := SimArith(u, e, sc, env, st, m); }
    else if e.If? { m2 := SimIf(u, e, sc, env, st, m); }
    else if e.Call? { m2 := SimCall(u, e, sc, env, st, m); }
    else { m2 := m; }
  }

  lemma {:induction false} SimArith(u: Run, e: Expr, sc: Scope, env: Env, st: St, m: Model) returns (m2: Model)
    requires e.Binary? && u.Ok() && Regular(e, u.ps, u.fr.audited) && Here(u, sc, env, st, m)
    requires var W := WalkInt(e, sc, st, u.tk); W.Done? && W.st.found.None?
    ensures var W, R := WalkInt(e, sc, st, u.tk), Eval(e, env, u.fr, u.fuel);
            && (R.Val? ==> Agree(m, m2, st.next) && Here(u, sc, env, W.st, m2) && R.v == IntV(TermVal(W.v, m2)))
            && (R.Ret? ==> u.Meets(R.r))
    decreases e, 1
  {
    m2 := SimPair(u, e, sc, env, st, m);
  }

  /** Two operands, left then right. */
  lemma {:induction false} SimPair(u: Run, e: Expr, sc: Scope, env: Env, st: St, m: Model) returns (m2: Model)
    requires e.Binary? && u.Ok() && Regular(e, u.ps, u.fr.audited) && Here(u, sc, env, st, m)
    requires WalkInt(e.l, sc, st, u.tk).Done?
    requires var W := WalkInt(e.r, sc, WalkInt(e.l, sc, st, u.tk).st, u.tk); W.Done? && W.st.found.None?
    ensures var W1, L := WalkInt(e.l, sc, st, u.tk), Eval(e.l, env, u.fr, u.fuel);
            var W2, R := WalkInt(e.r, sc, W1.st, u.tk), Eval(e.r, env, u.fr, u.fuel);
            && (L.Val? && R.Val? ==> Agree(m, m2, st.next) && Here(u, sc, env, W2.st, m2)
                                     && L.v == IntV(TermVal(W1.v, m2)) && R.v == IntV(TermVal(W2.v, m2)))
            && (L.Ret? ==> u.Meets(L.r)) && (L.Val? && R.Ret? ==> u.Meets(R.r))
    decreases e, 0
  {
    m2 := SimInt(u, e.l, sc, env, st, m);
    if Eval(e.l, env, u.fr, u.fuel).Val? {
      var W1, m1 := WalkInt(e.l, sc, st, u.tk), m2;
      m2 := SimInt(u, e.r, sc, env, W1.st, m1);
      if Eval(e.r, env, u.fr, u.fuel).Val? {
        FreshInt(e.l, sc, st, u.tk);
        SameT(W1.v, W1.st.next, m1, m2);
      }
    }
  }

  /** After a condition: the facts on entry to the branch that runs, whatever symbols the walk of
      the other branch has consumed. */
  lemma Branch(u: Run, sc: Scope, env: Env, st: St, m: Model, f: Formula, n: nat)
    requires Here(u, sc, env, st, m) && FreshF(f, st.next) && st.next <= n
    ensures True(f, m) ==> Here(u, sc, env, st.Assert(f), m)
    ensures !True(f, m) ==> Here(u, sc, env, st.(next := n).Assert(NotF(f)), m)
  {
    RaiseF(f, st.next, n);
    RaiseSt(st, n);
    RaiseScope(sc, st.next, n);
  }

  /** Leaving a branch: back to the facts before it. */
  lemma Leave(u: Run, sc: Scope, env: Env, st: St, m: Model, f: Formula, st2: St, m2: Model)
    requires Here(u, sc, env, st, m) && FreshF(f, st.next) && Agree(m, m2, st.next)
    requires st2.facts == st.facts && st.next <= st2.next
    ensures Here(u, sc, env, st2, m2) && True(f, m) == True(f, m2)
  {
    SameF(f, st.next, m, m2);
    SameFacts(st, m, m2);
    RaiseSt(st, st2.next);
    Forward(u, sc, env, st, m, st2, m2);
  }

  lemma {:induction false} SimIf(u: Run, e: Expr, sc: Scope, env: Env, st: St, m: Model) returns (m2: Model)
    requires e.If? && u.Ok() && Regular(e, u.ps, u.fr.audited) && Here(u, sc, env, st, m)
    requires var W := WalkIf(e, sc, st, u.tk); W.Done? && W.st.found.None?
    ensures var W, R := WalkIf(e, sc, st, u.tk), EvalIf(e, env, u.fr, u.fuel);
            && (R.Val? ==> Agree(m, m2, st.next) && Here(u, sc, env, W.st, m2) && R.v == IntV(TermVal(W.v, m2)))
            && (R.Ret? ==> u.Meets(R.r))
    decreases e, 1
  {
    var W, W1, C := WalkIf(e, sc, st, u.tk), WalkBool(e.cond, sc, st, u.tk), Eval(e.cond, env, u.fr, u.fuel);
    var f, s1 := W1.v, W1.st;
    IfValueWalk(e, sc, st, u.tk);
    m2 := SimBool(u, e.cond, sc, env, st, m);
    if C.Val? {
      var m1 := m2;
      FreshBool(e.cond, sc, st, u.tk);
      if C.v.t {
        Branch(u, sc, env, s1, m1, f, s1.next);
        m2 := SimValue(u, e.thn, sc, env, s1.Assert(f), m1);
        if EvalIf(e, env, u.fr, u.fuel).Val? {
          AgreeAcross(m, m1, m2, st.next, s1.next, s1.next);
          Leave(u, sc, env, s1, m1, f, W.st, m2);
        }
      } else {
        var s3 := s1.(next := WalkBlockValue(e.thn, sc, s1.Assert(f), u.tk).st.next).Assert(NotF(f));
        Branch(u, sc, env, s1, m1, f, s3.next);
        m2 := SimElseValue(u, e.els, sc, env, s3, m1);
        if EvalIf(e, env, u.fr, u.fuel).Val? {
          AgreeAcross(m, m1, m2, st.next, s1.next, s3.next);
          Leave(u, sc, env, s1, m1, f, W.st, m2);
        }
      }
    }
  }

  /** How the walk of a value-position `if` goes. */
  lemma IfValueWalk(e: Expr, sc: Scope, st: St, tk: Task)
    requires e.If? && (var W := WalkIf(e, sc, st, tk); W.Done? && W.st.found.None?)
    ensures var W, W1 := WalkIf(e, sc, st, tk), WalkBool(e.cond, sc, st, tk);
            && W1.Done? && W1.st.found.None?
            && (var T := WalkBlockValue(e.thn, sc, W1.st.Assert(W1.v), tk);
                && T.Done? && T.st.found.None?
                && (var E := WalkElseValue(e.els, sc, W1.st.(next := T.st.next).Assert(NotF(W1.v)), tk);
                    && E.Done? && E.st.found.None? && st.next <= W1.st.next <= T.st.next <= E.st.next
                    && W.v == Ite(W1.v, T.v, E.v) && W.st == E.st.PopTo(W1.st)))
  {
    var W1 := WalkBool(e.cond, sc, st, tk);
    var T := WalkBlockValue(e.thn, sc, W1.st.Assert(W1.v), tk);
    assert T.st.PopTo(W1.st).found == T.st.found;
    if T.st.found.None? && W1.st.found.None? {
      assert T.st.PopTo(W1.st).Assert(NotF(W1.v)) == W1.st.(next := T.st.next).Assert(NotF(W1.v));
    }
  }

  lemma {:induction false} SimElseValue(u: Run, els: Else, sc: Scope, env: Env, st: St, m: Model) returns (m2: Model)
    requires u.Ok() && RegularElse(els, u.ps, u.fr.audited) && Here(u, sc, env, st, m)
    requires var W := WalkElseValue(els, sc, st, u.tk); W.Done? && W.st.found.None?
    ensures var W, R := WalkElseValue(els, sc, st, u.tk), EvalElse(els, env, u.fr, u.fuel);
            && (R.Val? ==> Agree(m, m2, st.next) && R.v == IntV(TermVal(W.v, m2)))
            && (R.Ret? ==> u.Meets(R.r))
    decreases els
  {
    match els
    case ElseBlock(b) => m2 := SimValue(u, b, sc, env, st, m);
    case ElseIf(e2) => m2 := SimInt(u, e2, sc, env, st, m);
  }

  lemma {:induction false} SimBool(u: Run, e: Expr, sc: Scope, env: Env, st: St, m: Model) returns (m2: Model)
    requires u.Ok() && Regular(e, u.ps, u.fr.audited) && Here(u, sc, env, st, m)
    requires var W := WalkBool(e, sc, st, u.tk); W.Done? && W.st.found.None?
    ensures var W, R := WalkBool(e, sc, st, u.tk), Eval(e, env, u.fr, u.fuel);
            && (R.Val? ==> Agree(m, m2, st.next) && Here(u, sc, env, W.st, m2) && R.v == BoolV(True(W.v, m2)))
            && (R.Ret? ==> u.Meets(R.r))
    decreases e, 2
  {
    if e.Unary? { m2 := SimBool(u, e.arg, sc, env, st, m); }
    else if !e.Binary? { m2 := m; }
    else if e.op.IsLogic() || (e.op.IsEquality() && IsBoolShaped(e.l) && IsBoolShaped(e.r)) {
      m2 := SimConnect(u, e, sc, env, st, m);
    } else {
      m2 := SimCompare(u, e, sc, env, st, m);
    }
  }

  lemma {:induction false} SimCompare(u: Run, e: Expr, sc: Scope, env: Env, st: St, m: Model) returns (m2: Model)
    requires e.Binary? && u.Ok() && Regular(e, u.ps, u.fr.audited) && Here(u, sc, env, st, m)
    requires !(e.op.IsLogic() || (e.op.IsEquality() && IsBoolShaped(e.l) && IsBoolShaped(e.r)))
    requires var W := WalkBool(e, sc, st, u.tk); W.Done? && W.st.found.None?
    ensures var W, R := WalkBool(e, sc, st, u.tk), Eval(e, env, u.fr, u.fuel);
            && (R.Val? ==> Agree(m, m2, st.next) && Here(u, sc, env, W.st, m2) && R.v == BoolV(True(W.v, m2)))
            && (R.Ret? ==> u.Meets(R.r))
    decreases e, 1
  {
    m2 := SimPair(u, e, sc, env, st, m);
  }

  lemma {:induction false} SimConnect(u: Run, e: Expr, sc: Scope, env: Env, st: St, m: Model) returns (m2: Model)
    requires e.Binary? && u.Ok() && Regular(e, u.ps, u.fr.audited) && Here(u, sc, env, st, m)
    requires e.op.IsLogic() || (e.op.IsEquality() && IsBoolShaped(e.l) && IsBoolShaped(e.r))
    requires var W := WalkBool(e, sc, st, u.tk); W.Done? && W.st.found.None?
    ensures var W, R := WalkBool(e, sc, st, u.tk), Eval(e, env, u.fr, u.fuel);
            && (R.Val? ==> Agree(m, m2, st.next) && Here(u, sc, env, W.st, m2) && R.v == BoolV(True(W.v, m2)))
            && (R.Ret? ==> u.Meets(R.r))
    decreases e, 1
  {
    var op, l, r := e.op, e.l, e.r;
    m2 := SimBool(u, l, sc, env, st, m);
    FreshBool(l, sc, st, u.tk);
    var W1 := WalkBool(l, sc, st, u.tk);
    var L := Eval(l, env, u.fr, u.fuel);
    if L.Val? {
      var m1 := m2;
      if op.IsLogic() && L.v.t == op.Or? {
        CallFreeBool(r, sc, W1.st, u.tk);     // `r` is walked but not run
        var s2 := WalkBool(r, sc, W1.st, u.tk).st;
        assert FreshSt(s2);
        Forward(u, sc, env, W1.st, m1, s2, m1);
      } else {
        m2 := SimBool(u, r, sc, env, W1.st, m1);
        if Eval(r, env, u.fr, u.fuel).Val? { SameF(W1.v, W1.st.next, m1, m2); }
      }
    }
  }

  // ---------------------------------------------------------------- blocks and statements

  lemma {:induction false} SimValue(u: Run, b: seq<Stmt>, sc: Scope, env: Env, st: St, m: Model) returns (m2: Model)
    requires u.Ok() && RegularBlock(b, u.ps, u.fr.audited) && Here(u, sc, env, st, m)
    requires var W := WalkBlockValue(b, sc, st, u.tk); W.Done? && W.st.found.None?
    ensures var W, R := WalkBlockValue(b, sc, st, u.tk), EvalBlock(b, env, u.fr, u.fuel);
            && (R.Val? ==> Agree(m, m2, st.next) && R.v == IntV(TermVal(W.v, m2)))
            && (R.Ret? ==> u.Meets(R.r))
    decreases b
  {
    var n := |b| - 1;
    RegularTake(b, n, u.ps, u.fr.audited);
    ExecSplit(b, env, UnitV, u.fr, u.fuel);
    m2 := SimStmts(u, b[..n], sc, env, UnitV, st, m);
    var W1, R1 := WalkStmts(b[..n], sc, st, u.tk), Exec(b[..n], env, UnitV, u.fr, u.fuel);
    if R1.Val? {
      m2 := SimTail(u, b[n], W1.v.1, R1.v.0, W1.st, m2);
    }
  }

  lemma {:induction false} SimTail(u: Run, s: Stmt, sc: Scope, env: Env, st: St, m: Model) returns (m2: Model)
    requires u.Ok() && RegularStmt(s, u.ps, u.fr.audited) && Here(u, sc, env, st, m)
    requires var W := WalkTail(s, sc, st, u.tk); W.Done? && W.st.found.None?
    ensures var W, R := WalkTail(s, sc, st, u.tk), ExecOne(s, env, u.fr, u.fuel);
            && (R.Val? ==> Agree(m, m2, st.next) && Here(u, sc, env, W.st, m2) && R.v.1 == IntV(TermVal(W.v, m2)))
            && (R.Ret? ==> u.Meets(R.r))
    decreases s
  {
    match s case ExprStmt(e) => m2 := SimInt(u, e, sc, env, st, m);
  }

  lemma {:induction false} SimStmts(u: Run, b: seq<Stmt>, sc: Scope, env: Env, last: Value, st: St, m: Model) returns (m2: Model)
    requires u.Ok() && RegularBlock(b, u.ps, u.fr.audited) && Here(u, sc, env, st, m)
    requires var W := WalkStmts(b, sc, st, u.tk); W.Done? && W.st.found.None?
    ensures var W, R := WalkStmts(b, sc, st, u.tk), Exec(b, env, last, u.fr, u.fuel);
            && (R.Val? ==> !W.v.0 && Agree(m, m2, st.next) && Here(u, W.v.1, R.v.0, W.st, m2))
            && (R.Ret? ==> u.Meets(R.r))
    decreases b
  {
    m2 := m;
    if b != [] {
      var W1, R1 := WalkStmt(b[0], sc, st, u.tk), ExecOne(b[0], env, u.fr, u.fuel);
      m2 := SimStmt(u, b[0], sc, env, st, m);
      if R1.Val? {
        var m1 := m2;
        match W1.v.0 {
          case Continues => m2 := SimStmts(u, b[1..], W1.v.1, R1.v.0, R1.v.1, W1.st, m1);
          case ContinuesUnder(f) =>
            FreshStmt(b[0], sc, st, u.tk);
            Forward(u, W1.v.1, R1.v.0, W1.st, m1, W1.st.Assert(f), m1);
            m2 := SimStmts(u, b[1..], W1.v.1, R1.v.0, R1.v.1, W1.st.Assert(f), m1);
            if Exec(b, env, last, u.fr, u.fuel).Val? {
              FreshStmts(b, sc, st, u.tk);
              Prefix(W1.st.facts, WalkStmts(b[1..], W1.v.1, W1.st.Assert(f), u.tk).st.facts, m2);
            }
        }
      }
    }
  }

  lemma {:induction false} SimLet(u: Run, s: Stmt, sc: Scope, env: Env, st: St, m: Model) returns (m2: Model)
    requires s.Let? && u.Ok() && RegularStmt(s, u.ps, u.fr.audited) && Here(u, sc, env, st, m)
    requires var W := WalkStmt(s, sc, st, u.tk); W.Done? && W.st.found.None?
    ensures var W, R := WalkStmt(s, sc, st, u.tk), ExecOne(s, env, u.fr, u.fuel);
            && (R.Val? ==> Agree(m, m2, st.next) && Here(u, W.v.1, R.v.0, W.st, m2))
            && (R.Ret? ==> u.Meets(R.r))
    decreases s, 0
  {
    m2 := SimInt(u, s.value, sc, env, st, m);
    if ExecOne(s, env, u.fr, u.fuel).Val? {
      var W1 := WalkInt(s.value, sc, st, u.tk);
      BoundsTrue(W1.st, W1.v, s.ty, m2);
      FreshStmt(s, sc, st, u.tk);
    }
  }

  lemma {:induction false} SimStmt(u: Run, s: Stmt, sc: Scope, env: Env, st: St, m: Model) returns (m2: Model)
    requires u.Ok() && RegularStmt(s, u.ps, u.fr.audited) && Here(u, sc, env, st, m)
    requires var W := WalkStmt(s, sc, st, u.tk); W.Done? && W.st.found.None?
    ensures var W, R := WalkStmt(s, sc, st, u.tk), ExecOne(s, env, u.fr, u.fuel);
            && (R.Val? ==> !W.v.0.Returns? && Agree(m, m2, st.next) && Here(u, W.v.1, R.v.0, W.st, m2)
                           && (W.v.0.ContinuesUnder? ==> True(W.v.0.f, m2)))
            && (R.Ret? ==> u.Meets(R.r))
    decreases s
  {
    m2 := m;
    match s
    case Let(x, ty, e) => m2 := SimLet(u, s, sc, env, st, m);
    case Return(Some(e)) => SimReturn(u, s, sc, env, st, m);
    case Return(None) =>
    case ExprStmt(e) => m2 := SimExprStmt(u, e, sc, env, st, m);
    case Audited(b) => m2 := SimAudited(u, s, sc, env, st, m);
  }

  lemma {:induction false} SimReturn(u: Run, s: Stmt, sc: Scope, env: Env, st: St, m: Model)
    requires s.Return? && s.result.Some? && u.Ok() && RegularStmt(s, u.ps, u.fr.audited) && Here(u, sc, env, st, m)
    requires var W := WalkStmt(s, sc, st, u.tk); W.Done? && W.st.found.None?
    ensures var R := ExecOne(s, env, u.fr, u.fuel); !R.Val? && (R.Ret? ==> u.Meets(R.r))
    decreases s, 0
  {
    var e := s.result.value;
    var m2 := SimInt(u, e, sc, env, st, m);
    var W1, R1 := WalkInt(e, sc, st, u.tk), Eval(e, env, u.fr, u.fuel);
    if R1.Val? {
      FreshInt(e, sc, st, u.tk);
      SimCheck(u, u.tk.post, W1.v, sc, env, W1.st, m2);
    }
  }

  lemma {:induction false} SimAudited(u: Run, s: Stmt, sc: Scope, env: Env, st: St, m: Model) returns (m2: Model)
    requires s.Audited? && u.Ok() && RegularStmt(s, u.ps, u.fr.audited) && Here(u, sc, env, st, m)
    requires var W := WalkStmt(s, sc, st, u.tk); W.Done? && W.st.found.None?
    ensures var W, R := WalkStmt(s, sc, st, u.tk), ExecOne(s, env, u.fr, u.fuel);
            && (R.Val? ==> !W.v.0.Returns? && Agree(m, m2, st.next) && Here(u, W.v.1, R.v.0, W.st, m2)
                           && (W.v.0.ContinuesUnder? ==> True(W.v.0.f, m2)))
            && (R.Ret? ==> u.Meets(R.r))
    decreases s, 0
  {
    var b, u2 := s.body, u.(fr := u.fr.(audited := true));
    assert forall w :: u2.Meets(w) == u.Meets(w);
    assert Here(u2, sc, env, st, m);
    m2 := SimStmts(u2, b, sc, env, UnitV, st, m);
    var W1, R1 := WalkStmts(b, sc, st, u.tk), Exec(b, env, UnitV, u2.fr, u.fuel);
    if R1.Val? { Forward(u, sc, env, st, m, W1.st, m2); }
  }

  lemma {:induction false} SimExprStmt(u: Run, e: Expr, sc: Scope, env: Env, st: St, m: Model) returns (m2: Model)
    requires u.Ok() && Regular(e, u.ps, u.fr.audited) && Here(u, sc, env, st, m)
    requires var W := WalkExprStmt(e, sc, st, u.tk); W.Done? && W.st.found.None?
    ensures var W, R := WalkExprStmt(e, sc, st, u.tk), Eval(e, env, u.fr, u.fuel);
            && (R.Val? ==> !W.v.Returns? && Agree(m, m2, st.next) && Here(u, sc, env, W.st, m2)
                           && (W.v.ContinuesUnder? ==> True(W.v.f, m2)))
            && (R.Ret? ==> u.Meets(R.r))
    decreases e, 3
  {
    if e.If? {
      m2 := SimIfStmt(u, e, sc, env, st, m);
    } else {
      m2 := SimInt(u, e, sc, env, st, m);
    }
  }

  lemma AgreeAcross(m: Model, m1: Model, m2: Model, n: nat, n1: nat, n2: nat)
    requires Agree(m, m1, n) && Agree(m1, m2, n2) && n <= n1 <= n2
    ensures Agree(m, m2, n) && Agree(m1, m2, n1)
  {}

  lemma {:induction false} SimIfStmt(u: Run, e: Expr, sc: Scope, env: Env, st: St, m: Model) returns (m2: Model)
    requires e.If? && u.Ok() && Regular(e, u.ps, u.fr.audited) && Here(u, sc, env, st, m)
    requires var W := WalkExprStmt(e, sc, st, u.tk); W.Done? && W.st.found.None?
    ensures var W, R := WalkExprStmt(e, sc, st, u.tk), EvalIf(e, env, u.fr, u.fuel);
            && (R.Val? ==> !W.v.Returns? && Agree(m, m2, st.next) && Here(u, sc, env, W.st, m2)
                           && (W.v.ContinuesUnder? ==> True(W.v.f, m2)))
            && (R.Ret? ==> u.Meets(R.r))
    decreases e, 1
  {
    var W, W1, C := WalkExprStmt(e, sc, st, u.tk), WalkBool(e.cond, sc, st, u.tk), Eval(e.cond, env, u.fr, u.fuel);
    var f, s1 := W1.v, W1.st;
    IfStmtWalk(e, sc, st, u.tk);
    m2 := SimBool(u, e.cond, sc, env, st, m);
    if C.Val? {
      var m1 := m2;
      IfStmtRun(e, env, u.fr, u.fuel);
      FreshBool(e.cond, sc, st, u.tk);
      if C.v.t {
        Branch(u, sc, env, s1, m1, f, s1.next);
        m2 := SimStmts(u, e.thn, sc, env, UnitV, s1.Assert(f), m1);
        if EvalIf(e, env, u.fr, u.fuel).Val? {
          AgreeAcross(m, m1, m2, st.next, s1.next, s1.next);
          Leave(u, sc, env, s1, m1, f, W.st, m2);
        }
      } else {
        var s3 := s1.(next := WalkStmts(e.thn, sc, s1.Assert(f), u.tk).st.next).Assert(NotF(f));
        Branch(u, sc, env, s1, m1, f, s3.next);
        m2 := SimElse(u, e.els, sc, env, s3, m1);
        if EvalIf(e, env, u.fr, u.fuel).Val? {
          AgreeAcross(m, m1, m2, st.next, s1.next, s3.next);
          Leave(u, sc, env, s1, m1, f, W.st, m2);
        }
      }
    }
  }

  /** How the walk of an `if` statement goes: its condition, one branch, and the other from the same
      facts. */
  lemma IfStmtWalk(e: Expr, sc: Scope, st: St, tk: Task)
    requires e.If? && (var W := WalkExprStmt(e, sc, st, tk); W.Done? && W.st.found.None?)
    ensures var W, W1 := WalkExprStmt(e, sc, st, tk), WalkBool(e.cond, sc, st, tk);
            && W1.Done? && W1.st.found.None?
            && (var T := WalkStmts(e.thn, sc, W1.st.Assert(W1.v), tk);
                && T.Done? && T.st.found.None?
                && (var E := WalkElse(e.els, sc, W1.st.(next := T.st.next).Assert(NotF(W1.v)), tk);
                    && E.Done? && E.st.found.None? && st.next <= W1.st.next <= T.st.next <= E.st.next
                    && W.v == Join(T.v.0, E.v, W1.v) && W.st == E.st.PopTo(W1.st)))
  {
    var W1 := WalkBool(e.cond, sc, st, tk);
    var T := WalkStmts(e.thn, sc, W1.st.Assert(W1.v), tk);
    assert T.st.PopTo(W1.st).found == T.st.found;
    if T.st.found.None? && W1.st.found.None? {
      assert T.st.PopTo(W1.st).Assert(NotF(W1.v)) == W1.st.(next := T.st.next).Assert(NotF(W1.v));
    }
  }

  lemma IfStmtRun(e: Expr, env: Env, fr: Frame, fuel: nat)
    requires e.If? && (var C := Eval(e.cond, env, fr, fuel); C.Val? && C.v.BoolV?)
    ensures var R := EvalIf(e, env, fr, fuel);
            if Eval(e.cond, env, fr, fuel).v.t then
              var T := Exec(e.thn, env, UnitV, fr, fuel); (R.Val? ==> T.Val?) && (R.Ret? ==> T.Ret? && T.r == R.r)
            else R == EvalElse(e.els, env, fr, fuel)
  {}

  lemma {:induction false} SimElse(u: Run, els: Else, sc: Scope, env: Env, st: St, m: Model) returns (m2: Model)
    requires u.Ok() && Here(u, sc, env, st, m)
    requires RegularElse(els, u.ps, u.fr.audited)
    requires var W := WalkElse(els, sc, st, u.tk); W.Done? && W.st.found.None?
    ensures var W, R := WalkElse(els, sc, st, u.tk), EvalElse(els, env, u.fr, u.fuel);
            && (R.Val? ==> !W.v && Agree(m, m2, st.next))
            && (R.Ret? ==> u.Meets(R.r))
    decreases els
  {
    m2 := m;
    match els
    case NoElse =>
    case ElseBlock(b) => m2 := SimStmts(u, b, sc, env, UnitV, st, m);
    case ElseIf(e2) => m2 := SimExprStmt(u, e2, sc, env, st, m);
  }
}
