/** Why each hypothesis of `ContractTheorems.ProvedIsHonoured` and
    `ContractGenuine.CounterexampleIsGenuine` is needed: a program on which the checker, with a
    truthful solver, reports the wrong thing once that hypothesis is dropped. */
module ContractLimits {
  import opened Prelude
  import opened Types
  import opened ContractLanguage
  import opened ContractWalker
  import opened ContractSound
  import opened ContractGenuine
  import opened ContractTheorems

  const X := Ident("x")
  const RESULT := Ident("result")

  const NEXT := Binary(Add, X, Int(1))
  const PREVIOUS := Binary(Sub, X, Int(1))

  lemma WalkNext(sc: Scope, st: St, tk: Task)
    requires "x" in sc
    ensures WalkInt(NEXT, sc, st, tk) == Done(AddT(sc["x"], Const(1)), st)
    ensures WalkInt(PREVIOUS, sc, st, tk) == Done(SubT(sc["x"], Const(1)), st)
  {}

  function Fn(body: seq<Stmt>): FnDecl { FnDecl("f", [Param("x", U8)], U8, body) }

  /** Entering a one-parameter function. */
  lemma EnterX()
    ensures var s := EnterParams([Param("x", U8)], Start);
            s.0 == map["x" := Sym(0)]
            && s.1 == St([Cmp(GeC, Sym(0), Const(U8.Lo())), Cmp(LeC, Sym(0), Const(U8.Hi()))], 1, None)
    ensures forall v: int :: U8.InRange(v) ==> Bind([Param("x", U8)], [IntV(v)], false) == Val(map["x" := IntV(v)])
  {
    assert [Param("x", U8)][..0] == [];
    forall v: int | U8.InRange(v) ensures Bind([Param("x", U8)], [IntV(v)], false) == Val(map["x" := IntV(v)]) {
      assert [IntV(v)][..0] == [];
    }
  }

  function Silent(fs: seq<Formula>): Answer { Unknown }

  /** The checker's verdict on a one-parameter function is decided by its body's walk. */
  lemma Decide(f: FnDecl, c: Expr, tk: Task)
    requires f.params == [Param("x", U8)] && f.ret.IsInteger()
    requires tk.post == [c] && Idents(c) <= {"x", "result"}
    ensures var W := WalkStmts(f.body, map["x" := Sym(0)], EnterParams([Param("x", U8)], Start).1, tk);
            CheckContract(f, [], tk) ==
              if W.Unsupported? then NotModelled
              else if W.st.found.Some? then Counterexample(W.st.found.value) else Proved
  {
    EnterX();
    assert [] + tk.post == [c] && [c][1..] == [] && ExprsIdents([c]) == Idents(c) + ExprsIdents([]);
    assert ParamNames([Param("x", U8)]) == {"x"};
  }

  /** One run that returns `w` from `v` although the clause is false there refutes the contract. */
  lemma Refute(f: FnDecl, c: Expr, fns: Program, v: int, w: Value)
    requires f.params == [Param("x", U8)] && U8.InRange(v)
    requires var env: Env := map["x" := IntV(v)];
             RunBody(f, env, fns, 0) == Val(w) && !Holds(c, env["result" := w], fns)
    ensures !Honours(f, [], [c], fns, 0)
  {
    EnterX();
    var vs: seq<Value>, env: Env := [IntV(v)], map["x" := IntV(v)];
    assert Bind(f.params, vs, false) == Val(env) && |vs| == |f.params|;
    assert c in [c] && !AllHold([c], env["result" := w], fns) && AllHold([], env, fns);
    assert RunBody(f, env, fns, 0) == Val(w);
  }

  /** Returning `t` under one plain clause asks the solver exactly one question. */
  lemma OneClause(c: Expr, t: Term, sc: Scope, st: St, tk: Task)
    requires tk.post == [c] && Plain(c) && st.found.None? && WalkBool(c, sc["result" := t], st, tk.ForClause()).Done?
    ensures var q := WalkBool(c, sc["result" := t], st, tk.ForClause()).v;
            CheckReturn([c], t, sc, st, tk) == Done((), Ask(c, q, t, sc, st, tk.oracle))
  {
    PlainKeeps(c, sc["result" := t], st, tk.ForClause());
    assert [c][1..] == [];
  }

  /** A truthful solver finds nothing when the clause follows from the facts. */
  lemma NothingToFind(c: Expr, q: Formula, t: Term, sc: Scope, st: St, oracle: Oracle)
    requires Honest(oracle) && forall m: Model :: AllTrue(st.facts, m) ==> True(q, m)
    ensures Ask(c, q, t, sc, st, oracle) == st
  {
    var asked := st.facts + [NotF(q)];
    if oracle(asked).Sat? {
      var m := oracle(asked).model;
      assert True(asked[|st.facts|], m);
      Prefix(st.facts, asked, m);
    }
  }

  /** A body of two statements, the second of which returns. */
  lemma RunTwo(a: Stmt, b: Stmt, env: Env, env1: Env, last: Value, w: Value, fns: Program, fuel: nat)
    requires var fr := Frame(fns, U8, false); ExecOne(a, env, fr, fuel) == Val((env1, last)) && ExecOne(b, env1, fr, fuel) == Ret(w)
    ensures RunBody(Fn([a, b]), env, fns, fuel) == Val(w)
  {
    var body, fr := [a, b], Frame(fns, U8, false);
    assert body[0] == a && body[1..] == [b];
    assert Exec(body, env, UnitV, fr, fuel) == Exec([b], env1, last, fr, fuel);
    assert Exec([b], env1, last, fr, fuel) == Ret(w);
  }

  lemma WalkTwo(a: Stmt, b: Stmt, sc: Scope, st: St, sc1: Scope, st1: St, st2: St, tk: Task)
    requires WalkStmt(a, sc, st, tk) == Done((Continues, sc1), st1) && WalkStmt(b, sc1, st1, tk) == Done((Returns, sc1), st2)
    requires st.found.None? && st1.found.None?
    ensures WalkStmts([a, b], sc, st, tk) == Done((true, sc1), st2)
  {
    var body := [a, b];
    assert body[0] == a && body[1..] == [b];
    assert WalkStmts(body, sc, st, tk) == WalkStmts([b], sc1, st1, tk);
  }

  function Compared(op: BinOp, n: int): Expr { Binary(op, X, Int(n)) }

  lemma WalkCompared(op: BinOp, n: int, sc: Scope, st: St, tk: Task)
    requires op.IsComparison() && "x" in sc
    ensures WalkBool(Compared(op, n), sc, st, tk) == Done(Compare(op, sc["x"], Const(n)), st)
    ensures Plain(Compared(op, n)) && Idents(Compared(op, n)) == {"x"}
  {}

  /** `Unknown` is taken for "no violation": the contract `x == 0` of a function that ignores it. */
  lemma UnknownCountsAsProved()
    ensures var f, c := Fn([Return(Some(Int(0)))]), Compared(Eq, 0);
            CheckContract(f, [], Task([c], map[], Silent)).Proved? && !Honours(f, [], [c], [f], 0)
  {
    var body, c := [Return(Some(Int(0)))], Compared(Eq, 0);
    var f, tk := Fn(body), Task([c], map[], Silent);
    EnterX();
    var sc: Scope, st := map["x" := Sym(0)], EnterParams(f.params, Start).1;
    WalkCompared(Eq, 0, sc["result" := Const(0)], st, tk.ForClause());
    Decide(f, c, tk);
    OneClause(c, Const(0), sc, st, tk);
    assert WalkStmt(body[0], sc, st, tk) == Done((Returns, sc), st);
    var env: Env := map["x" := IntV(5)];
    assert ExecOne(body[0], env, Frame([f], U8, false), 0) == Ret(IntV(0));
    Refute(f, c, [f], 5, IntV(0));
  }

  /** A local that shadows a parameter is what the postcondition reads. */
  lemma ShadowingFoolsTheChecker(oracle: Oracle)
    requires Honest(oracle)
    ensures var f, c := Fn([Let("x", U8, Int(0)), Return(Some(X))]), Compared(Eq, 0);
            CheckContract(f, [], Task([c], map[], oracle)).Proved? && !Honours(f, [], [c], [f], 0)
  {
    var a, b, c := Let("x", U8, Int(0)), Return(Some(X)), Compared(Eq, 0);
    var f, tk := Fn([a, b]), Task([c], map[], oracle);
    EnterX();
    var sc: Scope, st := map["x" := Sym(0)], EnterParams(f.params, Start).1;
    var sc1, st1 := sc["x" := Const(0)], WithBounds(st, Const(0), U8);
    assert WalkStmt(a, sc, st, tk) == Done((Continues, sc1), st1);
    WalkCompared(Eq, 0, sc1["result" := Const(0)], st1, tk.ForClause());
    Decide(f, c, tk);
    OneClause(c, Const(0), sc1, st1, tk);
    NothingToFind(c, Compare(Eq, Const(0), Const(0)), Const(0), sc1, st1, oracle);
    assert WalkStmt(b, sc1, st1, tk) == Done((Returns, sc1), st1);
    WalkTwo(a, b, sc, st, sc1, st1, st1, tk);
    var env, fr: Frame := map["x" := IntV(5)], Frame([f], U8, false);
    RunTwo(a, b, env, env["x" := IntV(0)], UnitV, IntV(0), [f], 0);
    Refute(f, c, [f], 5, IntV(0));
  }

  lemma NextFits(m: Model)
    requires True(Cmp(LeC, AddT(Sym(0), Const(1)), Const(255)), m)
    ensures True(Cmp(LeC, Sym(0), Const(254)), m)
  {
    var t := AddT(Sym(0), Const(1));
    assert TermVal(t, m) == TermVal(Sym(0), m) + TermVal(Const(1), m) && TermVal(t, m) <= TermVal(Const(255), m);
  }

  /** Range facts are taken from inside `audited`, where nothing enforces them. */
  lemma AuditedFoolsTheChecker(oracle: Oracle)
    requires Honest(oracle)
    ensures var f, c := Fn([Audited([Let("y", U8, NEXT)]), Return(Some(X))]), Compared(LtEq, 254);
            CheckContract(f, [], Task([c], map[], oracle)).Proved? && !Honours(f, [], [c], [f], 0)
  {
    var a, b, c := Audited([Let("y", U8, NEXT)]), Return(Some(X)), Compared(LtEq, 254);
    var f, tk := Fn([a, b]), Task([c], map[], oracle);
    EnterX();
    var sc: Scope, st := map["x" := Sym(0)], EnterParams(f.params, Start).1;
    var st1 := WithBounds(st, AddT(Sym(0), Const(1)), U8);
    WalkAudited(sc, st, tk);
    WalkReturnAudited(c, sc, st, tk);
    WalkTwo(a, b, sc, st, sc, st1, st1, tk);
    Decide(f, c, tk) by { WalkCompared(LtEq, 254, sc, st, tk); }
    AuditedRun([f]);
    Refute(f, c, [f], 255, IntV(255));
  }

  lemma WalkAudited(sc: Scope, st: St, tk: Task)
    requires sc == map["x" := Sym(0)] && st.found.None?
    ensures WalkStmt(Audited([Let("y", U8, NEXT)]), sc, st, tk) == Done((Continues, sc), WithBounds(st, AddT(Sym(0), Const(1)), U8))
  {
    var inner, t := [Let("y", U8, NEXT)], AddT(Sym(0), Const(1));
    var st1 := WithBounds(st, t, U8);
    WalkNext(sc, st, tk);
    assert inner[1..] == [] && WalkStmt(inner[0], sc, st, tk) == Done((Continues, sc["y" := t]), st1);
    assert WalkStmts(inner, sc, st, tk) == Done((false, sc["y" := t]), st1);
  }

  /** The bound learnt of `x + 1` answers for `x <= 254`. */
  lemma WalkReturnAudited(c: Expr, sc: Scope, st: St, tk: Task)
    requires Honest(tk.oracle) && c == Compared(LtEq, 254) && tk.post == [c] && sc == map["x" := Sym(0)] && st.found.None?
    ensures var st1 := WithBounds(st, AddT(Sym(0), Const(1)), U8); WalkStmt(Return(Some(X)), sc, st1, tk) == Done((Returns, sc), st1)
  {
    var t, q := AddT(Sym(0), Const(1)), Compare(LtEq, Sym(0), Const(254));
    var st1 := WithBounds(st, t, U8);
    WalkCompared(LtEq, 254, sc["result" := Sym(0)], st1, tk.ForClause());
    OneClause(c, Sym(0), sc, st1, tk);
    forall m: Model | AllTrue(st1.facts, m) ensures True(q, m) {
      assert True(st1.facts[|st.facts| + 1], m) && st1.facts[|st.facts| + 1] == Cmp(LeC, t, Const(255));
      NextFits(m);
    }
    NothingToFind(c, q, Sym(0), sc, st1, tk.oracle);
  }

  /** Unguarded, 256 is stored in a `u8` as 0. */
  lemma AuditedRun(fns: Program)
    ensures var env: Env := map["x" := IntV(255)];
            RunBody(Fn([Audited([Let("y", U8, NEXT)]), Return(Some(X))]), env, fns, 0) == Val(IntV(255))
  {
    var inner := [Let("y", U8, NEXT)];
    var env: Env, fr := map["x" := IntV(255)], Frame(fns, U8, true);
    assert inner[1..] == [];
    assert Eval(NEXT, env, fr, 0) == Val(IntV(256));
    assert ExecOne(inner[0], env, fr, 0) == Val((env["y" := IntV(0)], UnitV));
    assert Exec(inner, env, UnitV, fr, 0) == Val((env["y" := IntV(0)], UnitV));
    RunTwo(Audited(inner), Return(Some(X)), env, env, UnitV, IntV(255), fns, 0);
  }

  // ---------------------------------------------------------------- a call that does not happen

  /** `fn g(x: u8) -> u8 { return x - 1 }`, which traps at 0. */
  const G := FnDecl("g", [Param("x", U8)], U8, [Return(Some(PREVIOUS))])
  const GPOST := Binary(Eq, RESULT, PREVIOUS)
  const GSummary := Summary(G.params, U8, [], [GPOST])

  lemma WalkGPost(sc: Scope, t: Term, st: St, tk: Task)
    requires "x" in sc
    ensures WalkBool(GPOST, sc["result" := t], st, tk) == Done(EqT(t, SubT(sc["x"], Const(1))), st)
    ensures Plain(GPOST) && Idents(GPOST) == {"result", "x"}
  {
    WalkNext(sc["result" := t], st, tk);
  }

  /** The checker itself promotes `g` with the postcondition `result == x - 1`. */
  lemma GIsProved(oracle: Oracle)
    requires Honest(oracle)
    ensures CheckContract(G, [], Task([GPOST], map[], oracle)).Proved?
  {
    var tk := Task([GPOST], map[], oracle);
    EnterX();
    var sc: Scope, st := map["x" := Sym(0)], EnterParams(G.params, Start).1;
    var t := SubT(Sym(0), Const(1));
    WalkNext(sc, st, tk);
    WalkGPost(sc, t, st, tk.ForClause());
    Decide(G, GPOST, tk);
    OneClause(GPOST, t, sc, st, tk);
    NothingToFind(GPOST, EqT(t, t), t, sc, st, oracle);
    assert WalkStmt(G.body[0], sc, st, tk) == Done((Returns, sc), st);
  }

  lemma GIsHonoured(oracle: Oracle, fns: Program, fuel: nat)
    requires Honest(oracle)
    ensures Honours(G, [], [GPOST], fns, fuel)
  {
    GIsProved(oracle);
    assert SummariesOk(map[], fns, fuel);
    var ps := ParamNames(G.params);
    assert G.body[1..] == [] && RegularStmt(G.body[0], ps, false) && RegularBlock([], ps, false);
    assert RegularBlock(G.body, ps, false);
    ProvedIsHonoured(G, [], Task([GPOST], map[], oracle), fns, fuel);
  }

  lemma AxiomBinds(m: Model)
    requires True(OrF(NotF(Truth(true)), EqT(Sym(1), SubT(Sym(0), Const(1)))), m) && True(Cmp(GeC, Sym(1), Const(0)), m)
    ensures TermVal(Sym(0), m) >= 1
  {
    assert !True(NotF(Truth(true)), m) && True(EqT(Sym(1), SubT(Sym(0), Const(1))), m);
    assert TermVal(SubT(Sym(0), Const(1)), m) == TermVal(Sym(0), m) - TermVal(Const(1), m);
  }

  /** Walking the call `g(x)`: the result's bounds and the axiom that ties it to `x`. */
  lemma GCall(st: St, tk: Task) returns (s: St)
    requires st.next == 1 && st.found.None?
    ensures CallAxioms(GSummary, [Sym(0)], st, tk) == Done(Sym(1), s) && s.found.None?
    ensures |s.facts| > 0 && forall m: Model :: AllTrue(s.facts, m) ==> TermVal(Sym(0), m) >= 1
  {
    var s1 := WithBounds(st.(next := 2), Sym(1), U8);
    var sc: Scope := map["x" := Sym(0)];
    assert BindTerms(GSummary.params, [Sym(0)]) == sc by { assert [Sym(0)][..0] == []; }
    WalkGPost(sc, Sym(1), s1, tk.ForClause());
    var axiom := OrF(NotF(Truth(true)), EqT(Sym(1), SubT(Sym(0), Const(1))));
    s := s1.Assert(axiom);
    assert [GPOST][1..] == [];
    assert WalkAxioms([GPOST], Truth(true), sc["result" := Sym(1)], s1, tk, Sym(1)) == Done(Sym(1), s);
    forall m: Model | AllTrue(s.facts, m) ensures TermVal(Sym(0), m) >= 1 {
      assert True(s.facts[|st.facts|], m) && s.facts[|st.facts|] == Cmp(GeC, Sym(1), Const(0));
      assert True(s.facts[|s1.facts|], m) && s.facts[|s1.facts|] == axiom;
      AxiomBinds(m);
    }
  }

  const GUARD := Binary(And, Compared(Gt, 0), Binary(GtEq, Call("g", [X]), Int(0)))

  lemma WalkGuard(sc: Scope, st: St, tk: Task) returns (s: St)
    requires sc == map["x" := Sym(0)] && st.next == 1 && st.found.None? && tk.summaries == map["g" := GSummary]
    ensures exists cond :: WalkBool(GUARD, sc, st, tk) == Done(cond, s)
    ensures s.found.None? && forall m: Model :: AllTrue(s.facts, m) ==> TermVal(Sym(0), m) >= 1
  {
    s := GCall(st, tk);
    WalkCompared(Gt, 0, sc, st, tk);
    assert [X][1..] == [] && [Sym(0)] + [] == [Sym(0)];
    assert WalkArgs([X][1..], sc, st, tk) == Done([], st);
    assert WalkInt([X][0], sc, st, tk) == Done(Sym(0), st);
    assert WalkArgs([X], sc, st, tk) == Done([Sym(0)], st);
    var call := Call("g", [X]);
    assert WalkCall(call, sc, st, tk) == Done(Sym(1), s);
    assert WalkInt(call, sc, st, tk) == Done(Sym(1), s);
    assert WalkBool(GUARD.r, sc, st, tk) == Done(Cmp(GeC, Sym(1), Const(0)), s);
    assert WalkBool(GUARD, sc, st, tk) == Done(AndF(Compare(Gt, Sym(0), Const(0)), Cmp(GeC, Sym(1), Const(0))), s);
  }

  /** Any return is accepted once the facts make `x` positive. */
  lemma AcceptedReturn(e: Expr, t: Term, sc: Scope, st: St, f: Formula, tk: Task)
    requires Honest(tk.oracle) && tk.post == [Compared(GtEq, 1)] && st.found.None? && sc == map["x" := Sym(0)]
    requires forall m: Model :: AllTrue(st.facts, m) ==> TermVal(Sym(0), m) >= 1
    requires WalkInt(e, sc, st.Assert(f), tk) == Done(t, st.Assert(f))
    ensures WalkStmts([Return(Some(e))], sc, st.Assert(f), tk) == Done((true, sc), st.Assert(f))
  {
    var s, c := st.Assert(f), Compared(GtEq, 1);
    WalkCompared(GtEq, 1, sc["result" := t], s, tk.ForClause());
    OneClause(c, t, sc, s, tk);
    forall m: Model | AllTrue(s.facts, m) ensures True(Compare(GtEq, Sym(0), Const(1)), m) { Prefix(st.facts, s.facts, m); }
    NothingToFind(c, Compare(GtEq, Sym(0), Const(1)), t, sc, s, tk.oracle);
    assert WalkStmt(Return(Some(e)), sc, s, tk) == Done((Returns, sc), s);
    assert [Return(Some(e))][0] == Return(Some(e));
  }

  const GUARDED := Fn([ExprStmt(If(GUARD, [Return(Some(Int(1)))], NoElse)), Return(Some(X))])

  lemma GuardedIsProved(oracle: Oracle)
    requires Honest(oracle)
    ensures CheckContract(GUARDED, [], Task([Compared(GtEq, 1)], map["g" := GSummary], oracle)).Proved?
  {
    var c := Compared(GtEq, 1);
    var tk := Task([c], map["g" := GSummary], oracle);
    var a, b := GUARDED.body[0], GUARDED.body[1];
    EnterX();
    var sc: Scope, st := map["x" := Sym(0)], EnterParams(GUARDED.params, Start).1;
    var s := WalkGuard(sc, st, tk);
    var cond := WalkBool(GUARD, sc, st, tk).v;
    AcceptedReturn(Int(1), Const(1), sc, s, cond, tk);
    AcceptedReturn(X, Sym(0), sc, s, NotF(cond), tk);
    assert WalkElse(NoElse, sc, s.Assert(NotF(cond)), tk) == Done(false, s.Assert(NotF(cond)));
    assert WalkExprStmt(a.e, sc, st, tk) == Done(ContinuesUnder(NotF(cond)), s);
    assert WalkStmt(a, sc, st, tk) == Done((ContinuesUnder(NotF(cond)), sc), s);
    assert GUARDED.body == [a, b] && [a, b][1..] == [b];
    assert WalkStmts([a, b], sc, st, tk).st == s;
    Decide(GUARDED, c, tk);
  }

  /** The axiom of a call in the right operand of `&&` is assumed although the call may not run:
      `if x > 0 && g(x) >= 0 { return 1 } return x` is reported to guarantee `x >= 1`. */
  lemma ShortCircuitFoolsTheChecker(oracle: Oracle, fuel: nat)
    requires Honest(oracle)
    ensures CheckContract(G, [], Task([GPOST], map[], oracle)).Proved? && SummariesOk(map["g" := GSummary], [GUARDED, G], fuel)
    ensures var c := Compared(GtEq, 1);
            CheckContract(GUARDED, [], Task([c], map["g" := GSummary], oracle)).Proved?
            && !Honours(GUARDED, [], [c], [GUARDED, G], 0)
  {
    GIsProved(oracle);
    GuardedIsProved(oracle);
    var fns := [GUARDED, G];
    assert FindFn(fns, "g") == Some(G) by { assert fns[1..] == [G]; }
    forall j: nat | j < fuel ensures Honours(G, GSummary.pre, GSummary.post, fns, j) { GIsHonoured(oracle, fns, j); }
    var env: Env, fr := map["x" := IntV(0)], Frame(fns, U8, false);
    var a, b := GUARDED.body[0], GUARDED.body[1];
    assert Eval(GUARD.l, env, fr, 0) == Val(BoolV(false));
    assert Eval(GUARD, env, fr, 0) == Val(BoolV(false));
    assert EvalIf(a.e, env, fr, 0) == Val(UnitV);
    assert GUARDED.body == [a, b];
    RunTwo(a, b, env, env, UnitV, IntV(0), fns, 0);
    Refute(GUARDED, Compared(GtEq, 1), fns, 0, IntV(0));
  }

  // ---------------------------------------------------------------- a violation that is not one

  /** A truthful solver finds a violation when the facts admit one. */
  lemma SomethingToFind(c: Expr, q: Formula, t: Term, sc: Scope, st: St, oracle: Oracle, m: Model)
    requires Honest(oracle) && AllTrue(st.facts, m) && !True(q, m)
    ensures Ask(c, q, t, sc, st, oracle).found.Some?
  {
    var asked := st.facts + [NotF(q)];
    forall i | 0 <= i < |asked| ensures True(asked[i], m) {
      if i < |st.facts| { assert asked[i] == st.facts[i]; }
    }
    assert AllTrue(asked, m);
  }

  const INNER := If(Compared(Gt, 5), [Return(Some(Int(1)))], NoElse)
  const NESTED := Fn([ExprStmt(If(Compared(Gt, 0), [ExprStmt(INNER)], NoElse)), Return(Some(Int(2)))])
  const BIG_OR_ONE := Binary(Or, Compared(LtEq, 5), Binary(Eq, RESULT, Int(1)))

  lemma WalkBigOrOne(n: int, sc: Scope, st: St, tk: Task)
    requires sc == map["x" := Sym(0)]
    ensures WalkBool(BIG_OR_ONE, sc["result" := Const(n)], st, tk) ==
            Done(OrF(Cmp(LeC, Sym(0), Const(5)), EqT(Const(n), Const(1))), st)
    ensures Plain(BIG_OR_ONE) && Idents(BIG_OR_ONE) == {"x", "result"}
  {
    var sc2 := sc["result" := Const(n)];
    WalkCompared(LtEq, 5, sc2, st, tk);
    assert WalkBool(BIG_OR_ONE.r, sc2, st, tk) == Done(EqT(Const(n), Const(1)), st);
  }

  /** `return 1` is accepted under any facts. */
  lemma WalkReturnOne(st: St, tk: Task)
    requires Honest(tk.oracle) && tk.post == [BIG_OR_ONE] && st.found.None?
    ensures var sc: Scope := map["x" := Sym(0)]; WalkStmts([Return(Some(Int(1)))], sc, st, tk) == Done((true, sc), st)
  {
    var sc: Scope, one := map["x" := Sym(0)], [Return(Some(Int(1)))];
    WalkBigOrOne(1, sc, st, tk.ForClause());
    OneClause(BIG_OR_ONE, Const(1), sc, st, tk);
    NothingToFind(BIG_OR_ONE, OrF(Cmp(LeC, Sym(0), Const(5)), EqT(Const(1), Const(1))), Const(1), sc, st, tk.oracle);
    assert WalkStmt(one[0], sc, st, tk) == Done((Returns, sc), st);
  }

  /** Walking the outer `if`: the inner branch returns, yet nothing of it survives. */
  lemma WalkNested(st: St, tk: Task)
    requires Honest(tk.oracle) && tk.post == [BIG_OR_ONE] && st.found.None?
    ensures WalkStmt(NESTED.body[0], map["x" := Sym(0)], st, tk) == Done((Continues, map["x" := Sym(0)]), st)
  {
    var sc: Scope, one := map["x" := Sym(0)], [Return(Some(Int(1)))];
    var outer, inner := Compare(Gt, Sym(0), Const(0)), Compare(Gt, Sym(0), Const(5));
    var s1 := st.Assert(outer);
    var s2 := s1.Assert(inner);
    WalkCompared(Gt, 0, sc, st, tk);
    WalkCompared(Gt, 5, sc, s1, tk);
    WalkReturnOne(s2, tk);
    assert WalkElse(NoElse, sc, s1.Assert(NotF(inner)), tk) == Done(false, s1.Assert(NotF(inner)));
    assert WalkExprStmt(INNER, sc, s1, tk) == Done(ContinuesUnder(NotF(inner)), s1);
    var thn := [ExprStmt(INNER)];
    assert WalkStmt(thn[0], sc, s1, tk) == Done((ContinuesUnder(NotF(inner)), sc), s1);
    assert thn[1..] == [] && WalkStmts([], sc, s1.Assert(NotF(inner)), tk) == Done((false, sc), s1.Assert(NotF(inner)));
    assert WalkStmts(thn, sc, s1, tk) == Done((false, sc), s1);
    assert WalkElse(NoElse, sc, st.Assert(NotF(outer)), tk) == Done(false, st.Assert(NotF(outer)));
    assert WalkExprStmt(If(Compared(Gt, 0), thn, NoElse), sc, st, tk) == Done(Continues, st);
  }

  /** What `if x > 0 { if x > 5 { return 1 } } return 2` returns. */
  lemma RunNested(v: int, fns: Program, fuel: nat)
    ensures var env: Env := map["x" := IntV(v)];
            RunBody(NESTED, env, fns, fuel) == Val(IntV(if v > 5 then 1 else 2))
  {
    var env: Env, fr, one := map["x" := IntV(v)], Frame(fns, U8, false), [Return(Some(Int(1)))];
    var a, b, thn := NESTED.body[0], NESTED.body[1], [ExprStmt(INNER)];
    assert ExecOne(one[0], env, fr, fuel) == Ret(IntV(1));
    assert Exec(one, env, UnitV, fr, fuel) == Ret(IntV(1));
    assert Eval(INNER.cond, env, fr, fuel) == Val(BoolV(v > 5));
    assert EvalIf(INNER, env, fr, fuel) == if v > 5 then Ret(IntV(1)) else Val(UnitV);
    assert ExecOne(thn[0], env, fr, fuel) == if v > 5 then Ret(IntV(1)) else Val((env, UnitV));
    assert thn[1..] == [];
    assert Exec(thn, env, UnitV, fr, fuel) == if v > 5 then Ret(IntV(1)) else Val((env, UnitV));
    assert Eval(Compared(Gt, 0), env, fr, fuel) == Val(BoolV(v > 0));
    assert EvalIf(a.e, env, fr, fuel) == if v > 5 then Ret(IntV(1)) else Val(UnitV);
    assert NESTED.body == [a, b];
    if v > 5 {
      assert ExecOne(a, env, fr, fuel) == Ret(IntV(1));
    } else {
      RunTwo(a, b, env, env, UnitV, IntV(2), fns, fuel);
    }
  }

  lemma NestedHonours(fns: Program, fuel: nat)
    ensures Honours(NESTED, [], [BIG_OR_ONE], fns, fuel)
  {
    forall vs: seq<Value>, env: Env, w: Value
      | |vs| == 1 && Bind(NESTED.params, vs, false) == Val(env) && RunBody(NESTED, env, fns, fuel) == Val(w)
      ensures w.IntV? && U8.InRange(w.i) && AllHold([BIG_OR_ONE], env["result" := w], fns)
    {
      assert NESTED.params[..0] == [] && vs[..0] == [];
      var none: Env := map[];
      assert Bind(NESTED.params[..0], vs[..0], false) == Val(none);
      assert vs[0].IntV? && env == none["x" := vs[0]];
      RunNested(vs[0].i, fns, fuel);
      BigOrOneHolds(vs[0].i, w.i, env["result" := w], fns);
    }
  }

  lemma BigOrOneHolds(x: int, r: int, env: Env, fns: Program)
    requires env == map["x" := IntV(x), "result" := IntV(r)] && (x <= 5 || r == 1)
    ensures Holds(BIG_OR_ONE, env, fns)
  {
    var fr := Frame(fns, Ty.Bool, false);
    assert Eval(Compared(LtEq, 5), env, fr, 0) == Val(BoolV(x <= 5));
    assert Eval(BIG_OR_ONE.r, env, fr, 0) == Val(BoolV(r == 1));
  }

  lemma SixRefutes(q: Formula, st: St) returns (six: Model)
    requires q == OrF(Cmp(LeC, Sym(0), Const(5)), EqT(Const(2), Const(1)))
    requires st.facts == [Cmp(GeC, Sym(0), Const(U8.Lo())), Cmp(LeC, Sym(0), Const(U8.Hi()))]
    ensures AllTrue(st.facts, six) && !True(q, six)
  {
    six := map[0 := 6];
  }

  /** At `return 2` the facts admit `x == 6`. */
  lemma WalkReturnTwo(oracle: Oracle) returns (st2: St)
    requires Honest(oracle)
    ensures var tk, sc: Scope := Task([BIG_OR_ONE], map[], oracle), map["x" := Sym(0)];
            WalkStmt(Return(Some(Int(2))), sc, EnterParams([Param("x", U8)], Start).1, tk) == Done((Returns, sc), st2)
    ensures st2.found.Some?
  {
    var tk, sc: Scope := Task([BIG_OR_ONE], map[], oracle), map["x" := Sym(0)];
    EnterX();
    var st := EnterParams([Param("x", U8)], Start).1;
    WalkBigOrOne(2, sc, st, tk.ForClause());
    OneClause(BIG_OR_ONE, Const(2), sc, st, tk);
    var q := OrF(Cmp(LeC, Sym(0), Const(5)), EqT(Const(2), Const(1)));
    var six := SixRefutes(q, st);
    SomethingToFind(BIG_OR_ONE, q, Const(2), sc, st, oracle, six);
    st2 := Ask(BIG_OR_ONE, q, Const(2), sc, st, oracle);
  }

  /** Outside the decisive bodies a reported counterexample can be wrong: here every run meets the
      contract `x <= 5 || result == 1`. */
  lemma NestedReturnFoolsTheChecker(oracle: Oracle, fuel: nat)
    requires Honest(oracle)
    ensures CheckContract(NESTED, [], Task([BIG_OR_ONE], map[], oracle)).Counterexample?
    ensures Honours(NESTED, [], [BIG_OR_ONE], [NESTED], fuel)
  {
    var tk := Task([BIG_OR_ONE], map[], oracle);
    EnterX();
    var sc: Scope, st := map["x" := Sym(0)], EnterParams(NESTED.params, Start).1;
    var a, b := NESTED.body[0], NESTED.body[1];
    WalkNested(st, tk);
    var st2 := WalkReturnTwo(oracle);
    assert NESTED.body == [a, b];
    WalkTwo(a, b, sc, st, sc, st, st2, tk);
    Decide(NESTED, BIG_OR_ONE, tk) by { WalkBigOrOne(2, sc, st, tk); }
    NestedHonours([NESTED], fuel);
  }

  // ---------------------------------------------------------------- a return that traps

  const NARROWED := Fn([Return(Some(NEXT))])
  function AtMost(n: int): Expr { Binary(LtEq, RESULT, Int(n)) }
  const IN_BYTE := AtMost(255)

  lemma WalkAtMost(n: int, sc: Scope, st: St, tk: Task)
    requires "result" in sc
    ensures WalkBool(AtMost(n), sc, st, tk) == Done(Compare(LtEq, sc["result"], Const(n)), st)
    ensures Plain(AtMost(n)) && Idents(AtMost(n)) == {"result"}
  {}

  lemma AtMostHolds(n: int, w: Value, env: Env, fns: Program)
    requires w.IntV? && w.i <= n
    ensures AllHold([AtMost(n)], env["result" := w], fns)
  {
    assert Eval(AtMost(n), env["result" := w], Frame(fns, Ty.Bool, false), 0) == Val(BoolV(w.i <= n));
  }

  lemma NarrowedHonours(fns: Program, fuel: nat)
    ensures Honours(NARROWED, [], [IN_BYTE], fns, fuel)
  {
    forall vs: seq<Value>, env: Env, w: Value
      | |vs| == 1 && Bind(NARROWED.params, vs, false) == Val(env) && RunBody(NARROWED, env, fns, fuel) == Val(w)
      ensures w.IntV? && U8.InRange(w.i) && AllHold([IN_BYTE], env["result" := w], fns)
    {
      assert NARROWED.params[..0] == [] && vs[..0] == [];
      var none: Env := map[];
      assert Bind(NARROWED.params[..0], vs[..0], false) == Val(none);
      var fr := Frame(fns, U8, false);
      assert vs[0].IntV? && env == none["x" := vs[0]] && Eval(NEXT, env, fr, fuel) == Val(IntV(vs[0].i + 1));
      assert ExecOne(NARROWED.body[0], env, fr, fuel) == if U8.InRange(vs[0].i + 1) then Ret(IntV(vs[0].i + 1)) else Trap;
      assert Exec(NARROWED.body, env, UnitV, fr, fuel) == if U8.InRange(vs[0].i + 1) then Ret(IntV(vs[0].i + 1)) else Trap;
      assert w == IntV(vs[0].i + 1) && U8.InRange(w.i);
      AtMostHolds(255, w, env, fns);
    }
  }

  /** The walker does not hold a returned value to its type, so a counterexample may stand for a run
      that traps at the `return`: here `x + 1` is returned as a `u8`, and every run that does return
      meets the contract `result <= 255`. */
  lemma TrappingReturnIsReported(oracle: Oracle, fuel: nat)
    requires Honest(oracle)
    ensures CheckContract(NARROWED, [], Task([IN_BYTE], map[], oracle)).Counterexample?
    ensures Honours(NARROWED, [], [IN_BYTE], [NARROWED], fuel)
  {
    var tk := Task([IN_BYTE], map[], oracle);
    EnterX();
    var sc: Scope, st := map["x" := Sym(0)], EnterParams(NARROWED.params, Start).1;
    var st2 := WalkReturnNext(IN_BYTE, st, tk);
    assert WalkStmts(NARROWED.body, sc, st, tk) == Done((true, sc), st2);
    Decide(NARROWED, IN_BYTE, tk) by { WalkAtMost(255, sc["result" := Sym(0)], st, tk); }
    NarrowedHonours([NARROWED], fuel);
  }

  /** At `return x + 1` the facts admit 255 for `x`. */
  lemma WalkReturnNext(c: Expr, st: St, tk: Task) returns (st2: St)
    requires Honest(tk.oracle) && c == IN_BYTE && tk.post == [c] && st == EnterParams([Param("x", U8)], Start).1
    ensures var sc: Scope := map["x" := Sym(0)]; WalkStmt(Return(Some(NEXT)), sc, st, tk) == Done((Returns, sc), st2)
    ensures st2.found.Some?
  {
    EnterX();
    var sc: Scope, t := map["x" := Sym(0)], AddT(Sym(0), Const(1));
    WalkNext(sc, st, tk);
    WalkAtMost(255, sc["result" := t], st, tk.ForClause());
    OneClause(c, t, sc, st, tk);
    var q, big: Model := Compare(LtEq, t, Const(255)), map[0 := 255];
    assert AllTrue(st.facts, big) && !True(q, big);
    SomethingToFind(c, q, t, sc, st, tk.oracle, big);
    st2 := Ask(c, q, t, sc, st, tk.oracle);
  }

  // ---------------------------------------------------------------- a binding that traps off the path

  const SLIPPED := Fn([ExprStmt(If(Compared(Gt, 254), [Let("y", U8, NEXT)], NoElse)), Return(Some(X))])

  /** What the fall-through branch learns from its `let` is dropped. */
  lemma WalkSlipped(st: St, tk: Task)
    requires st.found.None?
    ensures WalkStmt(SLIPPED.body[0], map["x" := Sym(0)], st, tk) == Done((Continues, map["x" := Sym(0)]), st)
  {
    var sc: Scope, thn := map["x" := Sym(0)], [Let("y", U8, NEXT)];
    var t, f := AddT(Sym(0), Const(1)), Compare(Gt, Sym(0), Const(254));
    var s1 := st.Assert(f);
    WalkCompared(Gt, 254, sc, st, tk);
    WalkNext(sc, s1, tk);
    var s2 := WithBounds(s1, t, U8);
    assert WalkStmt(thn[0], sc, s1, tk) == Done((Continues, sc["y" := t]), s2);
    assert thn[1..] == [] && WalkStmts(thn, sc, s1, tk) == Done((false, sc["y" := t]), s2);
    assert WalkElse(NoElse, sc, st.Assert(NotF(f)), tk) == Done(false, st.Assert(NotF(f)));
    assert WalkExprStmt(If(Compared(Gt, 254), thn, NoElse), sc, st, tk) == Done(Continues, st);
  }

  /** `if x > 254 { let y: u8 = x + 1 } return x` traps on 255 and returns every other byte. */
  lemma RunSlipped(v: int, fns: Program, fuel: nat)
    requires U8.InRange(v)
    ensures var env: Env := map["x" := IntV(v)];
            RunBody(SLIPPED, env, fns, fuel) == if v > 254 then Trap else Val(IntV(v))
  {
    var env: Env, fr, thn := map["x" := IntV(v)], Frame(fns, U8, false), [Let("y", U8, NEXT)];
    var a, b := SLIPPED.body[0], SLIPPED.body[1];
    assert Eval(NEXT, env, fr, fuel) == Val(IntV(v + 1));
    if v > 254 {
      assert ExecOne(thn[0], env, fr, fuel) == Trap && Exec(thn, env, UnitV, fr, fuel) == Trap;
    }
    assert Eval(Compared(Gt, 254), env, fr, fuel) == Val(BoolV(v > 254));
    assert EvalIf(a.e, env, fr, fuel) == if v > 254 then Trap else Val(UnitV);
    assert SLIPPED.body == [a, b];
    if v > 254 {
      assert ExecOne(a, env, fr, fuel) == Trap;
    } else {
      assert ExecOne(b, env, fr, fuel) == Ret(IntV(v));
      RunTwo(a, b, env, env, UnitV, IntV(v), fns, fuel);
    }
  }

  lemma SlippedHonours(fns: Program, fuel: nat)
    ensures Honours(SLIPPED, [], [AtMost(254)], fns, fuel)
  {
    forall vs: seq<Value>, env: Env, w: Value
      | |vs| == 1 && Bind(SLIPPED.params, vs, false) == Val(env) && RunBody(SLIPPED, env, fns, fuel) == Val(w)
      ensures w.IntV? && U8.InRange(w.i) && AllHold([AtMost(254)], env["result" := w], fns)
    {
      assert SLIPPED.params[..0] == [] && vs[..0] == [];
      var none: Env := map[];
      assert Bind(SLIPPED.params[..0], vs[..0], false) == Val(none);
      assert vs[0].IntV? && env == none["x" := vs[0]] && U8.InRange(vs[0].i);
      RunSlipped(vs[0].i, fns, fuel);
      AtMostHolds(254, w, env, fns);
    }
  }

  /** A `let` in a branch that falls through is not kept up to the `return`: the report here says that
      255 is returned, a `u8`, but the run that should show it traps, and every run that returns meets the
      contract `result <= 254`. */
  lemma SlippedLetIsReported(oracle: Oracle, fuel: nat)
    requires Honest(oracle)
    ensures CheckContract(SLIPPED, [], Task([AtMost(254)], map[], oracle)).Counterexample?
    ensures Honours(SLIPPED, [], [AtMost(254)], [SLIPPED], fuel) && !LetsKept(SLIPPED.body)
  {
    var tk, c := Task([AtMost(254)], map[], oracle), AtMost(254);
    EnterX();
    var sc: Scope, st := map["x" := Sym(0)], EnterParams(SLIPPED.params, Start).1;
    var a, b := SLIPPED.body[0], SLIPPED.body[1];
    WalkSlipped(st, tk);
    var st2 := WalkReturnX(c, 254, st, tk);
    assert SLIPPED.body == [a, b];
    WalkTwo(a, b, sc, st, sc, st, st2, tk);
    Decide(SLIPPED, c, tk) by { WalkAtMost(254, sc["result" := Sym(0)], st, tk); }
    SlippedHonours([SLIPPED], fuel);
    SlippedIsNotKept();
  }

  lemma SlippedIsNotKept()
    ensures !LetsKept(SLIPPED.body)
  {
    var thn := [Let("y", U8, NEXT)];
    assert !LetFreeStmt(thn[0]) && thn[1..] == [];
    assert NoReturn(NEXT) && CallFree(NEXT) && NoReturnStmt(thn[0]) && CallFreeStmt(thn[0]) && Passes(thn);
    assert !LetsKeptBranch(thn);
    assert SLIPPED.body[0] == ExprStmt(If(Compared(Gt, 254), thn, NoElse)) && !LetsKeptStmt(SLIPPED.body[0]);
  }

  /** At `return x` the facts admit 255. */
  lemma WalkReturnX(c: Expr, n: int, st: St, tk: Task) returns (st2: St)
    requires Honest(tk.oracle) && n < 255 && c == AtMost(n) && tk.post == [c] && st == EnterParams([Param("x", U8)], Start).1
    ensures var sc: Scope := map["x" := Sym(0)]; WalkStmt(Return(Some(X)), sc, st, tk) == Done((Returns, sc), st2)
    ensures st2.found.Some?
  {
    EnterX();
    var sc: Scope, t := map["x" := Sym(0)], Sym(0);
    WalkAtMost(n, sc["result" := t], st, tk.ForClause());
    OneClause(c, t, sc, st, tk);
    var q, big: Model := Compare(LtEq, t, Const(n)), map[0 := 255];
    assert AllTrue(st.facts, big) && !True(q, big);
    SomethingToFind(c, q, t, sc, st, tk.oracle, big);
    st2 := Ask(c, q, t, sc, st, tk.oracle);
  }

  // ---------------------------------------------------------------- a callee known by its contract

  const WEAK := Summary(G.params, U8, [], [IN_BYTE])
  const RELAYED := Fn([Return(Some(Call("g", [X])))])

  lemma RunG(v: int, fns: Program, fuel: nat)
    ensures RunBody(G, map["x" := IntV(v)], fns, fuel) == if U8.InRange(v - 1) then Val(IntV(v - 1)) else Trap
  {
    var env: Env, fr := map["x" := IntV(v)], Frame(fns, U8, false);
    assert Eval(PREVIOUS, env, fr, fuel) == Val(IntV(v - 1));
    assert ExecOne(G.body[0], env, fr, fuel) == if U8.InRange(v - 1) then Ret(IntV(v - 1)) else Trap;
  }

  lemma OneArgument(env: Env, fr: Frame, v: int, fuel: nat)
    requires env == map["x" := IntV(v)]
    ensures EvalAll([X], env, fr, fuel) == Val([IntV(v)])
  {
    var args, none: seq<Expr> := [X], [];
    assert args[0] == X && args[1..] == none && [IntV(v)] + [] == [IntV(v)];
    assert Eval(X, env, fr, fuel) == Val(IntV(v)) && EvalAll(none, env, fr, fuel) == Val([]);
    assert EvalAll(args, env, fr, fuel) == Val([IntV(v)]);
  }

  /** `return g(x)` returns `x - 1`, if it returns. */
  lemma RunRelayed(v: int, fns: Program, fuel: nat)
    requires U8.InRange(v) && FindFn(fns, "g") == Some(G)
    ensures var R := RunBody(RELAYED, map["x" := IntV(v)], fns, fuel); R.Val? ==> R == Val(IntV(v - 1))
  {
    var env: Env, fr, call := map["x" := IntV(v)], Frame(fns, U8, false), Call("g", [X]);
    OneArgument(env, fr, v, fuel);
    EnterX();
    if fuel > 0 { RunG(v, fns, fuel - 1); }
    assert EvalCall(call, env, fr, fuel).Val? ==> EvalCall(call, env, fr, fuel) == Val(IntV(v - 1));
    assert RELAYED.body[0] == Return(Some(call)) && Eval(call, env, fr, fuel) == EvalCall(call, env, fr, fuel);
    assert ExecOne(RELAYED.body[0], env, fr, fuel).Ret? ==> ExecOne(RELAYED.body[0], env, fr, fuel) == Ret(IntV(v - 1));
  }

  lemma RelayedHonours(fns: Program, fuel: nat)
    requires FindFn(fns, "g") == Some(G)
    ensures Honours(RELAYED, [], [AtMost(254)], fns, fuel)
  {
    forall vs: seq<Value>, env: Env, w: Value
      | |vs| == 1 && Bind(RELAYED.params, vs, false) == Val(env) && RunBody(RELAYED, env, fns, fuel) == Val(w)
      ensures w.IntV? && U8.InRange(w.i) && AllHold([AtMost(254)], env["result" := w], fns)
    {
      assert RELAYED.params[..0] == [] && vs[..0] == [];
      var none: Env := map[];
      assert Bind(RELAYED.params[..0], vs[..0], false) == Val(none);
      assert vs[0].IntV? && env == none["x" := vs[0]] && U8.InRange(vs[0].i);
      RunRelayed(vs[0].i, fns, fuel);
      RelayedFits(env, fns, fuel);
      AtMostHolds(254, w, env, fns);
    }
  }

  lemma RelayedFits(env: Env, fns: Program, fuel: nat)
    ensures var R := RunBody(RELAYED, env, fns, fuel); R.Val? ==> R.v.IntV? && U8.InRange(R.v.i)
  {
    var ps := ParamNames(RELAYED.params);
    var args, none: seq<Expr> := [X], [];
    assert args[0] == X && args[1..] == none && Regular(X, ps, false) && RegularAll(none, ps, false) && RegularAll(args, ps, false);
    assert Regular(Call("g", args), ps, false);
    assert RELAYED.body[1..] == [] && RegularStmt(RELAYED.body[0], ps, false);
    ReturnFits(RELAYED, env, fns, fuel);
  }

  lemma WeakIsHonoured(fns: Program, fuel: nat)
    ensures Honours(G, [], [IN_BYTE], fns, fuel)
  {
    forall vs: seq<Value>, env: Env, w: Value
      | |vs| == 1 && Bind(G.params, vs, false) == Val(env) && RunBody(G, env, fns, fuel) == Val(w)
      ensures w.IntV? && U8.InRange(w.i) && AllHold([IN_BYTE], env["result" := w], fns)
    {
      assert G.params[..0] == [] && vs[..0] == [];
      var none: Env := map[];
      assert Bind(G.params[..0], vs[..0], false) == Val(none);
      assert vs[0].IntV? && env == none["x" := vs[0]];
      RunG(vs[0].i, fns, fuel);
      AtMostHolds(255, w, env, fns);
    }
  }

  /** All the walk knows of `g(x)` is that it is a byte. */
  lemma WeakCall(st: St, tk: Task) returns (s: St)
    requires st.next == 1 && st.found.None?
    ensures CallAxioms(WEAK, [Sym(0)], st, tk) == Done(Sym(1), s)
    ensures s.found.None? && s.facts == WithBounds(st, Sym(1), U8).facts + [OrF(NotF(Truth(true)), Compare(LtEq, Sym(1), Const(255)))]
  {
    var s1 := WithBounds(st.(next := 2), Sym(1), U8);
    var sc: Scope := map["x" := Sym(0)];
    assert BindTerms(WEAK.params, [Sym(0)]) == sc by { assert [Sym(0)][..0] == []; }
    WalkAtMost(255, sc["result" := Sym(1)], s1, tk.ForClause());
    s := s1.Assert(OrF(NotF(Truth(true)), Compare(LtEq, Sym(1), Const(255))));
    assert [IN_BYTE][1..] == [];
    assert WalkAxioms([IN_BYTE], Truth(true), sc["result" := Sym(1)], s1, tk, Sym(1)) == Done(Sym(1), s);
  }

  /** A callee is known by its contract only: here a proved contract says less than the callee does, and a
      counterexample is reported although every run meets the contract. */
  lemma WeakContractIsReported(oracle: Oracle, fuel: nat)
    requires Honest(oracle)
    ensures var tk := Task([AtMost(254)], map["g" := WEAK], oracle);
            CheckContract(RELAYED, [], tk).Counterexample? && SummariesOk(tk.summaries, [RELAYED, G], fuel)
    ensures Honours(RELAYED, [], [AtMost(254)], [RELAYED, G], fuel)
  {
    var c, fns := AtMost(254), [RELAYED, G];
    var tk := Task([c], map["g" := WEAK], oracle);
    assert fns[1..][0] == G && FindFn(fns, "g") == FindFn(fns[1..], "g") == Some(G);
    forall j: nat | j < fuel ensures Honours(G, WEAK.pre, WEAK.post, fns, j) { WeakIsHonoured(fns, j); }
    WalkAtMost(255, map["result" := Sym(0)], Start, tk);
    RelayedHonours(fns, fuel);
    EnterX();
    var sc: Scope, st := map["x" := Sym(0)], EnterParams(RELAYED.params, Start).1;
    var st2 := WalkRelayed(c, sc, st, tk);
    assert RELAYED.body[1..] == [] && WalkStmts(RELAYED.body, sc, st, tk) == Done((true, sc), st2);
    Decide(RELAYED, c, tk) by { WalkAtMost(254, sc["result" := Sym(0)], st, tk); }
  }

  /** At `return g(x)` the facts admit 255. */
  lemma WalkRelayed(c: Expr, sc: Scope, st: St, tk: Task) returns (st2: St)
    requires Honest(tk.oracle) && c == AtMost(254) && tk.post == [c] && tk.summaries == map["g" := WEAK]
    requires sc == map["x" := Sym(0)] && st == EnterParams([Param("x", U8)], Start).1
    ensures WalkStmt(Return(Some(Call("g", [X]))), sc, st, tk) == Done((Returns, sc), st2) && st2.found.Some?
  {
    EnterX();
    var s := WalkWeak(sc, st, tk);
    WalkAtMost(254, sc["result" := Sym(1)], s, tk.ForClause());
    OneClause(c, Sym(1), sc, s, tk);
    var q, big: Model := Compare(LtEq, Sym(1), Const(254)), map[0 := 0, 1 := 255];
    BigByte(st, s, big);
    SomethingToFind(c, q, Sym(1), sc, s, tk.oracle, big);
    st2 := Ask(c, q, Sym(1), sc, s, tk.oracle);
  }

  lemma BigByte(st: St, s: St, big: Model)
    requires st == EnterParams([Param("x", U8)], Start).1 && big == map[0 := 0, 1 := 255]
    requires s.facts == WithBounds(st, Sym(1), U8).facts + [OrF(NotF(Truth(true)), Compare(LtEq, Sym(1), Const(255)))]
    ensures AllTrue(s.facts, big)
  {
    EnterX();
  }

  lemma WalkWeak(sc: Scope, st: St, tk: Task) returns (s: St)
    requires tk.summaries == map["g" := WEAK] && sc == map["x" := Sym(0)] && st.next == 1 && st.found.None?
    ensures WalkInt(Call("g", [X]), sc, st, tk) == Done(Sym(1), s) && s.found.None?
    ensures s.facts == WithBounds(st, Sym(1), U8).facts + [OrF(NotF(Truth(true)), Compare(LtEq, Sym(1), Const(255)))]
  {
    s := WeakCall(st, tk);
    var call := Call("g", [X]);
    assert [X][1..] == [] && [Sym(0)] + [] == [Sym(0)] && WalkArgs([X][1..], sc, st, tk) == Done([], st);
    assert WalkInt([X][0], sc, st, tk) == Done(Sym(0), st) && WalkArgs([X], sc, st, tk) == Done([Sym(0)], st);
    assert WalkCall(call, sc, st, tk) == Done(Sym(1), s) && WalkInt(call, sc, st, tk) == Done(Sym(1), s);
  }
}
