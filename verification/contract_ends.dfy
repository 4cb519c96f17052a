/** Promoted functions always end: the walker refuses loops and unranked calls, so expanding a call
    goes through strictly lower ranks. Together with `ContractValidates.ReportedProofsHold` this
    makes a promoted contract a total one, traps aside. */
module ContractEnds {
  import opened Prelude
  import opened Types
  import opened ContractLanguage
  import opened ContractWalker
  import opened ContractSimulation
  import opened KeyedEntries
  import opened ContractValidates

  ghost predicate Ends(d: FnDecl, fns: Program, fuel: nat) {
    forall env: Env :: RunBody(d, env, fns, fuel) != OutOfFuel
  }

  ghost predicate CalleesEnd(tk: Task, fns: Program, fuel: nat) {
    forall g :: g in tk.summaries && FindFn(fns, g).Some? ==> fuel > 0 && Ends(FindFn(fns, g).value, fns, fuel - 1)
  }

  lemma {:induction false} EndsInt(e: Expr, sc: Scope, st: St, tk: Task, env: Env, fr: Frame, fuel: nat)
    requires CalleesEnd(tk, fr.fns, fuel)
    requires var W := WalkInt(e, sc, st, tk); W.Done? && W.st.found.None?
    ensures Eval(e, env, fr, fuel) != OutOfFuel
    decreases e, 2
  {
    match e
    case Unary(_, a) => EndsInt(a, sc, st, tk, env, fr, fuel);
    case Binary(_, l, r) =>
      EndsInt(l, sc, st, tk, env, fr, fuel);
      EndsInt(r, sc, WalkInt(l, sc, st, tk).st, tk, env, fr, fuel);
    case If(_, _, _) => EndsIf(e, sc, st, tk, env, fr, fuel);
    case Call(_, _) => EndsCall(e, sc, st, tk, env, fr, fuel);
    case _ =>
  }

  lemma {:induction false} EndsCall(e: Expr, sc: Scope, st: St, tk: Task, env: Env, fr: Frame, fuel: nat)
    requires e.Call? && CalleesEnd(tk, fr.fns, fuel)
    requires var W := WalkCall(e, sc, st, tk); W.Done? && W.st.found.None?
    ensures EvalCall(e, env, fr, fuel) != OutOfFuel
    decreases e, 1
  {
    EndsAll(e.args, sc, st, tk, env, fr, fuel);
  }

  lemma {:induction false} EndsAll(es: seq<Expr>, sc: Scope, st: St, tk: Task, env: Env, fr: Frame, fuel: nat)
    requires CalleesEnd(tk, fr.fns, fuel)
    requires var W := WalkArgs(es, sc, st, tk); W.Done? && W.st.found.None?
    ensures EvalAll(es, env, fr, fuel) != OutOfFuel
    decreases es
  {
    if es != [] {
      EndsInt(es[0], sc, st, tk, env, fr, fuel);
      EndsAll(es[1..], sc, WalkInt(es[0], sc, st, tk).st, tk, env, fr, fuel);
    }
  }

  lemma {:induction false} EndsIf(e: Expr, sc: Scope, st: St, tk: Task, env: Env, fr: Frame, fuel: nat)
    requires e.If? && CalleesEnd(tk, fr.fns, fuel)
    requires var W := WalkIf(e, sc, st, tk); W.Done? && W.st.found.None?
    ensures EvalIf(e, env, fr, fuel) != OutOfFuel
    decreases e, 1
  {
    EndsBool(e.cond, sc, st, tk, env, fr, fuel);
    var W1 := WalkBool(e.cond, sc, st, tk);
    var W2 := WalkBlockValue(e.thn, sc, W1.st.Assert(W1.v), tk);
    EndsValue(e.thn, sc, W1.st.Assert(W1.v), tk, env, fr, fuel);
    var s2 := W2.st.PopTo(W1.st).Assert(NotF(W1.v));
    match e.els {
      case ElseBlock(b) => EndsValue(b, sc, s2, tk, env, fr, fuel);
      case ElseIf(e2) => EndsInt(e2, sc, s2, tk, env, fr, fuel);
    }
  }

  lemma {:induction false} EndsBool(e: Expr, sc: Scope, st: St, tk: Task, env: Env, fr: Frame, fuel: nat)
    requires CalleesEnd(tk, fr.fns, fuel)
    requires var W := WalkBool(e, sc, st, tk); W.Done? && W.st.found.None?
    ensures Eval(e, env, fr, fuel) != OutOfFuel
    decreases e, 2
  {
    match e
    case Unary(_, a) => EndsBool(a, sc, st, tk, env, fr, fuel);
    case Binary(op, l, r) =>
      if op.IsLogic() || (op.IsEquality() && IsBoolShaped(l) && IsBoolShaped(r)) {
        EndsBool(l, sc, st, tk, env, fr, fuel);
        EndsBool(r, sc, WalkBool(l, sc, st, tk).st, tk, env, fr, fuel);
      } else {
        EndsInt(l, sc, st, tk, env, fr, fuel);
        EndsInt(r, sc, WalkInt(l, sc, st, tk).st, tk, env, fr, fuel);
      }
    case _ =>
  }

  lemma {:induction false} EndsValue(b: seq<Stmt>, sc: Scope, st: St, tk: Task, env: Env, fr: Frame, fuel: nat)
    requires CalleesEnd(tk, fr.fns, fuel)
    requires var W := WalkBlockValue(b, sc, st, tk); W.Done? && W.st.found.None?
    ensures EvalBlock(b, env, fr, fuel) != OutOfFuel
    decreases b
  {
    var n := |b| - 1;
    ExecSplit(b, env, UnitV, fr, fuel);
    EndsStmts(b[..n], sc, st, tk, env, UnitV, fr, fuel);
    var W1, R1 := WalkStmts(b[..n], sc, st, tk), Exec(b[..n], env, UnitV, fr, fuel);
    if R1.Val? { EndsTail(b[n], W1.v.1, W1.st, tk, R1.v.0, fr, fuel); }
  }

  lemma {:induction false} EndsTail(s: Stmt, sc: Scope, st: St, tk: Task, env: Env, fr: Frame, fuel: nat)
    requires CalleesEnd(tk, fr.fns, fuel)
    requires var W := WalkTail(s, sc, st, tk); W.Done? && W.st.found.None?
    ensures ExecOne(s, env, fr, fuel) != OutOfFuel
    decreases s
  {
    match s case ExprStmt(e) => EndsInt(e, sc, st, tk, env, fr, fuel);
  }

  /** Nothing falls through a list every path of which returns. */
  lemma {:induction false} EndsStmts(b: seq<Stmt>, sc: Scope, st: St, tk: Task, env: Env, last: Value, fr: Frame, fuel: nat)
    requires CalleesEnd(tk, fr.fns, fuel)
    requires var W := WalkStmts(b, sc, st, tk); W.Done? && W.st.found.None?
    ensures var R := Exec(b, env, last, fr, fuel); R != OutOfFuel && (WalkStmts(b, sc, st, tk).v.0 ==> !R.Val?)
    decreases b
  {
    if b != [] {
      EndsStmt(b[0], sc, st, tk, env, fr, fuel);
      var W1, R1 := WalkStmt(b[0], sc, st, tk), ExecOne(b[0], env, fr, fuel);
      if R1.Val? {
        var s1 := if W1.v.0.Continues? then W1.st else W1.st.Assert(W1.v.0.f);
        EndsStmts(b[1..], W1.v.1, s1, tk, R1.v.0, R1.v.1, fr, fuel);
      }
    }
  }

  lemma {:induction false} EndsStmt(s: Stmt, sc: Scope, st: St, tk: Task, env: Env, fr: Frame, fuel: nat)
    requires CalleesEnd(tk, fr.fns, fuel)
    requires var W := WalkStmt(s, sc, st, tk); W.Done? && W.st.found.None?
    ensures var R := ExecOne(s, env, fr, fuel); R != OutOfFuel && (WalkStmt(s, sc, st, tk).v.0.Returns? ==> !R.Val?)
    decreases s
  {
    match s
    case Let(_, _, e) => EndsInt(e, sc, st, tk, env, fr, fuel);
    case Return(Some(e)) => EndsInt(e, sc, st, tk, env, fr, fuel);
    case Return(None) =>
    case ExprStmt(e) => EndsExprStmt(e, sc, st, tk, env, fr, fuel);
    case Audited(b) => EndsStmts(b, sc, st, tk, env, UnitV, fr.(audited := true), fuel);
  }

  lemma {:induction false} EndsExprStmt(e: Expr, sc: Scope, st: St, tk: Task, env: Env, fr: Frame, fuel: nat)
    requires CalleesEnd(tk, fr.fns, fuel)
    requires var W := WalkExprStmt(e, sc, st, tk); W.Done? && W.st.found.None?
    ensures var R := Eval(e, env, fr, fuel); R != OutOfFuel && (WalkExprStmt(e, sc, st, tk).v.Returns? ==> !R.Val?)
    decreases e, 3
  {
    if e.If? { EndsIfStmt(e, sc, st, tk, env, fr, fuel); } else { EndsInt(e, sc, st, tk, env, fr, fuel); }
  }

  lemma {:induction false} EndsIfStmt(e: Expr, sc: Scope, st: St, tk: Task, env: Env, fr: Frame, fuel: nat)
    requires e.If? && CalleesEnd(tk, fr.fns, fuel)
    requires var W := WalkExprStmt(e, sc, st, tk); W.Done? && W.st.found.None?
    ensures var R := EvalIf(e, env, fr, fuel); R != OutOfFuel && (WalkExprStmt(e, sc, st, tk).v.Returns? ==> !R.Val?)
    decreases e, 1
  {
    EndsBool(e.cond, sc, st, tk, env, fr, fuel);
    var W1 := WalkBool(e.cond, sc, st, tk);
    EndsStmts(e.thn, sc, W1.st.Assert(W1.v), tk, env, UnitV, fr, fuel);
    var s2 := WalkStmts(e.thn, sc, W1.st.Assert(W1.v), tk).st.PopTo(W1.st).Assert(NotF(W1.v));
    EndsElse(e.els, sc, s2, tk, env, fr, fuel);
  }

  lemma {:induction false} EndsElse(els: Else, sc: Scope, st: St, tk: Task, env: Env, fr: Frame, fuel: nat)
    requires CalleesEnd(tk, fr.fns, fuel)
    requires var W := WalkElse(els, sc, st, tk); W.Done? && W.st.found.None?
    ensures var R := EvalElse(els, env, fr, fuel); R != OutOfFuel && (WalkElse(els, sc, st, tk).v ==> !R.Val?)
    decreases els
  {
    match els
    case NoElse =>
    case ElseBlock(b) => EndsStmts(b, sc, st, tk, env, UnitV, fr, fuel);
    case ElseIf(e) => EndsExprStmt(e, sc, st, tk, env, fr, fuel);
  }

  /** The function of rank `k` never runs out of fuel, given `k` nested calls' worth of it. */
  lemma PromotedEnds(fns: Program, blocks: seq<Validate>, S: map<string, Summary>, order: seq<string>, oracle: Oracle, k: nat, fuel: nat)
    requires Earned(fns, blocks, S, order, oracle) && k < |order| && k <= fuel
    ensures FindFn(fns, order[k]).Some? && Ends(FindFn(fns, order[k]).value, fns, fuel)
    decreases k
  {
    var v := EarnedAt(fns, blocks, S, order, oracle, k);
    var f, tk := FindFn(fns, v.fn).value, Task(Entries(v.entries, "post"), Restrict(S, order[..k]), oracle);
    forall g | g in tk.summaries ensures fuel > 0 && FindFn(fns, g).Some? && Ends(FindFn(fns, g).value, fns, fuel - 1) {
      var j :| 0 <= j < k && order[..k][j] == g;
      PromotedEnds(fns, blocks, S, order, oracle, j, fuel - 1);
    }
    assert CheckContract(f, Entries(v.entries, "pre"), tk).Proved?;
    var (sc, st) := EnterParams(f.params, Start);
    forall env: Env ensures RunBody(f, env, fns, fuel) != OutOfFuel {
      EndsStmts(f.body, sc, AssumePre(Entries(v.entries, "pre"), sc, st, tk).st, tk, env, UnitV, Frame(fns, f.ret, false), fuel);
    }
  }
}
