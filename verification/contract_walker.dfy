/** The Tier-1 symbolic walker, as a function from the solver facts on entry to the facts on exit.

    The solver is an oracle that answers for a sequence of facts; what it has to satisfy is stated
    by `Honest`. The walker only ever extends, or restores, the facts it was given. */
module ContractWalker {
  import opened Prelude
  import opened Types
  import opened ContractLanguage

  // ---------------------------------------------------------------- solver terms

  datatype CmpOp = LtC | GtC | LeC | GeC
  datatype Term =
    | Const(n: int)
    | Sym(id: nat)
    | NegT(t: Term)
    | AddT(a: Term, b: Term)
    | SubT(a: Term, b: Term)
    | MulT(a: Term, b: Term)
    | Ite(c: Formula, thn: Term, els: Term)
  datatype Formula =
    | Truth(b: bool)
    | NotF(f: Formula)
    | AndF(p: Formula, q: Formula)
    | OrF(p: Formula, q: Formula)
    | Iff(p: Formula, q: Formula)
    | EqT(x: Term, y: Term)
    | Cmp(op: CmpOp, x: Term, y: Term)

  /** An interpretation of the symbols; a symbol it does not mention is 0. */
  type Model = map<nat, int>

  function At(m: Model, id: nat): int { if id in m then m[id] else 0 }

  function TermVal(t: Term, m: Model): int {
    match t
    case Const(n) => n
    case Sym(id) => At(m, id)
    case NegT(a) => -TermVal(a, m)
    case AddT(a, b) => TermVal(a, m) + TermVal(b, m)
    case SubT(a, b) => TermVal(a, m) - TermVal(b, m)
    case MulT(a, b) => TermVal(a, m) * TermVal(b, m)
    case Ite(c, a, b) => if True(c, m) then TermVal(a, m) else TermVal(b, m)
  }

  predicate True(f: Formula, m: Model) {
    match f
    case Truth(b) => b
    case NotF(g) => !True(g, m)
    case AndF(p, q) => True(p, m) && True(q, m)
    case OrF(p, q) => True(p, m) || True(q, m)
    case Iff(p, q) => True(p, m) == True(q, m)
    case EqT(x, y) => TermVal(x, m) == TermVal(y, m)
    case Cmp(op, x, y) =>
      var a, b := TermVal(x, m), TermVal(y, m);
      (match op case LtC => a < b case GtC => a > b case LeC => a <= b case GeC => a >= b)
  }

  predicate AllTrue(fs: seq<Formula>, m: Model) {
    forall i :: 0 <= i < |fs| ==> True(fs[i], m)
  }

  datatype Answer = Sat(model: Model) | Unsat | Unknown
  type Oracle = seq<Formula> -> Answer

  /** Every answer is right, and there always is one. */
  ghost predicate Honest(oracle: Oracle) {
    forall fs: seq<Formula> ::
      match oracle(fs)
      case Sat(m) => AllTrue(fs, m)
      case Unsat => forall m: Model :: !AllTrue(fs, m)
      case Unknown => false
  }

  // ---------------------------------------------------------------- walker state

  /** A callee's proved contract. */
  datatype Summary = Summary(params: seq<Param>, ret: Ty, pre: seq<Expr>, post: seq<Expr>)

  datatype Violation = Violation(clause: Expr, bindings: map<string, int>, result: Option<int>)

  /** Solver facts, the next unused symbol, and the first violation found. */
  datatype St = St(facts: seq<Formula>, next: nat, found: Option<Violation>) {
    function Assert(f: Formula): St { this.(facts := facts + [f]) }
    /** `pop` back to the facts of `outer`. */
    function PopTo(outer: St): St { this.(facts := outer.facts) }
  }

  /** A walk never forgets: facts are appended, symbols are consumed, the first violation stays. */
  ghost predicate Grew(a: St, b: St) {
    a.next <= b.next && a.facts <= b.facts && (a.found.Some? ==> b.found == a.found)
  }

  /** A walk's result with the state after it, or the honest "cannot model this". */
  datatype W<+T> = Done(v: T, st: St) | Unsupported {
    predicate IsFailure() { Unsupported? }
    function PropagateFailure<U>(): W<U> requires Unsupported? { Unsupported }
    function Extract(): (T, St) requires Done? { (v, st) }
  }

  type Scope = map<string, Term>

  datatype Flow = Continues | Returns | ContinuesUnder(f: Formula)

  /** What a walk consults: the postconditions of the function being checked, the summaries of
      functions already proved, and the solver. */
  datatype Task = Task(post: seq<Expr>, summaries: map<string, Summary>, oracle: Oracle) {
    /** A contract clause is walked with no calls to resolve and no `return` to check. */
    function ForClause(): Task { this.(post := [], summaries := map[]) }
    function Size(): nat { |post| + |summaries| }
  }

  function WithBounds(st: St, t: Term, ty: Ty): St {
    st.Assert(Cmp(GeC, t, Const(ty.Lo()))).Assert(Cmp(LeC, t, Const(ty.Hi())))
  }

  predicate IsBoolShaped(e: Expr) {
    e.Bool? || (e.Unary? && e.uop.Not?)
    || (e.Binary? && (e.op.IsLogic() || e.op.IsComparison()))
  }

  // ---------------------------------------------------------------- the walk

  function WalkInt(e: Expr, sc: Scope, st: St, tk: Task): (r: W<Term>)
    ensures r.Done? ==> Grew(st, r.st)
    decreases 2 * tk.Size() + 1, e, 2
  {
    match e
    case Int(n) => Done(Const(n), st)
    case Ident(x) => if x in sc then Done(sc[x], st) else Unsupported
    case Unary(Neg, a) =>
      var (t, s1) :- WalkInt(a, sc, st, tk);
      Done(NegT(t), s1)
    case Binary(op, l, r) =>
      if !op.Add? && !op.Sub? && !op.Mul? then Unsupported
      else
        var (a, s1) :- WalkInt(l, sc, st, tk);
        var (b, s2) :- WalkInt(r, sc, s1, tk);
        Done(ArithTerm(op, a, b), s2)
    case If(_, _, _) => WalkIf(e, sc, st, tk)
    case Call(_, _) => WalkCall(e, sc, st, tk)
    case _ => Unsupported
  }

  /** A value-position `if`: what each branch asserted is dropped when its frame is popped. */
  function WalkIf(e: Expr, sc: Scope, st: St, tk: Task): (r: W<Term>)
    requires e.If?
    ensures r.Done? ==> Grew(st, r.st)
    decreases 2 * tk.Size() + 1, e, 1
  {
    var (f, s1) :- WalkBool(e.cond, sc, st, tk);
    var (a, s2) :- WalkBlockValue(e.thn, sc, s1.Assert(f), tk);
    var (b, s3) :- WalkElseValue(e.els, sc, s2.PopTo(s1).Assert(NotF(f)), tk);
    Done(Ite(f, a, b), s3.PopTo(s1))
  }

  function WalkElseValue(els: Else, sc: Scope, st: St, tk: Task): (r: W<Term>)
    ensures r.Done? ==> Grew(st, r.st)
    decreases 2 * tk.Size() + 1, els
  {
    match els
    case NoElse => Unsupported
    case ElseBlock(body) => WalkBlockValue(body, sc, st, tk)
    case ElseIf(e) => WalkInt(e, sc, st, tk)
  }

  function WalkCall(e: Expr, sc: Scope, st: St, tk: Task): (r: W<Term>)
    requires e.Call?
    ensures r.Done? ==> Grew(st, r.st)
    decreases 2 * tk.Size() + 1, e, 1
  {
    if e.callee !in tk.summaries || |tk.summaries[e.callee].params| != |e.args| then Unsupported
    else
      var (ts, s1) :- WalkArgs(e.args, sc, st, tk);
      CallAxioms(tk.summaries[e.callee], ts, s1, tk)
  }

  function WalkBool(e: Expr, sc: Scope, st: St, tk: Task): (r: W<Formula>)
    ensures r.Done? ==> Grew(st, r.st)
    decreases 2 * tk.Size() + 1, e, 2
  {
    match e
    case Bool(b) => Done(Truth(b), st)
    case Unary(Not, a) =>
      var (f, s1) :- WalkBool(a, sc, st, tk);
      Done(NotF(f), s1)
    case Binary(op, l, r) =>
      if op.IsLogic() || (op.IsEquality() && IsBoolShaped(l) && IsBoolShaped(r)) then
        var (p, s1) :- WalkBool(l, sc, st, tk);
        var (q, s2) :- WalkBool(r, sc, s1, tk);
        Done(Connect(op, p, q), s2)
      else if op.IsComparison() then
        var (a, s1) :- WalkInt(l, sc, st, tk);
        var (b, s2) :- WalkInt(r, sc, s1, tk);
        Done(Compare(op, a, b), s2)
      else Unsupported
    case _ => Unsupported
  }

  function ArithTerm(op: BinOp, a: Term, b: Term): (t: Term)
    requires op.Add? || op.Sub? || op.Mul?
    ensures forall m: Model :: Arith(op, TermVal(a, m), TermVal(b, m)) == Val(IntV(TermVal(t, m)))
  {
    match op case Add => AddT(a, b) case Sub => SubT(a, b) case _ => MulT(a, b)
  }

  function Connect(op: BinOp, p: Formula, q: Formula): (f: Formula)
    requires op.IsLogic() || op.IsEquality()
    ensures forall m: Model :: (True(f, m) ==
              match op
              case And => True(p, m) && True(q, m)
              case Or => True(p, m) || True(q, m)
              case Eq => True(p, m) == True(q, m)
              case _ => True(p, m) != True(q, m))
  {
    match op case And => AndF(p, q) case Or => OrF(p, q) case Eq => Iff(p, q) case _ => NotF(Iff(p, q))
  }

  function Compare(op: BinOp, a: Term, b: Term): (f: Formula)
    requires op.IsComparison()
    ensures forall m: Model :: Arith(op, TermVal(a, m), TermVal(b, m)) == Val(BoolV(True(f, m)))
  {
    match op
    case Eq => EqT(a, b)
    case NotEq => NotF(EqT(a, b))
    case Lt => Cmp(LtC, a, b)
    case Gt => Cmp(GtC, a, b)
    case LtEq => Cmp(LeC, a, b)
    case _ => Cmp(GeC, a, b)
  }

  function WalkArgs(es: seq<Expr>, sc: Scope, st: St, tk: Task): (r: W<seq<Term>>)
    ensures r.Done? ==> |r.v| == |es| && Grew(st, r.st)
    decreases 2 * tk.Size() + 1, es
  {
    if es == [] then Done([], st)
    else
      var (t, s1) :- WalkInt(es[0], sc, st, tk);
      var (ts, s2) :- WalkArgs(es[1..], sc, s1, tk);
      Done([t] + ts, s2)
  }

  function BindTerms(params: seq<Param>, ts: seq<Term>): Scope
    requires |params| == |ts|
  {
    if params == [] then map[]
    else
      var n := |params| - 1;
      BindTerms(params[..n], ts[..n])[params[n].name := ts[n]]
  }

  /** A call to a proved function: a fresh result within its return type, tied to the arguments by
      the callee's contract read in the callee's own names. */
  function CallAxioms(sm: Summary, ts: seq<Term>, st: St, tk: Task): (r: W<Term>)
    requires |sm.params| == |ts|
    ensures r.Done? ==> Grew(st, r.st)
    decreases 2, |sm.pre| + |sm.post| + 1
  {
    var res := Sym(st.next);
    var s2 := WithBounds(st.(next := st.next + 1), res, sm.ret);
    var callScope := BindTerms(sm.params, ts);
    var (pre, s3) :- WalkClauses(sm.pre, callScope, s2, tk.ForClause());
    WalkAxioms(sm.post, pre, callScope["result" := res], s3, tk, res)
  }

  /** The conjunction of contract clauses, each walked with the contract-clause task `ck`. */
  function WalkClauses(es: seq<Expr>, sc: Scope, st: St, ck: Task): (r: W<Formula>)
    ensures r.Done? ==> Grew(st, r.st)
    requires ck.Size() == 0
    decreases 2, |es|
  {
    if es == [] then Done(Truth(true), st)
    else
      var n := |es| - 1;
      var (p, s1) :- WalkClauses(es[..n], sc, st, ck);
      var (q, s2) :- WalkBool(es[n], sc, s1, ck);
      Done(AndF(p, q), s2)
  }

  /** Asserts `pre => post` for every postcondition of a callee; the call's value is `res`. */
  function WalkAxioms(es: seq<Expr>, pre: Formula, sc: Scope, st: St, tk: Task, res: Term): (r: W<Term>)
    ensures r.Done? ==> Grew(st, r.st)
    decreases 2, |es|
  {
    if es == [] then Done(res, st)
    else
      var (q, s1) :- WalkBool(es[0], sc, st, tk.ForClause());
      WalkAxioms(es[1..], pre, sc, s1.Assert(OrF(NotF(pre), q)), tk, res)
  }

  /** A block's value: its statements but the last, then its last, which must be an expression. */
  function WalkBlockValue(b: seq<Stmt>, sc: Scope, st: St, tk: Task): (r: W<Term>)
    ensures r.Done? ==> Grew(st, r.st)
    decreases 2 * tk.Size() + 1, b
  {
    if b == [] then Unsupported
    else
      var (r, s1) :- WalkStmts(b[..|b| - 1], sc, st, tk);
      WalkTail(b[|b| - 1], r.1, s1, tk)
  }

  function WalkTail(s: Stmt, sc: Scope, st: St, tk: Task): (r: W<Term>)
    ensures r.Done? ==> Grew(st, r.st)
    decreases 2 * tk.Size() + 1, s
  {
    match s case ExprStmt(e) => WalkInt(e, sc, st, tk) case _ => Unsupported
  }

  /** Whether every path through `stmts` returns, with the scope where the walk stopped. Facts
      asserted after a one-sided return hold for the rest of the list only. */
  function WalkStmts(stmts: seq<Stmt>, sc: Scope, st: St, tk: Task): (r: W<(bool, Scope)>)
    ensures r.Done? ==> Grew(st, r.st)
    decreases 2 * tk.Size() + 1, stmts
  {
    if stmts == [] || st.found.Some? then Done((false, sc), st)
    else
      var (r, s1) :- WalkStmt(stmts[0], sc, st, tk);
      match r.0
      case Continues => WalkStmts(stmts[1..], r.1, s1, tk)
      case Returns => Done((true, r.1), s1)
      case ContinuesUnder(f) =>
        var (r2, s2) :- WalkStmts(stmts[1..], r.1, s1.Assert(f), tk);
        Done(r2, s2.PopTo(s1))
  }

  function WalkStmt(s: Stmt, sc: Scope, st: St, tk: Task): (r: W<(Flow, Scope)>)
    ensures r.Done? ==> Grew(st, r.st)
    decreases 2 * tk.Size() + 1, s
  {
    match s
    case Let(x, ty, e) =>
      if !ty.IsInteger() then Unsupported
      else
        var (t, s1) :- WalkInt(e, sc, st, tk);
        Done((Continues, sc[x := t]), WithBounds(s1, t, ty))
    case Return(Some(e)) =>
      var (t, s1) :- WalkInt(e, sc, st, tk);
      var (_, s2) :- CheckReturn(tk.post, t, sc, s1, tk);
      Done((Returns, sc), s2)
    case Return(None) => Done((Returns, sc), st)
    case ExprStmt(e) =>
      var (flow, s1) :- WalkExprStmt(e, sc, st, tk);
      Done((flow, sc), s1)
    case While(_, _) => Unsupported
    case Audited(body) =>
      var (r, s1) :- WalkStmts(body, sc, st, tk);
      Done((if r.0 then Returns else Continues, sc), s1)
  }

  /** An expression in statement position; an `if` there steers the control flow after it. */
  function WalkExprStmt(e: Expr, sc: Scope, st: St, tk: Task): (r: W<Flow>)
    ensures r.Done? ==> Grew(st, r.st)
    decreases 2 * tk.Size() + 1, e, 3
  {
    if e.If? then
      var (f, s1) :- WalkBool(e.cond, sc, st, tk);
      var (r1, s2) :- WalkStmts(e.thn, sc, s1.Assert(f), tk);
      var (elseReturns, s4) :- WalkElse(e.els, sc, s2.PopTo(s1).Assert(NotF(f)), tk);
      Done(Join(r1.0, elseReturns, f), s4.PopTo(s1))
    else
      var (_, s1) :- WalkInt(e, sc, st, tk);
      Done(Continues, s1)
  }

  /** Whether every path through an `else` returns. */
  function WalkElse(els: Else, sc: Scope, st: St, tk: Task): (r: W<bool>)
    ensures r.Done? ==> Grew(st, r.st)
    decreases 2 * tk.Size() + 1, els
  {
    match els
    case NoElse => Done(false, st)
    case ElseBlock(body) =>
      var (r, s1) :- WalkStmts(body, sc, st, tk);
      Done(r.0, s1)
    case ElseIf(e) =>
      var (flow, s1) :- WalkExprStmt(e, sc, st, tk);
      Done(flow.Returns?, s1)
  }

  function Join(thenReturns: bool, elseReturns: bool, f: Formula): Flow {
    if thenReturns && elseReturns then Returns
    else if thenReturns then ContinuesUnder(NotF(f))
    else if elseReturns then ContinuesUnder(f)
    else Continues
  }

  /** At a `return` of `t`: ask, clause by clause, whether the facts admit a violation. */
  function CheckReturn(clauses: seq<Expr>, t: Term, sc: Scope, st: St, tk: Task): (r: W<()>)
    ensures r.Done? ==> Grew(st, r.st)
    requires |clauses| <= |tk.post|
    decreases 2 * tk.Size(), |clauses|
  {
    if clauses == [] || st.found.Some? then Done((), st)
    else
      var (q, s1) :- WalkBool(clauses[0], sc["result" := t], st, tk.ForClause());
      CheckReturn(clauses[1..], t, sc, Ask(clauses[0], q, t, sc, s1, tk.oracle), tk)
  }

  function Ask(clause: Expr, q: Formula, t: Term, sc: Scope, st: St, oracle: Oracle): St {
    match oracle(st.facts + [NotF(q)])
    case Sat(m) => st.(found := Some(Violation(clause, Bindings(sc, m), AsI64(TermVal(t, m)))))
    case _ => st
  }

  function AsI64(v: int): Option<int> { if I64.InRange(v) then Some(v) else None }

  function Bindings(sc: Scope, m: Model): map<string, int> {
    map x | x in sc && x != "result" && I64.InRange(TermVal(sc[x], m)) :: TermVal(sc[x], m)
  }

  // ---------------------------------------------------------------- one contract

  datatype Verdict =
    | Proved
    | Counterexample(v: Violation)
    | UnboundIdentifier(names: set<string>)  // the source names one of them
    | NoSuchFunction
    | NotModelled

  function Idents(e: Expr): set<string> {
    match e
    case Int(_) | Bool(_) | Unmodelled => {}
    case Ident(x) => {x}
    case Unary(_, a) => Idents(a)
    case Binary(_, l, r) => Idents(l) + Idents(r)
    case If(c, thn, els) =>
      Idents(c) + StmtsIdents(thn)
      + (match els case NoElse => {} case ElseBlock(b) => StmtsIdents(b) case ElseIf(e2) => Idents(e2))
    case Call(_, args) => ExprsIdents(args)
  }

  function ExprsIdents(es: seq<Expr>): set<string> {
    if es == [] then {} else Idents(es[0]) + ExprsIdents(es[1..])
  }

  function StmtsIdents(b: seq<Stmt>): set<string> {
    if b == [] then {} else StmtIdents(b[0]) + StmtsIdents(b[1..])
  }

  function StmtIdents(s: Stmt): set<string> {
    match s
    case Let(_, _, e) => Idents(e)
    case Return(Some(e)) => Idents(e)
    case Return(None) => {}
    case While(c, body) => Idents(c) + StmtsIdents(body)
    case ExprStmt(e) => Idents(e)
    case Audited(body) => StmtsIdents(body)
  }

  function ParamNames(params: seq<Param>): set<string> {
    set p | p in params :: p.name
  }

  /** The clause names that are neither a parameter nor `result`. */
  function Unbound(clauses: seq<Expr>, allowed: set<string>): set<string> {
    ExprsIdents(clauses) - allowed
  }

  /** One fresh symbol per parameter, bounded by its type. */
  function EnterParams(params: seq<Param>, st: St): (Scope, St)
  {
    if params == [] then (map[], st)
    else
      var n := |params| - 1;
      var (sc, s1) := EnterParams(params[..n], st);
      var t := Sym(s1.next);
      (sc[params[n].name := t], WithBounds(s1.(next := s1.next + 1), t, params[n].ty))
  }

  function AssumePre(pre: seq<Expr>, sc: Scope, st: St, tk: Task): W<()>
    decreases |pre|
  {
    if pre == [] then Done((), st)
    else
      var (f, s1) :- WalkBool(pre[0], sc, st, tk.ForClause());
      AssumePre(pre[1..], sc, s1.Assert(f), tk)
  }

  const Start := St([], 0, None)

  function CheckContract(f: FnDecl, pre: seq<Expr>, tk: Task): Verdict {
    if !f.ret.IsInteger() || exists p :: p in f.params && !p.ty.IsInteger() then NotModelled
    else
      var unbound := Unbound(pre + tk.post, ParamNames(f.params) + {"result"});
      if unbound != {} then UnboundIdentifier(unbound)
      else
        var (sc, st) := EnterParams(f.params, Start);
        match AssumePre(pre, sc, st, tk)
        case Unsupported => NotModelled
        case Done(_, s1) =>
          match WalkStmts(f.body, sc, s1, tk)
          case Unsupported => NotModelled
          case Done(_, s2) => if s2.found.Some? then Counterexample(s2.found.value) else Proved
  }
}
