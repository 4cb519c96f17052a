/** The walker as the stateful object it is: a solver with push/pop frames, block scopes, and an
    outcome, updated step by step. Every method is proved to leave exactly the facts, scope and
    outcome of the corresponding function of `ContractWalker`, with the solver stack balanced. */
module ContractEval {
  import opened Prelude
  import opened Types
  import opened ContractLanguage
  import opened ContractWalker

  function Concat(frames: seq<seq<Formula>>): seq<Formula> {
    if frames == [] then [] else Concat(frames[..|frames| - 1]) + frames[|frames| - 1]
  }

  /** What a stack of scopes resolves names to: the innermost binding wins. */
  function Flatten(stack: seq<Scope>): Scope {
    if stack == [] then map[] else Flatten(stack[..|stack| - 1]) + stack[|stack| - 1]
  }

  class Solver {
    var frames: seq<seq<Formula>>
    var next: nat
    const oracle: Oracle

    ghost predicate Valid() reads this { frames != [] }
    ghost function Facts(): seq<Formula> reads this { Concat(frames) }
    /** Every frame but the top one: what a balanced use of the solver leaves alone. */
    ghost function Below(): seq<seq<Formula>> reads this requires Valid() { frames[..|frames| - 1] }

    constructor (oracle: Oracle)
      ensures Valid() && Facts() == [] && next == 0 && this.oracle == oracle && |frames| == 1
    {
      frames, next, this.oracle := [[]], 0, oracle;
    }

    method Fresh() returns (t: Term)
      modifies this`next
      ensures t == Sym(old(next)) && next == old(next) + 1
    {
      t := Sym(next);
      next := next + 1;
    }

    method Push()
      requires Valid()
      modifies this`frames
      ensures Valid() && Facts() == old(Facts()) && Below() == old(frames) && |frames| == old(|frames|) + 1
    {
      frames := frames + [[]];
    }

    method Pop(n: nat)
      requires n < |frames|
      modifies this`frames
      ensures Valid() && frames == old(frames[..|frames| - n])
    {
      frames := frames[..|frames| - n];
    }

    method Assert(f: Formula)
      requires Valid()
      modifies this`frames
      ensures Valid() && Facts() == old(Facts()) + [f] && Below() == old(Below()) && |frames| == old(|frames|)
    {
      var n := |frames| - 1;
      ghost var below := frames[..n];
      frames := frames[..n] + [frames[n] + [f]];
      assert frames[..n] == below;
    }

    method Check() returns (a: Answer)
      ensures a == oracle(Facts())
    {
      var facts, i := [], 0;
      while i < |frames|
        invariant i <= |frames| && facts == Concat(frames[..i])
      {
        facts := facts + frames[i];
        i := i + 1;
        assert frames[..i][..i - 1] == frames[..i - 1];
      }
      assert frames[..i] == frames;
      a := oracle(facts);
    }

    /** Asks whether `f` is possible, in a frame of its own. */
    method Query(f: Formula) returns (a: Answer)
      requires Valid()
      modifies this`frames
      ensures a == oracle(old(Facts()) + [f]) && frames == old(frames)
    {
      ghost var inner := frames;
      Push();
      Assert(f);
      a := Check();
      Pop(1);
      assert frames == inner;
    }
  }

  class Scopes {
    var stack: seq<Scope>

    ghost predicate Valid() reads this { stack != [] }
    function View(): Scope reads this { Flatten(stack) }
    ghost function Outer(): seq<Scope> reads this requires Valid() { stack[..|stack| - 1] }

    constructor (top: Scope)
      ensures Valid() && View() == top && |stack| == 1
    {
      stack := [top];
      new;
      assert stack[..|stack| - 1] == [] && Flatten([]) + top == top;
    }

    method Push()
      requires Valid()
      modifies this
      ensures Valid() && View() == old(View()) && Outer() == old(stack)
    {
      stack := stack + [map[]];
    }

    method Pop()
      requires |stack| > 1
      modifies this
      ensures Valid() && stack == old(Outer())
    {
      stack := stack[..|stack| - 1];
    }

    method Define(name: string, t: Term)
      requires Valid()
      modifies this
      ensures Valid() && View() == old(View())[name := t] && Outer() == old(Outer()) && |stack| == old(|stack|)
    {
      var n := |stack| - 1;
      ghost var outer := stack[..n];
      stack := stack[..n] + [stack[n][name := t]];
      assert stack[..n] == outer;
    }

    method Get(name: string) returns (r: Option<Term>)
      ensures r == if name in View() then Some(View()[name]) else None
    {
      var i := |stack|;
      assert stack[..i] == stack;
      while i > 0
        invariant 0 <= i <= |stack|
        invariant (name in View()) == (name in Flatten(stack[..i]))
        invariant name in View() ==> View()[name] == Flatten(stack[..i])[name]
      {
        assert stack[..i][..i - 1] == stack[..i - 1];
        if name in stack[i - 1] { return Some(stack[i - 1][name]); }
        i := i - 1;
      }
      return None;
    }
  }

  class Eval {
    const solver: Solver
    const post: seq<Expr>
    const summaries: map<string, Summary>
    var outcome: Option<Violation>

    constructor (solver: Solver, post: seq<Expr>, summaries: map<string, Summary>, outcome: Option<Violation>)
      ensures this.solver == solver && this.post == post && this.summaries == summaries && this.outcome == outcome
    {
      this.solver, this.post, this.summaries, this.outcome := solver, post, summaries, outcome;
    }

    ghost function Task(): Task { ContractWalker.Task(post, summaries, solver.oracle) }
    ghost function State(): St reads this, solver { St(solver.Facts(), solver.next, outcome) }
    ghost predicate Valid(sc: Scopes) reads solver, sc { solver.Valid() && sc.Valid() }

    /** From `st0`, with `below` beneath the top frame: the walk `w` was carried out. */
    ghost predicate Reached<T>(w: W<T>, depth: nat, below: seq<seq<Formula>>) reads this, solver {
      w.Done? && solver.Valid() && State() == w.st && |solver.frames| == depth && solver.Below() == below
    }

    method AssertBounds(t: Term, ty: Ty)
      requires solver.Valid()
      modifies solver`frames
      ensures State() == WithBounds(old(State()), t, ty)
      ensures solver.Valid() && solver.Below() == old(solver.Below()) && |solver.frames| == old(|solver.frames|)
    {
      solver.Assert(Cmp(GeC, t, Const(ty.Lo())));
      solver.Assert(Cmp(LeC, t, Const(ty.Hi())));
    }

    /** One fresh symbol per parameter, bounded by its type. */
    method Declare(params: seq<Param>) returns (top: Scope)
      requires solver.Valid() && State() == Start
      modifies solver
      ensures solver.Valid() && (top, State()) == EnterParams(params, Start)
    {
      top := map[];
      for i := 0 to |params|
        invariant solver.Valid() && (top, State()) == EnterParams(params[..i], Start)
      {
        var t := solver.Fresh();
        AssertBounds(t, params[i].ty);
        top := top[params[i].name := t];
        assert params[..i + 1][..i] == params[..i];
      }
      assert params[..|params|] == params;
    }

    /** Every precondition in turn. */
    method AssumeAll(pre: seq<Expr>, sc: Scopes) returns (ok: bool)
      requires Valid(sc)
      modifies this, solver, sc
      ensures AssumePre(pre, old(sc.View()), old(State()), Task()) == if ok then Done((), State()) else Unsupported
      ensures ok ==> Valid(sc) && sc.View() == old(sc.View())
    {
      ghost var top, st := sc.View(), State();
      for i := 0 to |pre|
        invariant Valid(sc) && sc.View() == top
        invariant AssumePre(pre[i..], top, State(), Task()) == AssumePre(pre, top, st, Task())
      {
        assert pre[i..][0] == pre[i] && pre[i..][1..] == pre[i + 1..];
        var q := Clause(pre[i], sc);
        if q.None? { return false; }
        solver.Assert(q.value);
      }
      ok := true;
    }

    method IntExpr(e: Expr, sc: Scopes) returns (r: Option<Term>)
      requires Valid(sc)
      modifies this, solver, sc
      ensures var w := WalkInt(e, old(sc.View()), old(State()), Task());
              if r.Some? then Reached(w, old(|solver.frames|), old(solver.Below())) && r.value == w.v && sc.stack == old(sc.stack)
              else w.Unsupported?
      decreases 2 * Task().Size() + 1, e, 2
    {
      match e
      case Int(n) => return Some(Const(n));
      case Ident(x) => r := sc.Get(x);
      case Unary(Neg, a) =>
        var t := IntExpr(a, sc);
        if t.None? { return None; }
        return Some(NegT(t.value));
      case Binary(op, lhs, rhs) =>
        if !op.Add? && !op.Sub? && !op.Mul? { return None; }
        var a := IntExpr(lhs, sc);
        if a.None? { return None; }
        var b := IntExpr(rhs, sc);
        if b.None? { return None; }
        return Some(ArithTerm(op, a.value, b.value));
      case If(_, _, _) => r := IfExpr(e, sc);
      case Call(_, _) => r := CallExpr(e, sc);
      case _ => return None;
    }

    method IfExpr(e: Expr, sc: Scopes) returns (r: Option<Term>)
      requires e.If? && Valid(sc)
      modifies this, solver, sc
      ensures var w := WalkIf(e, old(sc.View()), old(State()), Task());
              if r.Some? then Reached(w, old(|solver.frames|), old(solver.Below())) && r.value == w.v && sc.stack == old(sc.stack)
              else w.Unsupported?
      decreases 2 * Task().Size() + 1, e, 1
    {
      var f := BoolExpr(e.cond, sc);
      if f.None? { return None; }
      ghost var inner := solver.frames;
      solver.Push();
      solver.Assert(f.value);
      var a := BlockValue(e.thn, sc);
      if a.None? { return None; }
      solver.Pop(1);
      assert solver.frames == inner;
      solver.Push();
      solver.Assert(NotF(f.value));
      var b := ElseValue(e.els, sc);
      if b.None? { return None; }
      solver.Pop(1);
      assert solver.frames == inner;
      return Some(Ite(f.value, a.value, b.value));
    }

    method ElseValue(els: Else, sc: Scopes) returns (r: Option<Term>)
      requires Valid(sc)
      modifies this, solver, sc
      ensures var w := WalkElseValue(els, old(sc.View()), old(State()), Task());
              if r.Some? then Reached(w, old(|solver.frames|), old(solver.Below())) && r.value == w.v && sc.stack == old(sc.stack)
              else w.Unsupported?
      decreases 2 * Task().Size() + 1, els
    {
      match els
      case NoElse => return None;
      case ElseBlock(body) => r := BlockValue(body, sc);
      case ElseIf(e) => r := IntExpr(e, sc);
    }

    method CallExpr(e: Expr, sc: Scopes) returns (r: Option<Term>)
      requires e.Call? && Valid(sc)
      modifies this, solver, sc
      ensures var w := WalkCall(e, old(sc.View()), old(State()), Task());
              if r.Some? then Reached(w, old(|solver.frames|), old(solver.Below())) && r.value == w.v && sc.stack == old(sc.stack)
              else w.Unsupported?
      decreases 2 * Task().Size() + 1, e, 1
    {
      if e.callee !in summaries { return None; }
      var sm := summaries[e.callee];
      if |sm.params| != |e.args| { return None; }
      var ts := Args(e.args, sc);
      if ts.None? { return None; }
      r := AssumeContract(sm, ts.value);
    }

    method BoolExpr(e: Expr, sc: Scopes) returns (r: Option<Formula>)
      requires Valid(sc)
      modifies this, solver, sc
      ensures var w := WalkBool(e, old(sc.View()), old(State()), Task());
              if r.Some? then Reached(w, old(|solver.frames|), old(solver.Below())) && r.value == w.v && sc.stack == old(sc.stack)
              else w.Unsupported?
      decreases 2 * Task().Size() + 1, e, 2
    {
      match e
      case Bool(b) => return Some(Truth(b));
      case Unary(Not, a) =>
        var f := BoolExpr(a, sc);
        if f.None? { return None; }
        return Some(NotF(f.value));
      case Binary(op, lhs, rhs) =>
        if op.IsLogic() || (op.IsEquality() && IsBoolShaped(lhs) && IsBoolShaped(rhs)) {
          var p := BoolExpr(lhs, sc);
          if p.None? { return None; }
          var q := BoolExpr(rhs, sc);
          if q.None? { return None; }
          return Some(Connect(op, p.value, q.value));
        } else if op.IsComparison() {
          var a := IntExpr(lhs, sc);
          if a.None? { return None; }
          var b := IntExpr(rhs, sc);
          if b.None? { return None; }
          return Some(Compare(op, a.value, b.value));
        } else {
          return None;
        }
      case _ => return None;
    }

    method Args(es: seq<Expr>, sc: Scopes) returns (r: Option<seq<Term>>)
      requires Valid(sc)
      modifies this, solver, sc
      ensures var w := WalkArgs(es, old(sc.View()), old(State()), Task());
              if r.Some? then Reached(w, old(|solver.frames|), old(solver.Below())) && r.value == w.v && sc.stack == old(sc.stack)
              else w.Unsupported?
      decreases 2 * Task().Size() + 1, es, 0
    {
      if es == [] { return Some([]); }
      var t := IntExpr(es[0], sc);
      if t.None? { return None; }
      var ts := Args(es[1..], sc);
      if ts.None? { return None; }
      return Some([t.value] + ts.value);
    }

    /** A contract clause: no calls to resolve, no `return` to check. */
    method Clause(e: Expr, sc: Scopes) returns (r: Option<Formula>)
      requires Valid(sc)
      modifies this, solver, sc
      ensures var w := WalkBool(e, old(sc.View()), old(State()), Task().ForClause());
              if r.Some? then Reached(w, old(|solver.frames|), old(solver.Below())) && r.value == w.v && sc.stack == old(sc.stack)
              else w.Unsupported?
      decreases 2, 0
    {
      var ck := new Eval(solver, [], map[], outcome);
      assert ck.Task() == Task().ForClause();
      r := ck.BoolExpr(e, sc);
      outcome := ck.outcome;
    }

    method AssumeContract(sm: Summary, ts: seq<Term>) returns (r: Option<Term>)
      requires solver.Valid() && |sm.params| == |ts|
      modifies this, solver
      ensures var w := CallAxioms(sm, ts, old(State()), Task());
              if r.Some? then Reached(w, old(|solver.frames|), old(solver.Below())) && r.value == w.v
              else w.Unsupported?
      decreases 2, 2
    {
      var res := solver.Fresh();
      AssertBounds(res, sm.ret);
      var callScope := new Scopes(BindTerms(sm.params, ts));
      var pre := Clauses(sm.pre, callScope);
      if pre.None? { return None; }
      callScope.Define("result", res);
      r := Axioms(sm.post, pre.value, callScope, res);
    }

    method Clauses(es: seq<Expr>, sc: Scopes) returns (r: Option<Formula>)
      requires Valid(sc)
      modifies this, solver, sc
      ensures var w := WalkClauses(es, old(sc.View()), old(State()), Task().ForClause());
              if r.Some? then Reached(w, old(|solver.frames|), old(solver.Below())) && r.value == w.v && sc.stack == old(sc.stack)
              else w.Unsupported?
      decreases 2, 1
    {
      ghost var ck, names, st0 := Task().ForClause(), sc.View(), State();
      var pre := Truth(true);
      for i := 0 to |es|
        invariant Valid(sc) && sc.stack == old(sc.stack)
        invariant Reached(WalkClauses(es[..i], names, st0, ck), old(|solver.frames|), old(solver.Below()))
        invariant pre == WalkClauses(es[..i], names, st0, ck).v
      {
        var q := Clause(es[i], sc);
        assert es[..i + 1][..i] == es[..i];
        if q.None? {
          ClausesPrefix(es, i + 1, names, st0, ck);
          return None;
        }
        pre := AndF(pre, q.value);
      }
      assert es[..|es|] == es;
      return Some(pre);
    }

    method Axioms(es: seq<Expr>, pre: Formula, sc: Scopes, res: Term) returns (r: Option<Term>)
      requires Valid(sc)
      modifies this, solver, sc
      ensures var w := WalkAxioms(es, pre, old(sc.View()), old(State()), Task(), res);
              if r.Some? then Reached(w, old(|solver.frames|), old(solver.Below())) && r.value == w.v
              else w.Unsupported?
      decreases 2, 1
    {
      for i := 0 to |es|
        invariant Valid(sc) && sc.stack == old(sc.stack)
        invariant solver.Valid() && |solver.frames| == old(|solver.frames|) && solver.Below() == old(solver.Below())
        invariant WalkAxioms(es[i..], pre, sc.View(), State(), Task(), res)
                  == WalkAxioms(es, pre, old(sc.View()), old(State()), Task(), res)
      {
        var q := Clause(es[i], sc);
        if q.None? { return None; }
        solver.Assert(OrF(NotF(pre), q.value));
      }
      return Some(res);
    }

    method BlockValue(b: seq<Stmt>, sc: Scopes) returns (r: Option<Term>)
      requires Valid(sc)
      modifies this, solver, sc
      ensures var w := WalkBlockValue(b, old(sc.View()), old(State()), Task());
              if r.Some? then Reached(w, old(|solver.frames|), old(solver.Below())) && r.value == w.v && sc.stack == old(sc.stack)
              else w.Unsupported?
      decreases 2 * Task().Size() + 1, b, 1
    {
      if b == [] { return None; }
      sc.Push();
      var x := Stmts(b[..|b| - 1], sc);
      if x.None? { return None; }
      r := Tail(b[|b| - 1], sc);
      if r.None? { return None; }
      sc.Pop();
    }

    method Tail(s: Stmt, sc: Scopes) returns (r: Option<Term>)
      requires Valid(sc)
      modifies this, solver, sc
      ensures var w := WalkTail(s, old(sc.View()), old(State()), Task());
              if r.Some? then Reached(w, old(|solver.frames|), old(solver.Below())) && r.value == w.v && sc.stack == old(sc.stack)
              else w.Unsupported?
      decreases 2 * Task().Size() + 1, s
    {
      match s
      case ExprStmt(e) => r := IntExpr(e, sc);
      case _ => return None;
    }

    method Block(b: seq<Stmt>, sc: Scopes) returns (r: Option<bool>)
      requires Valid(sc)
      modifies this, solver, sc
      ensures var w := WalkStmts(b, old(sc.View()), old(State()), Task());
              if r.Some? then Reached(w, old(|solver.frames|), old(solver.Below())) && r.value == w.v.0 && sc.stack == old(sc.stack)
              else w.Unsupported?
      decreases 2 * Task().Size() + 1, b, 1
    {
      sc.Push();
      r := Stmts(b, sc);
      if r.None? { return None; }
      sc.Pop();
    }

    method Stmts(stmts: seq<Stmt>, sc: Scopes) returns (r: Option<bool>)
      requires Valid(sc)
      modifies this, solver, sc
      ensures var w := WalkStmts(stmts, old(sc.View()), old(State()), Task());
              if r.Some? then Reached(w, old(|solver.frames|), old(solver.Below())) && r.value == w.v.0
                              && Valid(sc) && sc.View() == w.v.1 && sc.Outer() == old(sc.Outer()) && |sc.stack| == old(|sc.stack|)
              else w.Unsupported?
      decreases 2 * Task().Size() + 1, stmts, 0
    {
      ghost var w0, depth, below := WalkStmts(stmts, sc.View(), State(), Task()), |solver.frames|, solver.Below();
      ghost var base := solver.frames;
      var extraPushes, i := 0, 0;
      while i < |stmts|
        invariant 0 <= i <= |stmts| && Valid(sc) && sc.Outer() == old(sc.Outer()) && |sc.stack| == old(|sc.stack|)
        invariant Pushed(extraPushes, depth, below, base)
        invariant w0 == Unwound(WalkStmts(stmts[i..], sc.View(), State(), Task()), extraPushes, base)
        decreases |stmts| - i
      {
        if outcome.Some? {
          Unpush(extraPushes, base);
          return Some(false);
        }
        var done, pushes;
        done, pushes, base := Step(stmts, i, sc, extraPushes, depth, below, base);
        if done.None? { return None; }
        if done.value {
          Unpush(extraPushes, base);
          return Some(true);
        }
        extraPushes, i := pushes, i + 1;
      }
      Unpush(extraPushes, base);
      return Some(false);
    }

    /** `n` frames are on top of the one the list started in. */
    ghost predicate Pushed(n: nat, depth: nat, below: seq<seq<Formula>>, base: seq<seq<Formula>>) reads solver {
      depth > 0 && |solver.frames| == depth + n
      && if n == 0 then solver.Below() == below else |base| == depth && solver.frames[..depth] == base && base[..depth - 1] == below
    }

    /** One statement of a list; a one-sided return opens a frame for the rest of the list. */
    method Step(stmts: seq<Stmt>, i: nat, sc: Scopes, pushes: nat,
                ghost depth: nat, ghost below: seq<seq<Formula>>, ghost base: seq<seq<Formula>>)
      returns (done: Option<bool>, more: nat, ghost base2: seq<seq<Formula>>)
      requires i < |stmts| && Valid(sc) && outcome.None? && Pushed(pushes, depth, below, base)
      modifies this, solver, sc
      ensures var w := WalkStmts(stmts[i..], old(sc.View()), old(State()), Task());
              if done.None? then w.Unsupported?
              else Valid(sc) && sc.Outer() == old(sc.Outer()) && |sc.stack| == old(|sc.stack|) && Pushed(more, depth, below, base2)
                   && (done.value ==> more == pushes && base2 == base && w == Done((true, sc.View()), State()))
                   && (!done.value ==>
                         Unwound(w, pushes, base) == Unwound(WalkStmts(stmts[i + 1..], sc.View(), State(), Task()), more, base2))
      decreases 2 * Task().Size() + 1, stmts[i], 2
    {
      NextStmt(stmts, i, sc.View(), State(), Task());
      more, base2 := pushes, base;
      var flow := OneStmt(stmts[i], sc);
      if flow.None? { return None, more, base2; }
      assert pushes > 0 ==> solver.frames[..depth] == solver.Below()[..depth] == base;
      match flow.value {
        case Continues => done := Some(false);
        case Returns => done := Some(true);
        case ContinuesUnder(f) =>
          if pushes == 0 { base2 := solver.frames; }
          solver.Push();
          solver.Assert(f);
          more := pushes + 1;
          done := Some(false);
      }
    }

    method Unpush(n: nat, ghost base: seq<seq<Formula>>)
      requires n < |solver.frames| && (n > 0 ==> solver.frames[..|solver.frames| - n] == base)
      modifies solver`frames
      ensures solver.frames == if n == 0 then old(solver.frames) else base
      ensures n > 0 ==> State() == old(State()).(facts := Concat(base))
    {
      solver.Pop(n);
      assert n == 0 ==> old(solver.frames)[..|old(solver.frames)|] == old(solver.frames);
    }

    method LetStmt(s: Stmt, sc: Scopes) returns (r: Option<Flow>)
      requires s.Let? && Valid(sc)
      modifies this, solver, sc
      ensures var w := WalkStmt(s, old(sc.View()), old(State()), Task());
              if r.Some? then Reached(w, old(|solver.frames|), old(solver.Below())) && r.value == w.v.0
                              && Valid(sc) && sc.View() == w.v.1 && sc.Outer() == old(sc.Outer()) && |sc.stack| == old(|sc.stack|)
              else w.Unsupported?
      decreases 2 * Task().Size() + 1, s, 0
    {
      if !s.ty.IsInteger() { return None; }
      var t := IntExpr(s.value, sc);
      if t.None? { return None; }
      AssertBounds(t.value, s.ty);
      sc.Define(s.name, t.value);
      r := Some(Continues);
    }

    method ReturnStmt(s: Stmt, sc: Scopes) returns (r: Option<Flow>)
      requires s.Return? && Valid(sc)
      modifies this, solver, sc
      ensures var w := WalkStmt(s, old(sc.View()), old(State()), Task());
              if r.Some? then Reached(w, old(|solver.frames|), old(solver.Below())) && r.value == w.v.0
                              && Valid(sc) && sc.View() == w.v.1 && sc.Outer() == old(sc.Outer()) && |sc.stack| == old(|sc.stack|)
              else w.Unsupported?
      decreases 2 * Task().Size() + 1, s, 0
    {
      if s.result.None? { return Some(Returns); }
      var t := IntExpr(s.result.value, sc);
      if t.None? { return None; }
      var ok := CheckEach(t.value, sc);
      r := if ok then Some(Returns) else None;
    }

    method OneStmt(s: Stmt, sc: Scopes) returns (r: Option<Flow>)
      requires Valid(sc)
      modifies this, solver, sc
      ensures var w := WalkStmt(s, old(sc.View()), old(State()), Task());
              if r.Some? then Reached(w, old(|solver.frames|), old(solver.Below())) && r.value == w.v.0
                              && Valid(sc) && sc.View() == w.v.1 && sc.Outer() == old(sc.Outer()) && |sc.stack| == old(|sc.stack|)
              else w.Unsupported?
      decreases 2 * Task().Size() + 1, s, 1
    {
      match s
      case Let(_, _, _) => r := LetStmt(s, sc);
      case Return(_) => r := ReturnStmt(s, sc);
      case ExprStmt(e) => r := ExprStatement(e, sc);
      case While(_, _) => return None;
      case Audited(body) =>
        var b := Block(body, sc);
        if b.None? { return None; }
        return Some(if b.value then Returns else Continues);
    }

    method ExprStatement(e: Expr, sc: Scopes) returns (r: Option<Flow>)
      requires Valid(sc)
      modifies this, solver, sc
      ensures var w := WalkExprStmt(e, old(sc.View()), old(State()), Task());
              if r.Some? then Reached(w, old(|solver.frames|), old(solver.Below())) && r.value == w.v && sc.stack == old(sc.stack)
              else w.Unsupported?
      decreases 2 * Task().Size() + 1, e, 3
    {
      if e.If? { r := IfStatement(e, sc); }
      else {
        var t := IntExpr(e, sc);
        r := if t.None? then None else Some(Continues);
      }
    }

    method IfStatement(e: Expr, sc: Scopes) returns (r: Option<Flow>)
      requires e.If? && Valid(sc)
      modifies this, solver, sc
      ensures var w := WalkExprStmt(e, old(sc.View()), old(State()), Task());
              if r.Some? then Reached(w, old(|solver.frames|), old(solver.Below())) && r.value == w.v && sc.stack == old(sc.stack)
              else w.Unsupported?
      decreases 2 * Task().Size() + 1, e, 1
    {
      var f := BoolExpr(e.cond, sc);
      if f.None? { return None; }
      ghost var inner := solver.frames;
      solver.Push();
      solver.Assert(f.value);
      var thenReturns := Block(e.thn, sc);
      if thenReturns.None? { return None; }
      solver.Pop(1);
      assert solver.frames == inner;
      solver.Push();
      solver.Assert(NotF(f.value));
      var elseReturns := ElseStatement(e.els, sc);
      if elseReturns.None? { return None; }
      solver.Pop(1);
      assert solver.frames == inner;
      return Some(Join(thenReturns.value, elseReturns.value, f.value));
    }

    method ElseStatement(els: Else, sc: Scopes) returns (r: Option<bool>)
      requires Valid(sc)
      modifies this, solver, sc
      ensures var w := WalkElse(els, old(sc.View()), old(State()), Task());
              if r.Some? then Reached(w, old(|solver.frames|), old(solver.Below())) && r.value == w.v && sc.stack == old(sc.stack)
              else w.Unsupported?
      decreases 2 * Task().Size() + 1, els
    {
      match els
      case NoElse => return Some(false);
      case ElseBlock(body) => r := Block(body, sc);
      case ElseIf(e) =>
        var flow := ExprStatement(e, sc);
        if flow.None? { return None; }
        return Some(flow.value.Returns?);
    }

    method AskSolver(clause: Expr, q: Formula, t: Term, sc: Scopes)
      requires Valid(sc)
      modifies this, solver
      ensures State() == Ask(clause, q, t, sc.View(), old(State()), solver.oracle)
      ensures solver.Valid() && solver.frames == old(solver.frames)
    {
      var answer := solver.Query(NotF(q));
      if answer.Sat? {
        outcome := Some(Violation(clause, Bindings(sc.View(), answer.model), AsI64(TermVal(t, answer.model))));
      }
    }

    method CheckEach(t: Term, sc: Scopes) returns (ok: bool)
      requires Valid(sc)
      modifies this, solver, sc
      ensures var w := CheckReturn(post, t, old(sc.View()), old(State()), Task());
              if ok then Reached(w, old(|solver.frames|), old(solver.Below())) && sc.stack == old(sc.stack)
              else w.Unsupported?
      decreases 2 * Task().Size(), 3
    {
      var i := 0;
      while i < |post|
        invariant 0 <= i <= |post| && Valid(sc) && sc.stack == old(sc.stack)
        invariant solver.Valid() && |solver.frames| == old(|solver.frames|) && solver.Below() == old(solver.Below())
        invariant CheckReturn(post[i..], t, sc.View(), State(), Task()) == CheckReturn(post, t, old(sc.View()), old(State()), Task())
      {
        if outcome.Some? { return true; }
        assert post[i..][0] == post[i] && post[i..][1..] == post[i + 1..];
        var done := CheckOne(post[i], t, sc);
        if !done { return false; }
        i := i + 1;
      }
      return true;
    }

    /** One clause, with `result` in a scope of its own. */
    method CheckOne(c: Expr, t: Term, sc: Scopes) returns (ok: bool)
      requires Valid(sc)
      modifies this, solver, sc
      ensures var w := WalkBool(c, old(sc.View())["result" := t], old(State()), Task().ForClause());
              if ok then w.Done? && State() == Ask(c, w.v, t, old(sc.View()), w.st, solver.oracle) && sc.stack == old(sc.stack)
                         && solver.Valid() && |solver.frames| == old(|solver.frames|) && solver.Below() == old(solver.Below())
              else w.Unsupported?
      decreases 2, 2
    {
      sc.Push();
      sc.Define("result", t);
      var q := Clause(c, sc);
      if q.None? { return false; }
      sc.Pop();
      AskSolver(c, q.value, t, sc);
      ok := true;
    }
  }

  /** One contract: fresh bounded parameters, the preconditions as hypotheses, then the body. */
  method CheckFnContract(f: FnDecl, pre: seq<Expr>, tk: Task) returns (v: Verdict)
    ensures v == CheckContract(f, pre, tk)
  {
    if !f.ret.IsInteger() || exists p :: p in f.params && !p.ty.IsInteger() { return NotModelled; }
    var unbound := Unbound(pre + tk.post, ParamNames(f.params) + {"result"});
    if unbound != {} { return UnboundIdentifier(unbound); }
    var solver := new Solver(tk.oracle);
    var eval := new Eval(solver, tk.post, tk.summaries, None);
    var top := eval.Declare(f.params);
    var sc := new Scopes(top);
    var ok := eval.AssumeAll(pre, sc);
    if !ok { return NotModelled; }
    var r := eval.Stmts(f.body, sc);
    if r.None? { return NotModelled; }
    match eval.outcome
    case Some(found) => return Counterexample(found);
    case None => return Proved;
  }

  /** The result of a walk that started after `pushes` extra frames were pushed onto `base`. */
  /** The walk of what is left, one statement on. */
  lemma NextStmt(stmts: seq<Stmt>, i: nat, sc: Scope, st: St, tk: Task)
    requires i < |stmts| && st.found.None?
    ensures var w, a := WalkStmts(stmts[i..], sc, st, tk), WalkStmt(stmts[i], sc, st, tk);
            if a.Unsupported? then w.Unsupported?
            else match a.v.0
                 case Continues => w == WalkStmts(stmts[i + 1..], a.v.1, a.st, tk)
                 case Returns => w == Done((true, a.v.1), a.st)
                 case ContinuesUnder(f) => w == Popped(WalkStmts(stmts[i + 1..], a.v.1, a.st.Assert(f), tk), a.st)
  {
    assert stmts[i..][0] == stmts[i] && stmts[i..][1..] == stmts[i + 1..];
  }

  ghost function Popped(w: W<(bool, Scope)>, outer: St): W<(bool, Scope)> {
    if w.Unsupported? then w else Done(w.v, w.st.PopTo(outer))
  }

  ghost function Unwound(w: W<(bool, Scope)>, pushes: nat, base: seq<seq<Formula>>): W<(bool, Scope)> {
    if pushes == 0 || w.Unsupported? then w else Done(w.v, w.st.(facts := Concat(base)))
  }

  lemma ClausesPrefix(es: seq<Expr>, n: nat, sc: Scope, st: St, ck: Task)
    requires ck.Size() == 0 && n <= |es| && WalkClauses(es[..n], sc, st, ck).Unsupported?
    ensures WalkClauses(es, sc, st, ck).Unsupported?
    decreases |es|
  {
    if n < |es| {
      var k := |es| - 1;
      assert es[..k][..n] == es[..n];
      ClausesPrefix(es[..k], n, sc, st, ck);
    } else {
      assert es[..n] == es;
    }
  }
}
