/** What a run really does: the operations it makes, on the handles it really holds.

    A run is fixed by a plan: the outcome of each choice and the value of each expression whose value
    the pass does not follow. A run of a call is bounded by `fuel`, so every finite part of a run is
    covered. `typed` records what the type checker promises: whatever is stored in a binding is a value of
    its declared type. */
module EffectsRun {
  import opened Prelude
  import opened Types
  import opened Registry
  import opened Effects
  import opened EffectsTable
  import opened EffectsInfer

  datatype Value = Plain | FnV(name: string) | HandleV(kind: Kind)
  datatype Local = Local(ty: Ty, v: Value)
  type Frames = seq<map<string, Local>>

  /** A choice, the value of an expression, the payload a matched arm binds, and the text of a string. */
  datatype Pick = Pick(n: nat, v: Value, payload: map<string, Value>, text: string)

  /** How far a run got: an ordinary value, a `return`, or the end of its fuel. */
  datatype Status = Go(v: Value) | Ret(v: Value) | Halt

  datatype Run = Run(status: Status, frames: Frames, did: set<Op>, typed: bool, plan: seq<Pick>) {
    /** What happened before `r` also happened. */
    function Before(r: Run): Run { r.(did := did + r.did, typed := typed && r.typed) }
    function Doing(op: Op): Run { this.(did := did + {op}) }
    function Yield(v: Value): Run { this.(status := Go(v)) }
  }

  function Next(plan: seq<Pick>): Pick { if plan == [] then Pick(0, Plain, map[], "") else plan[0] }
  function Rest(plan: seq<Pick>): (r: seq<Pick>)
    ensures |r| <= |plan| && (Next(plan).n != 0 ==> |r| < |plan|)
  {
    if plan == [] then [] else plan[1..]
  }

  function Still(R: Frames, v: Value, plan: seq<Pick>): Run { Run(Go(v), R, {}, true, plan) }

  /** The declared types of the bindings. */
  function Tys(R: Frames): (S: Scopes)
    ensures |S| == |R| && forall i {:trigger S[i]} :: 0 <= i < |R| ==> S[i] == FrameTys(R[i])
  {
    seq(|R|, i requires 0 <= i < |R| => FrameTys(R[i]))
  }

  function FrameTys(f: map<string, Local>): map<string, Ty> { map x | x in f :: f[x].ty }

  function LookUp(R: Frames, x: string): Option<Local> {
    match Find(R, x) case None => None case Some(i) => Some(R[i][x])
  }

  function SetValue(R: Frames, x: string, v: Value): Frames {
    match Find(R, x) case None => R case Some(i) => R[i := R[i][x := R[i][x].(v := v)]]
  }

  function DefineLocal(R: Frames, x: string, l: Local): Frames
    requires R != []
  {
    R[|R| - 1 := R[|R| - 1][x := l]]
  }

  // ---------------------------------------------------------------- real operations

  function RealKind(v: Value): Kind { match v case HandleV(kind) => kind case _ => OtherKind }

  function ValueOf(x: string, R: Frames, p: Program): Value {
    match LookUp(R, x)
    case Some(l) => l.v
    case None => if x in p.Names() then FnV(x) else Plain
  }

  /** The string a connection is opened with: the literal, or whatever the plan says. */
  function Text(args: seq<Expr>, pick: Pick): string {
    if args != [] && args[0].StrLit? then args[0].s else pick.text
  }

  function FirstFn(fns: seq<FnDecl>, name: string): Option<FnDecl> {
    if fns == [] then None else if fns[0].name == name then Some(fns[0]) else FirstFn(fns[1..], name)
  }

  function ParamLocals(params: seq<Param>, vs: seq<Value>): map<string, Local> {
    if params == [] then map[]
    else var n := |params| - 1; ParamLocals(params[..n], vs)[params[n].name := Local(params[n].ty, if n < |vs| then vs[n] else Plain)]
  }

  /** An arm's bindings with the values the plan gives them, and the types the walk gives them. */
  function ArmLocals(tys: map<string, Ty>, payload: map<string, Value>): map<string, Local> {
    map x | x in tys :: Local(tys[x], if x in payload then payload[x] else Plain)
  }

  // ---------------------------------------------------------------- the run

  function RunExpr(e: Expr, R: Frames, p: Program, plan: seq<Pick>, fuel: nat): (r: Run)
    ensures |r.plan| <= |plan| && Tys(r.frames) == Tys(R)
    decreases fuel, |plan|, e, 3
  {
    match e
    case Lit | StrLit(_) => Still(R, Plain, plan)
    case Ident(x) => Still(R, ValueOf(x, R, p), plan)
    case Op(args) => RunOperands(args, R, p, plan, fuel)
    case Call(_, _) => RunCall(e, R, p, plan, fuel)
    case If(_, _, _) => RunIf(e, R, p, plan, fuel)
    case Assign(x, rhs) =>
      var a := RunExpr(rhs, R, p, plan, fuel);
      if a.status.Go? then SetKeepsTys(a.frames, x, a.status.v); Stored(a, x) else a
    case Spawn(f, args, sandbox) => RunSpawn(e, R, p, plan, fuel)
    case Join(inner) => RunExpr(inner, R, p, plan, fuel).Doing(Await)
    case Send(_, _) => RunSend(e, R, p, plan, fuel)
    case Recv(t) =>
      var a := RunExpr(t, R, p, plan, fuel);
      if a.status.Go? then Used(a, Transfer(RealKind(a.status.v))) else a
    case Stop(inner) =>
      var a := RunExpr(inner, R, p, plan, fuel);
      if a.status.Go? then Used(a, Stopping(RealKind(a.status.v))) else a
    case Make(m, args) =>
      var a := RunOperands(args, R, p, plan, fuel);
      if a.status.Go? then a.Doing(Making(m)).Yield(HandleV(MadeKind(m))) else a
    case Acquire(_, proof) =>
      var a := RunExpr(proof, R, p, plan, fuel);
      if a.status.Go? then a.Yield(Next(a.plan).v).(plan := Rest(a.plan)) else a
    case Match(_, _) => RunMatch(e, R, p, plan, fuel)
  }

  /** A handle was used. */
  function Used(a: Run, op: Op): Run
    requires a.status.Go?
  {
    a.Doing(op).Yield(Plain)
  }

  /** A binding of a struct or enum type, or of a type parameter, may hold anything. */
  predicate Fits(v: Value, ty: Ty) { ty.Named? || (RealKind(v) == KindOf(ty) && (v.FnV? ==> ty.Fn?)) }

  predicate AllFit(f: map<string, Local>) { forall x :: x in f ==> Fits(f[x].v, f[x].ty) }

  /** Whether `v` may be assigned to `x`. */
  predicate MayHold(R: Frames, x: string, v: Value) { LookUp(R, x).Some? ==> Fits(v, LookUp(R, x).value.ty) }

  /** An assignment of the run's value. */
  function Stored(a: Run, x: string): Run
    requires a.status.Go?
  {
    a.(frames := SetValue(a.frames, x, a.status.v), status := Go(Plain), typed := a.typed && MayHold(a.frames, x, a.status.v))
  }

  lemma SetKeepsTys(R: Frames, x: string, v: Value)
    ensures Tys(SetValue(R, x, v)) == Tys(R)
  {
    match Find(R, x)
    case None =>
    case Some(i) => assert FrameTys(R[i][x := R[i][x].(v := v)]) == FrameTys(R[i]);
  }

  /** Operands left to right; the value is whatever the plan says. */
  function RunOperands(args: seq<Expr>, R: Frames, p: Program, plan: seq<Pick>, fuel: nat): (r: Run)
    ensures |r.plan| <= |plan| && Tys(r.frames) == Tys(R)
    decreases fuel, |plan|, args, 1
  {
    var (a, _) := RunAll(args, R, p, plan, fuel);
    if a.status.Go? then a.Yield(Next(a.plan).v).(plan := Rest(a.plan)) else a
  }

  function RunAll(args: seq<Expr>, R: Frames, p: Program, plan: seq<Pick>, fuel: nat): (r: (Run, seq<Value>))
    ensures |r.0.plan| <= |plan| && Tys(r.0.frames) == Tys(R)
    decreases fuel, |plan|, args, 0
  {
    if args == [] then (Still(R, Plain, plan), [])
    else
      var a := RunExpr(args[0], R, p, plan, fuel);
      if !a.status.Go? then (a, [])
      else
        var (b, vs) := RunAll(args[1..], a.frames, p, a.plan, fuel);
        (a.Before(b), [a.status.v] + vs)
  }

  /** A local function value is called if there is one; the name is looked at only then. */
  function RunCall(e: Expr, R: Frames, p: Program, plan: seq<Pick>, fuel: nat): (r: Run)
    requires e.Call?
    ensures |r.plan| <= |plan| && Tys(r.frames) == Tys(R)
    decreases fuel, |plan|, e, 2
  {
    var (a, vs) := RunAll(e.args, R, p, plan, fuel);
    if !a.status.Go? then a
    else
      var l := LookUp(a.frames, e.callee);
      if l.Some? && l.value.v.FnV? then
        var b := if fuel == 0 then Spent(a.frames, a.plan) else Enter(l.value.v.name, vs, a.frames, p, a.plan, fuel - 1);
        a.Before(b)
      else a.Before(CallNamed(e.callee, e.args, vs, a.frames, p, a.plan, fuel))
  }

  function CallNamed(name: string, args: seq<Expr>, vs: seq<Value>, R: Frames, p: Program, plan: seq<Pick>, fuel: nat): (r: Run)
    ensures |r.plan| <= |plan| && r.frames == R
    decreases fuel, |plan|, args, 1
  {
    var after := Still(R, Next(plan).v, Rest(plan));
    if name == "db_connect" then after.Doing(OpenDb(Text(args, Next(plan))))
    else if name in p.builtins then after.Doing(Builtin(name))
    else if name in p.plugins then after.Doing(Plugin(name))
    else if name in p.Names() then (if fuel == 0 then Spent(R, plan) else Enter(name, vs, R, p, plan, fuel - 1))
    else after
  }

  function Spent(R: Frames, plan: seq<Pick>): Run { Run(Halt, R, {}, true, plan) }

  /** The body of the function called `name`; the caller's bindings are untouched. */
  function Enter(name: string, vs: seq<Value>, R: Frames, p: Program, plan: seq<Pick>, fuel: nat): (r: Run)
    ensures |r.plan| <= |plan| && r.frames == R
    decreases fuel
  {
    var f := FirstFn(p.fns, name);
    if f.None? then Still(R, Plain, plan)
    else
      var b := RunFn(f.value, vs, p, plan, fuel);
      b.(frames := R, status := match b.status case Ret(v) => Go(v) case Go(_) => Go(Plain) case Halt => Halt)
  }

  function RunFn(f: FnDecl, vs: seq<Value>, p: Program, plan: seq<Pick>, fuel: nat): (r: Run)
    ensures |r.plan| <= |plan|
    decreases fuel, |plan|, f.body, 2
  {
    var top := ParamLocals(f.params, vs);
    var r := RunStmts(f.body, [top], p, plan, fuel);
    r.(typed := r.typed && AllFit(top))
  }

  /** The spawned body runs elsewhere; what it does counts as done here. */
  function RunSpawn(e: Expr, R: Frames, p: Program, plan: seq<Pick>, fuel: nat): (r: Run)
    requires e.Spawn?
    ensures |r.plan| <= |plan| && Tys(r.frames) == Tys(R)
    decreases fuel, |plan|, e, 2
  {
    var (a, vs) := RunAll(e.args, R, p, plan, fuel);
    if !a.status.Go? then a
    else if e.callee !in p.Names() then a.Doing(Start)
    else
      var b := if fuel == 0 then Spent(a.frames, a.plan) else Enter(e.callee, vs, a.frames, p, a.plan, fuel - 1);
      a.Before(b).Doing(Start).(status := if b.status.Halt? then Halt else Go(HandleV(if e.sandbox then SandboxKind else OtherKind)))
  }

  function RunSend(e: Expr, R: Frames, p: Program, plan: seq<Pick>, fuel: nat): (r: Run)
    requires e.Send?
    ensures |r.plan| <= |plan| && Tys(r.frames) == Tys(R)
    decreases fuel, |plan|, e, 2
  {
    var a := RunExpr(e.target, R, p, plan, fuel);
    if !a.status.Go? then a
    else
      var b := RunExpr(e.value, a.frames, p, a.plan, fuel);
      if !b.status.Go? then a.Before(b)
      else Used(a, Transfer(RealKind(a.status.v))).Before(b)
  }

  function RunIf(e: Expr, R: Frames, p: Program, plan: seq<Pick>, fuel: nat): (r: Run)
    requires e.If?
    ensures |r.plan| <= |plan| && Tys(r.frames) == Tys(R)
    decreases fuel, |plan|, e, 2
  {
    var a := RunExpr(e.cond, R, p, plan, fuel);
    if !a.status.Go? then a
    else if Next(a.plan).n != 0 then a.Before(RunBlock(e.thn, a.frames, p, Rest(a.plan), fuel))
    else a.Before(RunElse(e.els, a.frames, p, Rest(a.plan), fuel))
  }

  function RunElse(els: Else, R: Frames, p: Program, plan: seq<Pick>, fuel: nat): (r: Run)
    ensures |r.plan| <= |plan| && Tys(r.frames) == Tys(R)
    decreases fuel, |plan|, els
  {
    match els
    case NoElse => Still(R, Plain, plan)
    case ElseBlock(b) => RunBlock(b, R, p, plan, fuel)
    case ElseIf(e) => RunExpr(e, R, p, plan, fuel)
  }

  function RunMatch(e: Expr, R: Frames, p: Program, plan: seq<Pick>, fuel: nat): (r: Run)
    requires e.Match?
    ensures |r.plan| <= |plan| && Tys(r.frames) == Tys(R)
    decreases fuel, |plan|, e, 2
  {
    var a := RunExpr(e.scrutinee, R, p, plan, fuel);
    if !a.status.Go? || e.arms == [] then a
    else a.Before(RunArm(e.arms[Next(a.plan).n % |e.arms|], a.frames, p, Next(a.plan).payload, Rest(a.plan), fuel))
  }

  function RunArm(arm: Arm, R: Frames, p: Program, payload: map<string, Value>, plan: seq<Pick>, fuel: nat): (r: Run)
    ensures |r.plan| <= |plan| && Tys(r.frames) == Tys(R)
    decreases fuel, |plan|, arm
  {
    var top := ArmLocals(ArmTys(arm, p.table), payload);
    var b := RunExpr(arm.body, R + [top], p, plan, fuel);
    PopTys(R, top, b.frames);
    b.(frames := b.frames[..|R|], typed := b.typed && AllFit(top))
  }

  lemma PopTys(R: Frames, top: map<string, Local>, after: Frames)
    requires Tys(after) == Tys(R + [top])
    ensures |after| == |R| + 1 && Tys(after[..|R|]) == Tys(R)
  {
    assert |Tys(after)| == |after|;
    forall i | 0 <= i < |R| ensures Tys(after[..|R|])[i] == Tys(R)[i] { assert Tys(after)[i] == Tys(R + [top])[i]; }
  }

  function RunBlock(b: seq<Stmt>, R: Frames, p: Program, plan: seq<Pick>, fuel: nat): (r: Run)
    ensures |r.plan| <= |plan| && Tys(r.frames) == Tys(R)
    decreases fuel, |plan|, b, 1
  {
    var a := RunStmts(b, R + [map[]], p, plan, fuel);
    var r := a.(frames := a.frames[..|R|]);
    assert Tys(r.frames) == Tys(R) by {
      forall i | 0 <= i < |R| ensures Tys(r.frames)[i] == Tys(R)[i] { assert Tys(a.frames)[i] == Tys(R + [map[]])[i]; }
    }
    r
  }

  /** Same types below the top scope. */
  predicate SameBelow(A: Frames, B: Frames) {
    |A| == |B| && forall i {:trigger Tys(A)[i]} {:trigger Tys(B)[i]} :: 0 <= i < |A| - 1 ==> Tys(A)[i] == Tys(B)[i]
  }

  function RunStmts(b: seq<Stmt>, R: Frames, p: Program, plan: seq<Pick>, fuel: nat): (r: Run)
    requires R != []
    ensures |r.plan| <= |plan| && SameBelow(R, r.frames)
    decreases fuel, |plan|, b, 0
  {
    if b == [] then Still(R, Plain, plan)
    else
      var a := RunOne(b[0], R, p, plan, fuel);
      if !a.status.Go? then a else a.Before(RunStmts(b[1..], a.frames, p, a.plan, fuel))
  }

  function RunOne(s: Stmt, R: Frames, p: Program, plan: seq<Pick>, fuel: nat): (r: Run)
    requires R != []
    ensures |r.plan| <= |plan| && SameBelow(R, r.frames) && (r.status.Go? ==> Tys(r.frames) == After(s, Tys(R)))
    decreases fuel, |plan|, s, 1
  {
    match s
    case Let(x, ty, e) =>
      var a := RunExpr(e, R, p, plan, fuel);
      assert |Tys(a.frames)| == |a.frames| == |R|;
      if !a.status.Go? then a
      else
        var F := DefineLocal(a.frames, x, Local(ty, a.status.v));
        assert Tys(F) == After(s, Tys(R)) by { DefineTys(a.frames, x, Local(ty, a.status.v)); }
        a.(frames := F, typed := a.typed && Fits(a.status.v, ty))
    case Return(v) =>
      if v.None? then Run(Ret(Plain), R, {}, true, plan)
      else
        var a := RunExpr(v.value, R, p, plan, fuel);
        assert |Tys(a.frames)| == |a.frames| == |R|;
        if a.status.Go? then a.(status := Ret(a.status.v)) else a
    case While(_, _) => RunLoop(s, R, p, plan, fuel)
    case ExprStmt(e) =>
      var a := RunExpr(e, R, p, plan, fuel);
      assert |Tys(a.frames)| == |a.frames| == |R|;
      a
    case Audited(b) => RunBlock(b, R, p, plan, fuel)
  }

  lemma DefineTys(R: Frames, x: string, l: Local)
    requires R != []
    ensures Tys(DefineLocal(R, x, l)) == DefineTy(Tys(R), x, l.ty)
  {
    var n := |R| - 1;
    assert FrameTys(R[n][x := l]) == FrameTys(R[n])[x := l.ty];
  }

  function RunLoop(s: Stmt, R: Frames, p: Program, plan: seq<Pick>, fuel: nat): (r: Run)
    requires s.While?
    ensures |r.plan| <= |plan| && Tys(r.frames) == Tys(R)
    decreases fuel, |plan|, s, 0
  {
    var a := RunExpr(s.cond, R, p, plan, fuel);
    if !a.status.Go? then a
    else if Next(a.plan).n == 0 then a.Yield(Plain).(plan := Rest(a.plan))
    else
      var b := RunBlock(s.body, a.frames, p, Rest(a.plan), fuel);
      if !b.status.Go? then a.Before(b) else a.Before(b.Before(RunLoop(s, b.frames, p, b.plan, fuel)))
  }
}
