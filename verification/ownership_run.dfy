/** What compiled code does to its bindings: which it moves out of, and which it frees where.

    A run is fixed by a `plan`, the outcomes of the choices it meets in order: which branch or arm,
    whether a short-circuited operand runs, whether a loop goes round again. A plan that is used up
    answers 0. A binding owns something when its type leads to something affine, whatever the checker
    makes of that type. A run faults when it uses an owning binding it moved out of, or frees one
    twice or after moving out of it; frees are looked up by name, innermost scope first, and freeing
    what owns nothing does nothing. `used` says whether the value of what is run is wanted, as it is
    not in a statement. The types in the scopes of a run are those the bindings really have. */
module OwnershipRun {
  import opened Prelude
  import opened Types
  import opened Registry
  import opened Affinity
  import opened Ownership
  import opened OwnershipTypes

  datatype Outcome = Running(frames: Frames) | Returned | Fault

  datatype Step = Step(out: Outcome, plan: seq<nat>) {
    predicate IsFailure() { !out.Running? }
    function PropagateFailure(): Step requires IsFailure() { this }
    function Extract(): (Frames, seq<nat>) requires !IsFailure() { (out.frames, plan) }
  }

  datatype Machine = Machine(w: World, free: FreeMap) {
    function Listed(key: Key): multiset<string> { if key in free then free[key] else multiset{} }
  }

  function Choice(plan: seq<nat>): nat { if plan == [] then 0 else plan[0] }
  function Rest(plan: seq<nat>): (r: seq<nat>)
    ensures |r| <= |plan| && (Choice(plan) != 0 ==> |r| < |plan|)
  {
    if plan == [] then [] else plan[1..]
  }

  ghost predicate Owns(R: Frames, x: string, c: Ctx) {
    match Find(R, x) case None => false case Some(i) => Owning(c, R[i][x].ty) && !R[i][x].moved
  }

  /** It does, or did before it was moved out of. */
  ghost predicate IsOwning(R: Frames, x: string, c: Ctx) {
    match Find(R, x) case None => false case Some(i) => Owning(c, R[i][x].ty)
  }

  /** Every name that owns something is there once, and not moved out of. */
  ghost predicate CanFree(R: Frames, names: multiset<string>, c: Ctx) {
    forall x :: x in names && IsOwning(R, x, c) ==> names[x] == 1 && Owns(R, x, c)
  }

  predicate Follows(R: Frames, r: Step, plan: seq<nat>) {
    |r.plan| <= |plan| && (r.out.Running? ==> Shape(R, r.out.frames))
  }

  /** Using a binding; `consume` moves out of it. */
  ghost function Use(R: Frames, x: string, consume: bool, c: Ctx, plan: seq<nat>): (r: Step)
    ensures Follows(R, r, plan)
  {
    if !IsOwning(R, x, c) then Step(Running(R), plan)
    else if !Owns(R, x, c) then Step(Fault, plan)
    else Step(Running(if consume then SetMoved(R, x, true) else R), plan)
  }

  /** Taking a part out of a binding that owns something by that part. */
  ghost predicate Takes(R: Frames, x: string, part: Part, c: Ctx) {
    match Find(R, x)
    case None => false
    case Some(i) => var t := RealPart(R[i][x].ty, part, c.table); t.Some? && Owning(c, t.value)
  }

  /** The builtins that only use a connection they are given. */
  predicate Borrows(callee: string, i: nat) {
    match callee
    case "db_query" | "db_execute" | "mq_publish" | "mq_consume" => i == 0
    case "send_email" | "send_sms" | "send_push" => i == 0
    case "notify" => i < 2
    case _ => false
  }

  ghost function CloseScope(R: Frames, key: Key, m: Machine, plan: seq<nat>): Step
    requires R != []
  {
    Step(if CanFree(R, m.Listed(key), m.w.c) then Running(R[..|R| - 1]) else Fault, plan)
  }

  /** An assignment whose value is passed on: the binding has given it away again. */
  ghost predicate PassedOn(R: Frames, x: string, consume: bool, used: bool, c: Ctx) {
    consume && used && IsOwning(R, x, c)
  }

  ghost function Run(e: Expr, R: Frames, consume: bool, used: bool, m: Machine, plan: seq<nat>): (r: Step)
    ensures Follows(R, r, plan)
    decreases |plan|, e, 2
  {
    match e
    case Lit => Step(Running(R), plan)
    case Ident(x) => Use(R, x, consume, m.w.c, plan)
    case Logic(l, r) =>
      var (R1, p1) :- Run(l, R, true, true, m, plan);
      if Choice(p1) == 0 then Step(Running(R1), Rest(p1)) else Run(r, R1, true, true, m, Rest(p1))
    case Call(f, args) => RunArgs(f, args, 0, R, m, plan)
    case Read(inner) => Run(inner, R, false, true, m, plan)
    case Project(base, part) =>
      if base.Ident? then Use(R, base.name, Takes(R, base.name, part, m.w.c), m.w.c, plan)
      else Run(base, R, false, true, m, plan)
    case If(_, _, _, _) => RunIf(e, R, used, m, plan)
    case Assign(x, rhs) =>
      var (R1, p1) :- Run(rhs, R, true, true, m, plan);
      Step(Running(SetMoved(R1, x, PassedOn(R1, x, consume, used, m.w.c))), p1)
    case Match(_, _, _) => RunMatch(e, R, used, m, plan)
  }

  ghost function RunArgs(callee: string, args: seq<Expr>, i: nat, R: Frames, m: Machine, plan: seq<nat>): (r: Step)
    ensures Follows(R, r, plan)
    decreases |plan|, args
  {
    if args == [] then Step(Running(R), plan)
    else
      var (R1, p1) :- Run(args[0], R, !Borrows(callee, i), true, m, plan);
      RunArgs(callee, args[1..], i + 1, R1, m, p1)
  }

  ghost function RunIf(e: Expr, R: Frames, used: bool, m: Machine, plan: seq<nat>): (r: Step)
    requires e.If?
    ensures Follows(R, r, plan)
    decreases |plan|, e, 1
  {
    var (R1, p1) :- Run(e.cond, R, true, true, m, plan);
    if Choice(p1) != 0 then RunBlock(AtIf(e.span, true), e.thn, R1, used, m, Rest(p1))
    else RunElse(e.span, e.els, R1, used, m, Rest(p1))
  }

  ghost function RunElse(span: nat, els: Else, R: Frames, used: bool, m: Machine, plan: seq<nat>): (r: Step)
    ensures Follows(R, r, plan)
    decreases |plan|, els
  {
    match els
    case NoElse => Step(Running(R), plan)
    case ElseBlock(b) => RunBlock(AtIf(span, false), b, R, used, m, plan)
    case ElseIf(e) => Run(e, R, true, used, m, plan)
  }

  ghost function RunMatch(e: Expr, R: Frames, used: bool, m: Machine, plan: seq<nat>): (r: Step)
    requires e.Match?
    ensures Follows(R, r, plan)
    decreases |plan|, e, 1
  {
    var (R1, p1) :- Run(e.scrutinee, R, true, true, m, plan);
    if e.arms == [] then Step(Running(R1), p1)
    else
      var k := Choice(p1) % |e.arms|;
      RunArm(e.span, k, e.arms[k], R1, RealTy(e.scrutinee, e.span, R1, m.w), used, m, Rest(p1))
  }

  /** An arm taken by a value of type `ty`. */
  ghost function RunArm(span: nat, index: nat, arm: Arm, R: Frames, ty: Ty, used: bool, m: Machine, plan: seq<nat>): (r: Step)
    ensures Follows(R, r, plan)
    decreases |plan|, arm
  {
    var (R1, p1) :- Run(arm.body, R + [RealScope(arm, ty, m.w.c.table)], true, used, m, plan);
    CloseScope(R1, AtArm(span, index), m, p1)
  }

  ghost function RunBlock(key: Key, b: seq<Stmt>, R: Frames, used: bool, m: Machine, plan: seq<nat>): (r: Step)
    ensures Follows(R, r, plan)
    decreases |plan|, b, 1
  {
    var (R1, p1) :- RunStmts(b, R + [map[]], used, m, plan);
    CloseScope(R1, key, m, p1)
  }

  /** The value of a block is that of its last statement. */
  ghost function RunStmts(b: seq<Stmt>, R: Frames, used: bool, m: Machine, plan: seq<nat>): (r: Step)
    requires R != []
    ensures |r.plan| <= |plan| && (r.out.Running? ==> ShapeBelow(R, r.out.frames))
    decreases |plan|, b, 0
  {
    if b == [] then Step(Running(R), plan)
    else
      var (R1, p1) :- RunOne(b[0], R, used && b[1..] == [], m, plan);
      RunStmts(b[1..], R1, used, m, p1)
  }

  ghost function RunOne(s: Stmt, R: Frames, used: bool, m: Machine, plan: seq<nat>): (r: Step)
    requires R != []
    ensures |r.plan| <= |plan| && (r.out.Running? ==> ShapeBelow(R, r.out.frames))
    decreases |plan|, s, 2
  {
    match s
    case Let(x, ty, e) =>
      var (R1, p1) :- Run(e, R, true, true, m, plan);
      Step(Running(Define(R1, x, ty)), p1)
    case Return(span, v) =>
      var (R1, p1) :- if v.Some? then Run(v.value, R, true, true, m, plan) else Step(Running(R), plan);
      Step(if CanFree(R1, m.Listed(AtReturn(span)), m.w.c) then Returned else Fault, p1)
    case While(_, _, _) => RunLoop(s, R, m, plan)
    case ExprStmt(e) => Run(e, R, true, used, m, plan)
    case Audited(span, body) => RunBlock(AtAudited(span), body, R, false, m, plan)
  }

  /** The condition is evaluated before every iteration. */
  ghost function RunLoop(s: Stmt, R: Frames, m: Machine, plan: seq<nat>): (r: Step)
    requires s.While?
    ensures Follows(R, r, plan)
    decreases |plan|, s, 1
  {
    var (R1, p1) :- Run(s.cond, R, true, true, m, plan);
    if Choice(p1) == 0 then Step(Running(R1), Rest(p1))
    else
      var (R2, p2) :- RunBlock(AtWhileEnd(s.span), s.body, R1, false, m, Rest(p1));
      RunLoop(s, R2, m, p2)
  }

  /** A call of `f`: falling off the end of the body frees what is still owned there. */
  ghost function RunFn(f: FnDecl, m: Machine, plan: seq<nat>): Outcome {
    var r := RunStmts(f.body, [ParamScope(f.params)], false, m, plan);
    if !r.out.Running? then r.out
    else if CanFree(r.out.frames, m.Listed(AtFnEnd(f.name)), m.w.c) then Returned
    else Fault
  }
}
