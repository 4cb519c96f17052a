/** The move checker refuses nothing without cause: on code without branches, loops and blocks, where
    types are judged rightly, it reports an error exactly when the run faults, and otherwise takes to be
    moved exactly what is. */
module OwnershipStraight {
  import opened Prelude
  import opened Types
  import opened Registry
  import opened Ownership
  import opened OwnershipLoops
  import opened OwnershipTypes
  import opened OwnershipRun
  import opened OwnershipSound

  ghost predicate Exact(ty: Ty, c: Ctx) { c.Affine(ty) <==> Owning(c, ty) }

  ghost predicate ExactScopes(S: Frames, c: Ctx) { forall i, x :: 0 <= i < |S| && x in S[i] ==> Exact(S[i][x].ty, c) }

  ghost predicate ExactPart(S: Frames, name: string, part: Part, c: Ctx) {
    match Find(S, name)
    case None => true
    case Some(i) => var t := RealPart(S[i][name].ty, part, c.table); t.Some? ==> Exact(t.value, c)
  }

  /** One way through, parts of types judged rightly, and no value of an assignment passed on. */
  ghost predicate Straight(e: Expr, S: Frames, consume: bool, used: bool, c: Ctx)
    decreases e
  {
    match e
    case Lit => true
    case Ident(_) => true
    case Call(f, args) => StraightArgs(f, args, 0, S, c)
    case Read(inner) => Straight(inner, S, false, true, c)
    case Project(base, part) => if base.Ident? then ExactPart(S, base.name, part, c) else Straight(base, S, false, true, c)
    case Assign(x, rhs) => Straight(rhs, S, true, true, c) && (consume && used ==> Plain(Touch(rhs, S, true, c).frames, x, c))
    case _ => false
  }

  ghost predicate StraightArgs(f: string, args: seq<Expr>, i: nat, S: Frames, c: Ctx)
    decreases args
  {
    args == []
    || (Straight(args[0], S, Consumes(f, i), true, c)
        && StraightArgs(f, args[1..], i + 1, Touch(args[0], S, Consumes(f, i), c).frames, c))
  }

  ghost predicate StraightOne(s: Stmt, S: Frames, c: Ctx) {
    match s
    case Let(_, ty, e) => Straight(e, S, true, true, c) && Exact(ty, c)
    case ExprStmt(e) => Straight(e, S, true, false, c)
    case _ => false
  }

  ghost predicate StraightAll(b: seq<Stmt>, S: Frames, c: Ctx)
    requires S != []
  {
    b == [] || (StraightOne(b[0], S, c) && StraightAll(b[1..], One(b[0], S, c).frames, c))
  }

  /** The run does what the walk says, without a choice. */
  ghost predicate Same(r: Step, t: Out, plan: seq<nat>) { r == Step(if t.bad then Fault else Running(t.frames), plan) }

  lemma ExactShape(S: Frames, S2: Frames, c: Ctx)
    requires Shape(S, S2) && ExactScopes(S, c)
    ensures ExactScopes(S2, c)
  {
    forall i, x | 0 <= i < |S2| && x in S2[i] ensures Exact(S2[i][x].ty, c) { assert SameScope(S[i], S2[i]) && x in S[i]; }
  }

  lemma UseIsTouch(S: Frames, x: string, consume: bool, c: Ctx, plan: seq<nat>)
    requires ExactScopes(S, c)
    ensures Same(Use(S, x, consume, c, plan), TouchIdent(S, x, consume, c), plan)
  {}

  lemma TakesIsExtracts(S: Frames, x: string, part: Part, c: Ctx)
    requires ExactPart(S, x, part, c)
    ensures Takes(S, x, part, c) == ExtractsFrom(S, x, part, c)
  {
    if Find(S, x).Some? { PartIs(S[Find(S, x).value][x].ty, part, c); }
  }

  lemma {:induction false} StraightExpr(e: Expr, S: Frames, consume: bool, used: bool, m: Machine, plan: seq<nat>)
    requires ExactScopes(S, m.w.c) && Straight(e, S, consume, used, m.w.c)
    ensures Same(Run(e, S, consume, used, m, plan), Touch(e, S, consume, m.w.c), plan)
    decreases e
  {
    match e
    case Lit =>
    case Ident(x) => UseIsTouch(S, x, consume, m.w.c, plan);
    case Call(f, args) => StraightOperands(f, args, 0, S, m, plan);
    case Read(inner) => StraightExpr(inner, S, false, true, m, plan);
    case Project(base, part) =>
      if base.Ident? {
        TakesIsExtracts(S, base.name, part, m.w.c);
        UseIsTouch(S, base.name, ExtractsFrom(S, base.name, part, m.w.c), m.w.c, plan);
      } else {
        StraightExpr(base, S, false, true, m, plan);
      }
    case Assign(x, rhs) =>
      StraightExpr(rhs, S, true, true, m, plan);
      var U := Touch(rhs, S, true, m.w.c).frames;
      ExactShape(S, U, m.w.c);
      assert !PassedOn(U, x, consume, used, m.w.c);
  }

  lemma {:induction false} StraightOperands(f: string, args: seq<Expr>, i: nat, S: Frames, m: Machine, plan: seq<nat>)
    requires ExactScopes(S, m.w.c) && StraightArgs(f, args, i, S, m.w.c)
    ensures var r, t := RunArgs(f, args, i, S, m, plan), TouchArgs(f, args, i, S, m.w.c);
            r.plan == plan && r.out == if t.bad then Fault else Running(t.frames)
    decreases args
  {
    if args != [] {
      BorrowsIff(f, i);
      StraightExpr(args[0], S, Consumes(f, i), true, m, plan);
      var U := Touch(args[0], S, Consumes(f, i), m.w.c).frames;
      ExactShape(S, U, m.w.c);
      StraightOperands(f, args[1..], i + 1, U, m, plan);
    }
  }

  /** A statement list goes wrong when it is run exactly when the walk says so. */
  lemma {:induction false} StraightIsExact(b: seq<Stmt>, S: Frames, m: Machine, plan: seq<nat>)
    requires S != [] && ExactScopes(S, m.w.c) && StraightAll(b, S, m.w.c)
    ensures Same(RunStmts(b, S, false, m, plan), Stmts(b, S, m.w.c), plan)
    decreases b
  {
    if b != [] {
      OneIsExact(b[0], S, m, plan);
      var a := One(b[0], S, m.w.c);
      StraightIsExact(b[1..], a.frames, m, plan);
    }
  }

  lemma {:induction false} OneIsExact(s: Stmt, S: Frames, m: Machine, plan: seq<nat>)
    requires S != [] && ExactScopes(S, m.w.c) && StraightOne(s, S, m.w.c)
    ensures Same(RunOne(s, S, false, m, plan), One(s, S, m.w.c), plan) && ExactScopes(One(s, S, m.w.c).frames, m.w.c)
  {
    match s
    case Let(_, _, e) =>
      StraightExpr(e, S, true, true, m, plan);
      ExactShape(S, Touch(e, S, true, m.w.c).frames, m.w.c);
    case ExprStmt(e) =>
      StraightExpr(e, S, true, false, m, plan);
      ExactShape(S, Touch(e, S, true, m.w.c).frames, m.w.c);
  }
}
