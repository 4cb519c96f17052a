/** What acceptance by the move checker is worth, for whole programs, and where it is worth less. */
module OwnershipTheorems {
  import opened Prelude
  import opened Types
  import opened Registry
  import opened Affinity
  import opened Ownership
  import opened OwnershipTypes
  import opened OwnershipRun
  import opened OwnershipSound
  import opened OwnershipChecker

  /** No two functions record frees under the same key. */
  predicate KeysApart(fns: seq<FnDecl>, c: Ctx) {
    forall i, j :: 0 <= i < j < |fns| ==> CheckFn(fns[i], c).free.Keys !! CheckFn(fns[j], c).free.Keys
  }

  lemma {:induction false} PartOfFrees(fns: seq<FnDecl>, n: nat, i: nat, c: Ctx)
    requires i < n <= |fns| && KeysApart(fns, c)
    ensures Within(CheckFn(fns[i], c).free, Frees(fns, n, c))
    decreases n
  {
    var own, last := CheckFn(fns[i], c).free, CheckFn(fns[n - 1], c).free;
    if i < n - 1 {
      PartOfFrees(fns, n - 1, i, c);
      StaysWithin(own, Frees(fns, n - 1, c), last);
    }
  }

  lemma StaysWithin(own: FreeMap, all: FreeMap, more: FreeMap)
    requires Within(own, all) && own.Keys !! more.Keys
    ensures Within(own, all + more)
  {
    forall k | k in own ensures k in all + more && (all + more)[k] == own[k] { assert k !in more.Keys; }
  }

  /** In a program the checker accepts, compiled with the free map it computed, no run of any tame
      function faults. */
  lemma AcceptedProgramIsSafe(fns: seq<FnDecl>, i: nat, w: World, plan: seq<nat>)
    requires i < |fns| && !AnyBad(fns, |fns|, w.c) && KeysApart(fns, w.c) && TameFn(fns[i], w)
    ensures RunFn(fns[i], Machine(w, Frees(fns, |fns|, w.c)), plan).Returned?
  {
    PartOfFrees(fns, |fns|, i, w.c);
    AcceptedIsSafe(fns[i], Machine(w, Frees(fns, |fns|, w.c)), plan);
  }

  // ---------------------------------------------------------------- why the hypotheses are needed

  const BARE := Ctx(Table(map[], map[], map[]), map[])
  const CELL := Box(I64)
  const B := Ident("b")
  const TAKE := ExprStmt(Call("take", [B]))
  const REFILL := Assign("b", Call("box", [Lit]))

  function OneBox(moved: bool): Frames { [map["b" := Slot(CELL, moved)]] }

  lemma Cells()
    ensures BARE.Affine(CELL) && Owning(BARE, CELL) && !BARE.Affine(I64) && !Owning(BARE, I64)
  {
    AffineIffChain(BARE.table, {}, CELL);
    AffineIffChain(BARE.table, {}, I64);
  }

  lemma Flip(moved: bool, to: bool)
    ensures SetMoved(OneBox(moved), "b", to) == OneBox(to) && Find(OneBox(moved), "b") == Some(0)
  {
    var S := OneBox(moved);
    assert Find(S, "b") == Some(0);
    assert S[0]["b" := Slot(CELL, to)] == map["b" := Slot(CELL, to)];
  }

  /** A call of one operand does what the operand does. */
  lemma CallOfOne(f: string, a: Expr, S: Frames, consume: bool, c: Ctx)
    ensures Touch(Call(f, [a]), S, consume, c) == Touch(a, S, Consumes(f, 0), c)
  {
    var args, none: seq<Expr> := [a], [];
    var t := Touch(a, S, Consumes(f, 0), c);
    assert args[0] == a && args[1..] == none && t.free + map[] == t.free;
    assert TouchArgs(f, none, 1, t.frames, c) == Skip(t.frames);
    assert TouchArgs(f, args, 0, S, c) == t;
  }

  lemma RunCallOfOne(f: string, a: Expr, R: Frames, consume: bool, used: bool, m: Machine, plan: seq<nat>)
    ensures Run(Call(f, [a]), R, consume, used, m, plan) == Run(a, R, Consumes(f, 0), true, m, plan)
  {
    var args, none: seq<Expr> := [a], [];
    var r := Run(a, R, Consumes(f, 0), true, m, plan);
    assert args[0] == a && args[1..] == none;
    if r.out.Running? { assert RunArgs(f, none, 1, r.out.frames, m, r.plan) == r; }
    assert RunArgs(f, args, 0, R, m, plan) == r;
  }

  lemma OneStmt(s: Stmt, S: Frames, c: Ctx)
    requires S != [] && One(s, S, c).frames != []
    ensures Stmts([s], S, c) == One(s, S, c)
  {
    var b, none: seq<Stmt>, t := [s], [], One(s, S, c);
    assert b[0] == s && b[1..] == none && t.free + map[] == t.free;
    assert Stmts(none, t.frames, c) == Skip(t.frames);
  }

  lemma TwoStmts(s: Stmt, u: Stmt, S: Frames, c: Ctx)
    requires S != [] && One(s, S, c).frames != [] && One(u, One(s, S, c).frames, c).frames != []
    ensures var a := One(s, S, c); Stmts([s, u], S, c) == a.Then(One(u, a.frames, c))
  {
    var b := [s, u];
    assert b[0] == s && b[1..] == [u];
    OneStmt(u, One(s, S, c).frames, c);
  }

  lemma RunOneStmt(s: Stmt, R: Frames, used: bool, m: Machine, plan: seq<nat>)
    requires R != []
    ensures RunStmts([s], R, used, m, plan) == RunOne(s, R, used, m, plan)
  {
    var b, none: seq<Stmt> := [s], [];
    var r := RunOne(s, R, used, m, plan);
    assert b[0] == s && b[1..] == none;
    if r.out.Running? { assert RunStmts(none, r.out.frames, used, m, r.plan) == r; }
  }

  lemma RunTwoStmts(s: Stmt, u: Stmt, R: Frames, used: bool, m: Machine, plan: seq<nat>)
    requires R != []
    ensures var r := RunOne(s, R, false, m, plan);
            RunStmts([s, u], R, used, m, plan) == if r.out.Running? then RunOne(u, r.out.frames, used, m, r.plan) else r
  {
    var b, r := [s, u], RunOne(s, R, false, m, plan);
    assert b[0] == s && b[1..] == [u];
    if r.out.Running? { RunOneStmt(u, r.out.frames, used, m, r.plan); }
  }

  /** `take(b)` on a function's only binding. */
  lemma Take(moved: bool)
    ensures One(TAKE, OneBox(moved), BARE) == Out(OneBox(true), moved, map[])
    ensures forall m: Machine, plan: seq<nat> :: m.w.c == BARE ==>
              RunOne(TAKE, OneBox(moved), false, m, plan) == Step(if moved then Fault else Running(OneBox(true)), plan)
  {
    TakeWalk(moved);
    forall m: Machine, plan: seq<nat> | m.w.c == BARE
      ensures RunOne(TAKE, OneBox(moved), false, m, plan) == Step(if moved then Fault else Running(OneBox(true)), plan)
    {
      TakeRun(moved, m, plan);
    }
  }

  lemma TakeWalk(moved: bool)
    ensures One(TAKE, OneBox(moved), BARE) == Out(OneBox(true), moved, map[])
  {
    var S := OneBox(moved);
    Flip(moved, true);
    assert Ownership.TouchIdent(S, "b", true, BARE) == Out(OneBox(true), moved, map[]);
    CallOfOne("take", B, S, true, BARE);
  }

  lemma TakeRun(moved: bool, m: Machine, plan: seq<nat>)
    requires m.w.c == BARE
    ensures RunOne(TAKE, OneBox(moved), false, m, plan) == Step(if moved then Fault else Running(OneBox(true)), plan)
  {
    var S := OneBox(moved);
    Cells();
    Flip(moved, true);
    assert Run(B, S, true, true, m, plan) == Step(if moved then Fault else Running(OneBox(true)), plan);
    RunCallOfOne("take", B, S, true, false, m, plan);
  }

  /** `b = box 1` on a function's only binding. */
  lemma Refill(moved: bool, consume: bool)
    ensures Touch(REFILL, OneBox(moved), consume, BARE) == Skip(OneBox(false))
  {
    Flip(moved, false);
    CallOfOne("box", Lit, OneBox(moved), true, BARE);
  }

  /** `take(b = box 1)`: what `b` is given goes straight on to `take`. */
  lemma RefillPassedOn(m: Machine, plan: seq<nat>)
    requires m.w.c == BARE
    ensures RunOne(ExprStmt(Call("take", [REFILL])), OneBox(false), false, m, plan) == Step(Running(OneBox(true)), plan)
  {
    var S := OneBox(false);
    Cells();
    Flip(false, true);
    RunCallOfOne("box", Lit, S, true, true, m, plan);
    assert Run(REFILL, S, true, true, m, plan) == Step(Running(OneBox(true)), plan);
    RunCallOfOne("take", REFILL, S, true, false, m, plan);
  }

  /** The walk takes an assigned binding to own its new value even when that value is used:
      `take(b = box 1)  take(b)` is accepted, and takes one box twice. */
  lemma AssignedValueIsShared(m: Machine)
    requires m.w.c == BARE
    ensures var f := FnDecl("f", [Param("b", CELL)], Unit, [ExprStmt(Call("take", [REFILL])), TAKE]);
            !CheckFn(f, BARE).bad && RunFn(f, m, []).Fault?
  {
    var first := ExprStmt(Call("take", [REFILL]));
    var S := OneBox(false);
    assert [Param("b", CELL)][..0] == [] && ParamScope([Param("b", CELL)]) == map["b" := Slot(CELL, false)];
    Take(false);
    Take(true);
    Refill(false, true);
    CallOfOne("take", REFILL, S, true, BARE);
    TwoStmts(first, TAKE, S, BARE);
    RefillPassedOn(m, []);
    RunTwoStmts(first, TAKE, S, false, m, []);
  }

  const RENEWED := Call(">", [Project(REFILL, Content), Lit])

  lemma RenewedWalk()
    ensures Touch(RENEWED, OneBox(true), true, BARE) == Skip(OneBox(false))
  {
    var S := OneBox(false);
    Refill(true, false);
    assert RENEWED.args[1..] == [Lit] && [Lit][1..] == [];
    assert TouchArgs(">", [Lit], 1, S, BARE) == Skip(S);
    assert Touch(Project(REFILL, Content), OneBox(true), true, BARE) == Skip(S);
    assert TouchArgs(">", RENEWED.args, 0, OneBox(true), BARE) == Skip(S);
  }

  /** An operand of `&&` that gives `b` a new value is taken to have run:
      `take(b)  ok && *(b = box 1) > 0  take(b)` is accepted, and uses `b` after moving it. */
  lemma ShortCircuitedRefill(m: Machine)
    requires m.w.c == BARE
    ensures var f := FnDecl("f", [Param("b", CELL)], Unit, [TAKE, ExprStmt(Logic(Lit, RENEWED)), TAKE]);
            !CheckFn(f, BARE).bad && RunFn(f, m, [0]).Fault?
  {
    var mid := ExprStmt(Logic(Lit, RENEWED));
    var body := [TAKE, mid, TAKE];
    var S := OneBox(false);
    assert [Param("b", CELL)][..0] == [] && ParamScope([Param("b", CELL)]) == map["b" := Slot(CELL, false)];
    Take(false);
    Take(true);
    RenewedWalk();
    assert Touch(Logic(Lit, RENEWED), OneBox(true), true, BARE) == Skip(OneBox(true)).Then(Skip(S)) == Skip(S);
    assert One(mid, OneBox(true), BARE) == Skip(S);
    assert body[1..] == [mid, TAKE] && [mid, TAKE][1..] == [TAKE] && [TAKE][1..] == [];
    assert Stmts([TAKE], S, BARE) == Out(OneBox(true), false, map[]);
    assert Stmts([mid, TAKE], OneBox(true), BARE) == Out(OneBox(true), false, map[]);
    assert Stmts(body, S, BARE) == Out(OneBox(true), false, map[]);
    assert Rest([0]) == [] && Run(Lit, OneBox(true), true, true, m, [0]) == Step(Running(OneBox(true)), [0]);
    assert Run(Logic(Lit, RENEWED), OneBox(true), true, false, m, [0]) == Step(Running(OneBox(true)), []);
    assert RunOne(mid, OneBox(true), false, m, [0]) == Step(Running(OneBox(true)), []);
    assert RunStmts([TAKE], OneBox(true), false, m, []).out == Fault;
    assert RunStmts([mid, TAKE], OneBox(true), false, m, [0]).out == Fault;
    assert RunStmts(body, S, false, m, [0]).out == Fault;
  }

  const COND := Call(">", [Project(B, Content), Lit])
  const DRAIN := While(0, COND, [ExprStmt(REFILL), TAKE])

  lemma Cond(moved: bool, m: Machine, plan: seq<nat>)
    requires m.w.c == BARE
    ensures Touch(COND, OneBox(false), true, BARE) == Skip(OneBox(false))
    ensures Run(COND, OneBox(moved), true, true, m, plan) == Step(if moved then Fault else Running(OneBox(false)), plan)
  {
    var read, S := Project(B, Content), OneBox(false);
    Cells();
    assert Find(S, "b") == Some(0) && Find(OneBox(true), "b") == Some(0);
    assert COND.args[1..] == [Lit] && [Lit][1..] == [];
    assert Touch(read, S, true, BARE) == Skip(S);
    assert TouchArgs(">", [Lit], 1, S, BARE) == Skip(S);
    assert TouchArgs(">", COND.args, 0, S, BARE) == Skip(S);
    if moved {
      assert Run(read, OneBox(true), true, true, m, plan) == Step(Fault, plan);
      assert RunArgs(">", COND.args, 0, OneBox(true), m, plan) == Step(Fault, plan);
    } else {
      assert Run(read, S, true, true, m, plan) == Step(Running(S), plan);
      assert RunArgs(">", [Lit], 1, S, m, plan) == Step(Running(S), plan);
      assert RunArgs(">", COND.args, 0, S, m, plan) == Step(Running(S), plan);
    }
  }

  lemma DrainBody(moved: bool, m: Machine)
    requires m.w.c == BARE
    ensures Stmts(DRAIN.body, OneBox(moved) + [map[]], BARE) == Out(OneBox(true) + [map[]], false, map[])
    ensures RunStmts(DRAIN.body, OneBox(moved) + [map[]], false, m, []) == Step(Running(OneBox(true) + [map[]]), [])
  {
    InnerRefill(moved, m);
    InnerTake(m);
    var S: Frames := OneBox(moved) + [map[]];
    TwoStmts(ExprStmt(REFILL), TAKE, S, BARE);
    RunTwoStmts(ExprStmt(REFILL), TAKE, S, false, m, []);
  }

  lemma InnerRefill(moved: bool, m: Machine)
    requires m.w.c == BARE
    ensures Touch(REFILL, OneBox(moved) + [map[]], true, BARE) == Skip(OneBox(false) + [map[]])
    ensures Run(REFILL, OneBox(moved) + [map[]], true, false, m, []) == Step(Running(OneBox(false) + [map[]]), [])
  {
    InnerRefillWalk(moved);
    Inner(moved, false);
    RunCallOfOne("box", Lit, OneBox(moved) + [map[]], true, true, m, []);
  }

  /** Setting `b`'s flag from an inner, empty scope. */
  lemma Inner(moved: bool, to: bool)
    ensures SetMoved(OneBox(moved) + [map[]], "b", to) == OneBox(to) + [map[]]
    ensures Find(OneBox(moved) + [map[]], "b") == Some(0)
  {
    var S: Frames := OneBox(moved) + [map[]];
    Flip(moved, to);
    assert S[..1] == OneBox(moved);
    assert Find(S, "b") == Some(0);
    assert S[0]["b" := Slot(CELL, to)] == map["b" := Slot(CELL, to)];
  }

  lemma InnerRefillWalk(moved: bool)
    ensures Touch(REFILL, OneBox(moved) + [map[]], true, BARE) == Skip(OneBox(false) + [map[]])
  {
    Inner(moved, false);
    CallOfOne("box", Lit, OneBox(moved) + [map[]], true, BARE);
  }

  lemma InnerTakeWalk()
    ensures One(TAKE, OneBox(false) + [map[]], BARE) == Out(OneBox(true) + [map[]], false, map[])
  {
    InnerIdent();
    CallOfOne("take", B, OneBox(false) + [map[]], true, BARE);
  }

  lemma InnerIdent()
    ensures Touch(B, OneBox(false) + [map[]], true, BARE) == Skip(OneBox(true) + [map[]])
  {
    Inner(false, true);
    var S: Frames := OneBox(false) + [map[]];
    assert S[0]["b"] == Slot(CELL, false) && BARE.Affine(CELL);
  }

  lemma InnerTake(m: Machine)
    requires m.w.c == BARE
    ensures One(TAKE, OneBox(false) + [map[]], BARE) == Out(OneBox(true) + [map[]], false, map[])
    ensures RunOne(TAKE, OneBox(false) + [map[]], false, m, []) == Step(Running(OneBox(true) + [map[]]), [])
  {
    InnerTakeWalk();
    Inner(false, true);
    Cells();
    var S: Frames, S2: Frames := OneBox(false) + [map[]], OneBox(true) + [map[]];
    assert Run(B, S, true, true, m, []) == Step(Running(S2), []);
    RunCallOfOne("take", B, S, true, false, m, []);
  }

  lemma DrainBlock(moved: bool, m: Machine)
    requires m.w.c == BARE && m.Listed(AtWhileEnd(0)) == multiset{}
    ensures Block(AtWhileEnd(0), DRAIN.body, OneBox(moved), BARE) == Out(OneBox(true), false, map[AtWhileEnd(0) := multiset{}])
    ensures RunBlock(AtWhileEnd(0), DRAIN.body, OneBox(moved), false, m, []) == Step(Running(OneBox(true)), [])
  {
    DrainBody(moved, m);
    var top: Scope := map[];
    var S := OneBox(true) + [top];
    assert S[..1] == OneBox(true) && StillOwned(BARE, top) == multiset{};
  }

  lemma MergeBoxes()
    ensures Merge(OneBox(false), OneBox(true)) == OneBox(true)
  {
    var a, b := OneBox(false), OneBox(true);
    assert a[1..] == [] && b[1..] == [];
    assert MergeScope(a[0], b[0]) == b[0];
  }

  /** The walk of the loop accepts it and records nothing to free at the end of its body. */
  lemma DrainIsAccepted()
    ensures Stmts([DRAIN], OneBox(false), BARE) == Out(OneBox(true), false, map[AtWhileEnd(0) := multiset{}])
  {
    var S, key, probe := OneBox(false), AtWhileEnd(0), Machine(World(BARE, map[]), map[]);
    Cond(false, probe, []);
    DrainBlock(false, probe);
    DrainBlock(true, probe);
    MergeBoxes();
    assert Entry(DRAIN, S, BARE) == OneBox(true);
    assert Loop(DRAIN, S, BARE) == Out(OneBox(true), false, map[key := multiset{}]);
    assert One(DRAIN, S, BARE) == Out(OneBox(true), false, map[key := multiset{}]);
    assert [DRAIN][1..] == [];
  }

  lemma DrainFaults(m: Machine)
    requires m.w.c == BARE && m.Listed(AtWhileEnd(0)) == multiset{}
    ensures RunStmts([DRAIN], OneBox(false), false, m, [1]).out == Fault
  {
    var S := OneBox(false);
    Cond(false, m, [1]);
    Cond(true, m, []);
    DrainBlock(false, m);
    assert Rest([1]) == [];
    assert RunLoop(DRAIN, OneBox(true), m, []) == Step(Fault, []);
    assert RunLoop(DRAIN, S, m, [1]) == Step(Fault, []);
  }

  /** A loop condition is walked once but runs before every iteration:
      `while *b > 0 { b = box 1  take(b) }` is accepted, and reads `b` after moving it. */
  lemma ConditionReadsMoved()
    ensures var f := FnDecl("f", [Param("b", CELL)], Unit, [DRAIN]);
            !CheckFn(f, BARE).bad && RunFn(f, Machine(World(BARE, map[]), CheckFn(f, BARE).free), [1]).Fault?
  {
    var f := FnDecl("f", [Param("b", CELL)], Unit, [DRAIN]);
    assert [Param("b", CELL)][..0] == [] && ParamScope(f.params) == map["b" := Slot(CELL, false)];
    DrainIsAccepted();
    DrainFaults(Machine(World(BARE, map[]), CheckFn(f, BARE).free));
  }

  const HIDE := [Let("b", CELL, Call("box", [Lit])), Return(1, None)]

  /** The two scopes at the `return`: the outer box and the one that hides it. */
  const TWO: Frames := [map["b" := Slot(CELL, false)], map["b" := Slot(CELL, false)]]

  lemma TwoListed()
    ensures AllStillOwned(BARE, TWO)["b"] == 2 && IsOwning(TWO, "b", BARE)
  {
    Cells();
    var one := StillOwned(BARE, TWO[0]);
    assert (set x | x in TWO[0] && BARE.Affine(TWO[0][x].ty) && !TWO[0][x].moved) == {"b"};
    assert one == multiset{"b"} && StillOwned(BARE, TWO[1]) == one;
    assert TWO[..1] == OneBox(false) && OneBox(false)[..0] == [] && AllStillOwned(BARE, []) == multiset{};
    assert AllStillOwned(BARE, OneBox(false)) == one;
    assert Find(TWO, "b") == Some(1);
  }

  lemma HiddenLet()
    ensures One(HIDE[0], OneBox(false) + [map[]], BARE) == Skip(TWO)
  {
    var S: Frames := OneBox(false) + [map[]];
    assert Define(S, "b", CELL) == TWO;
    CallOfOne("box", Lit, S, true, BARE);
  }

  lemma HideIsAccepted()
    ensures var t := Stmts([Audited(0, HIDE)], OneBox(false), BARE);
            !t.bad && t.frames == OneBox(false) && AtReturn(1) in t.free && t.free[AtReturn(1)] == AllStillOwned(BARE, TWO)
  {
    HideWalk();
    OneStmt(Audited(0, HIDE), OneBox(false), BARE);
    assert TWO[..1] == OneBox(false);
  }

  lemma HideWalk()
    ensures Stmts(HIDE, OneBox(false) + [map[]], BARE) == Out(TWO, false, map[AtReturn(1) := AllStillOwned(BARE, TWO)])
  {
    var inner := Out(TWO, false, map[AtReturn(1) := AllStillOwned(BARE, TWO)]);
    HiddenLet();
    assert One(HIDE[1], TWO, BARE) == inner;
    TwoStmts(HIDE[0], HIDE[1], OneBox(false) + [map[]], BARE);
    assert HIDE == [HIDE[0], HIDE[1]] && Skip(TWO).Then(inner) == inner;
  }

  lemma HideFaults(m: Machine)
    requires m.w.c == BARE && m.Listed(AtReturn(1)) == AllStillOwned(BARE, TWO)
    ensures RunStmts([Audited(0, HIDE)], OneBox(false), false, m, []).out == Fault
  {
    var S, top: Scope := OneBox(false), map[];
    TwoListed();
    var T := S + [top];
    assert Define(T, "b", CELL) == TWO;
    RunCallOfOne("box", Lit, T, true, true, m, []);
    assert RunOne(HIDE[0], T, false, m, []) == Step(Running(TWO), []);
    assert !CanFree(TWO, m.Listed(AtReturn(1)), BARE);
    assert RunOne(HIDE[1], TWO, false, m, []) == Step(Fault, []);
    RunTwoStmts(HIDE[0], HIDE[1], T, false, m, []);
    assert HIDE == [HIDE[0], HIDE[1]] && RunStmts(HIDE, T, false, m, []) == Step(Fault, []);
    RunOneStmt(Audited(0, HIDE), S, false, m, []);
  }

  /** A `return` lists bare names: `audited { let b: box i64 = box 1  return }` under a parameter
      `b: box i64` lists `b` twice, and both times it is the inner box that is freed. */
  lemma HiddenBindingIsFreed()
    ensures var f := FnDecl("f", [Param("b", CELL)], Unit, [Audited(0, HIDE)]);
            !CheckFn(f, BARE).bad && RunFn(f, Machine(World(BARE, map[]), CheckFn(f, BARE).free), []).Fault?
  {
    var f := FnDecl("f", [Param("b", CELL)], Unit, [Audited(0, HIDE)]);
    assert [Param("b", CELL)][..0] == [] && ParamScope(f.params) == map["b" := Slot(CELL, false)];
    HideIsAccepted();
    HideFaults(Machine(World(BARE, map[]), CheckFn(f, BARE).free));
  }

  // ---------------------------------------------------------------- a type judged wrongly

  const NESTED := OptionOf(OptionOf(CELL))
  const GENERIC := Ctx(PRELUDE, map[])

  function OneNested(moved: bool): Frames { [map["o" := Slot(NESTED, moved)]] }

  lemma NestedFlip()
    ensures !GENERIC.Affine(NESTED) && Owning(GENERIC, NESTED)
    ensures Find(OneNested(false), "o") == Some(0) && Find(OneNested(true), "o") == Some(0)
    ensures SetMoved(OneNested(false), "o", true) == OneNested(true)
  {
    NestedGenericsAreMissed();
    FlipOne(NESTED);
  }

  lemma FlipOne(ty: Ty)
    ensures var S, S2: Frames := [map["o" := Slot(ty, false)]], [map["o" := Slot(ty, true)]];
            Find(S, "o") == Some(0) && Find(S2, "o") == Some(0) && SetMoved(S, "o", true) == S2
  {
    var S: Frames := [map["o" := Slot(ty, false)]];
    assert S[0]["o" := Slot(ty, true)] == map["o" := Slot(ty, true)];
  }

  lemma MergeSame(S: Frames)
    ensures Merge(S, S) == S
  {
    forall i | 0 <= i < |S| ensures MergeScope(S[i], S[i]) == S[i] {}
  }

  predicate Idle(arms: seq<Arm>) { forall i :: 0 <= i < |arms| ==> arms[i].body == Lit }

  /** Arms that do nothing move nothing. */
  lemma IdleArms(span: nat, arms: seq<Arm>, S: Frames, args: Option<seq<Ty>>, c: Ctx)
    requires Idle(arms)
    ensures var t := TouchArms(span, arms, S, args, c); !t.bad && t.frames == S
  {
    var outs := ArmOuts(span, arms, S, args, c);
    forall k | 0 <= k < |arms| ensures !outs[k].bad && outs[k].frames == S { IdleArm(span, k, arms[k], S, args, c); }
    IdleJoin(S, outs, |outs|);
  }

  lemma {:induction false} IdleJoin(S: Frames, outs: seq<Out>, n: nat)
    requires n <= |outs| && forall k :: 0 <= k < n ==> !outs[k].bad && outs[k].frames == S
    ensures !Join(S, outs, n).bad && Join(S, outs, n).frames == S
  {
    if n > 1 { IdleJoin(S, outs, n - 1); MergeSame(S); }
  }

  lemma IdleArm(span: nat, index: nat, arm: Arm, S: Frames, args: Option<seq<Ty>>, c: Ctx)
    requires arm.body == Lit
    ensures var t := TouchArm(span, index, arm, S, args, c); !t.bad && t.frames == S
  {
    var top := ArmScope(arm, args, c);
    assert (S + [top])[..|S|] == S;
  }

  /** Looking into a binding the checker takes to own nothing. */
  lemma LookIsAccepted(span: nat, x: string, arms: seq<Arm>, S: Frames, c: Ctx)
    requires S != [] && Idle(arms) && TouchIdent(S, x, true, c) == Skip(S)
    ensures var t := One(ExprStmt(Match(span, Ident(x), arms)), S, c); !t.bad && t.frames == S
  {
    var e := Match(span, Ident(x), arms);
    var args := ConcreteArgs(e.scrutinee, S, c);
    IdleArms(span, arms, S, args, c);
    assert Touch(e.scrutinee, S, true, c) == Skip(S);
    assert TouchMatch(e, S, c) == Skip(S).Then(TouchArms(span, arms, S, args, c));
  }

  /** Looking into a binding that owns something moves out of it, or faults. */
  lemma LookMoves(span: nat, x: string, arms: seq<Arm>, R: Frames, m: Machine, plan: seq<nat>)
    requires R != [] && Idle(arms) && arms != [] && IsOwning(R, x, m.w.c)
    ensures var r := RunOne(ExprStmt(Match(span, Ident(x), arms)), R, false, m, plan);
            r.out == Fault || (Owns(R, x, m.w.c) && r.out == Running(SetMoved(R, x, true)))
  {
    var e := Match(span, Ident(x), arms);
    if Owns(R, x, m.w.c) {
      var S := SetMoved(R, x, true);
      assert Run(e.scrutinee, R, true, true, m, plan) == Step(Running(S), plan);
      var k, ty := Choice(plan) % |arms|, RealTy(e.scrutinee, span, S, m.w);
      var top := RealScope(arms[k], ty, m.w.c.table);
      assert (S + [top])[..|S|] == S;
      assert RunArm(span, k, arms[k], S, ty, false, m, Rest(plan)) == CloseScope(S + [top], AtArm(span, k), m, Rest(plan));
      assert RunMatch(e, R, false, m, plan) == RunArm(span, k, arms[k], S, ty, false, m, Rest(plan));
    } else {
      assert Run(e.scrutinee, R, true, true, m, plan) == Step(Fault, plan);
      assert RunMatch(e, R, false, m, plan) == Step(Fault, plan);
    }
    assert RunOne(ExprStmt(e), R, false, m, plan) == RunMatch(e, R, false, m, plan);
  }

  const ARMS := [Arm("Some", ["a"], Lit), Arm("None", [], Lit)]

  function Look(span: nat): Stmt { ExprStmt(Match(span, Ident("o"), ARMS)) }

  lemma LooksAreAccepted()
    ensures !Stmts([Look(1), Look(2)], OneNested(false), GENERIC).bad
  {
    var S := OneNested(false);
    NestedFlip();
    LookIsAccepted(1, "o", ARMS, S, GENERIC);
    LookIsAccepted(2, "o", ARMS, S, GENERIC);
    TwoStmts(Look(1), Look(2), S, GENERIC);
  }

  lemma LooksFault(m: Machine, plan: seq<nat>)
    requires m.w.c == GENERIC
    ensures RunStmts([Look(1), Look(2)], OneNested(false), false, m, plan).out == Fault
  {
    var S := OneNested(false);
    NestedFlip();
    LookMoves(1, "o", ARMS, S, m, plan);
    LookMoves(2, "o", ARMS, OneNested(true), m, RunOne(Look(1), S, false, m, plan).plan);
    RunTwoStmts(Look(1), Look(2), S, false, m, plan);
  }

  /** `Option(Option(box i64))` is judged not affine, so looking into it twice is accepted; each time,
      the box inside goes to the arm. */
  lemma NestedGenericIsTakenTwice(m: Machine, plan: seq<nat>)
    requires m.w.c == GENERIC
    ensures var f := FnDecl("f", [Param("o", NESTED)], Unit, [Look(1), Look(2)]);
            !CheckFn(f, GENERIC).bad && RunFn(f, m, plan).Fault?
  {
    var f := FnDecl("f", [Param("o", NESTED)], Unit, [Look(1), Look(2)]);
    assert f.params[..0] == [] && ParamScope(f.params) == map["o" := Slot(NESTED, false)];
    LooksAreAccepted();
    LooksFault(m, plan);
  }
}
