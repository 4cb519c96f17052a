/** What the move checker makes of the bindings of a `match`: when it tracks them rightly, and what its
    stand-in for unknown type arguments hides. */
module OwnershipArms {
  import opened Prelude
  import opened Types
  import opened Registry
  import opened Affinity
  import opened Ownership
  import opened OwnershipTypes
  import opened OwnershipRun
  import opened OwnershipSound
  import opened OwnershipTheorems

  /** A name has its real type in scope. */
  ghost predicate SeenAsIs(e: Expr, S: Frames, T: Frames) {
    e.Ident? ==>
      Find(S, e.name).Some? && Find(T, e.name) == Find(S, e.name)
      && var i := Find(S, e.name).value; S[i][e.name].ty == T[i][e.name].ty
  }

  /** A well-typed match on anything at all, a name being seen as it is: every binding of every arm whose
      real type leads to something affine is tracked as affine, as far as `is_affine` judges the types in
      the arm's scope rightly; and where the type arguments can be told, what is in scope is the real type. */
  lemma MatchIsTracked(e: Expr, k: nat, S: Frames, T: Frames, w: World)
    requires e.Match? && k < |e.arms| && SeenAsIs(e.scrutinee, S, T)
    requires Fitting(e.arms[k], RealTy(e.scrutinee, e.span, T, w), w.c.table)
    requires var top := ArmScope(e.arms[k], ConcreteArgs(e.scrutinee, S, w.c), w.c); forall x :: x in top ==> Tracked(top[x].ty, w.c)
    ensures var top := ArmScope(e.arms[k], ConcreteArgs(e.scrutinee, S, w.c), w.c);
            var actual := RealScope(e.arms[k], RealTy(e.scrutinee, e.span, T, w), w.c.table);
            Covers(top, actual, w.c) && (Telling(e.scrutinee, w.c) ==> top == actual)
  {
    var ty, args := RealTy(e.scrutinee, e.span, T, w), ConcreteArgs(e.scrutinee, S, w.c);
    ArgumentsTold(e.scrutinee, e.span, S, T, w);
    ArmsAreTracked(e.arms[k], ty, args, w.c);
    if Telling(e.scrutinee, w.c) { KnownArms(e.arms[k], ty, w.c); }
  }

  // ---------------------------------------------------------------- a matched box is owned

  const RESULT := EnumDecl(None, "Result", ["T", "E"], [Variant("Ok", [Named("T", [])]), Variant("Err", [Named("E", [])])])
  const RESULTS := Table(map[], map["Result" := RESULT], map["Ok" := ("Result", RESULT.variants[0]), "Err" := ("Result", RESULT.variants[1])])
  const MAKES := Ctx(RESULTS, map["make" := Named("Result", [CELL, Str])])
  const TWICE := Call("both", [B, B])
  const OK_TWICE := Arm("Ok", ["b"], TWICE)
  const MAKE_MATCH := Match(1, Call("make", []), [OK_TWICE, Arm("Err", ["e"], Lit)])

  lemma OkPayload()
    ensures SubstituteAll([Named("T", [])], ZipTypeParams(["T", "E"], [CELL, Str])) == [CELL]
  {
    var params, args: seq<Ty> := ["T", "E"], [CELL, Str];
    assert params[1..] == ["E"] && args[1..] == [Str] && ["E"][1..] == [] && [Str][1..] == [];
    assert ZipTypeParams(["E"], [Str]) == map["E" := Str];
  }

  lemma BindOne(x: string, ty: Ty)
    ensures BindAll([x], [ty]) == map[x := Slot(ty, false)]
  {
    assert [x][..0] == [] && [ty][..0] == [];
  }

  lemma OkBinds()
    ensures ArmScope(OK_TWICE, Some([CELL, Str]), MAKES) == map["b" := Slot(CELL, false)]
  {
    assert LastSep("Ok").None?;
    OkPayload();
    BindOne("b", CELL);
  }

  /** A call of two operands. */
  lemma CallOfTwo(f: string, a: Expr, b: Expr, S: Frames, c: Ctx)
    ensures var x := Touch(a, S, Consumes(f, 0), c); var y := Touch(b, x.frames, Consumes(f, 1), c);
            Touch(Call(f, [a, b]), S, true, c).bad == (x.bad || y.bad)
  {
    var args, last, none: seq<Expr> := [a, b], [b], [];
    var x := Touch(a, S, Consumes(f, 0), c);
    var y := Touch(b, x.frames, Consumes(f, 1), c);
    assert args[1..] == last && last[1..] == none;
    assert TouchArgs(f, none, 2, y.frames, c) == Skip(y.frames);
    assert TouchArgs(f, last, 1, x.frames, c).bad == y.bad;
    assert TouchArgs(f, args, 0, S, c).bad == (x.bad || y.bad);
  }

  /** Two operands that both move `b`. */
  lemma TwiceIsBad(S: Frames, i: nat, ty: Ty, c: Ctx)
    requires Find(S, "b") == Some(i) && S[i]["b"] == Slot(ty, false) && c.Affine(ty)
    ensures Touch(TWICE, S, true, c).bad
  {
    var S1 := SetMoved(S, "b", true);
    OwnershipLoops.SameFind(S, S1, "b");
    CallOfTwo("both", B, B, S, c);
  }

  /** An error in one arm is an error of the match. */
  lemma BadArm(span: nat, arms: seq<Arm>, k: nat, S: Frames, args: Option<seq<Ty>>, c: Ctx)
    requires k < |arms| && TouchArm(span, k, arms[k], S, args, c).bad
    ensures TouchArms(span, arms, S, args, c).bad
  {
    var outs := ArmOuts(span, arms, S, args, c);
    if !Join(S, outs, |outs|).bad { JoinBad(S, outs, |outs|, k); }
  }

  lemma BadMatch(e: Expr, S: Frames, args: Option<seq<Ty>>, c: Ctx)
    requires e.Match? && e.arms != [] && Touch(e.scrutinee, S, true, c).frames == S && ConcreteArgs(e.scrutinee, S, c) == args
    requires TouchArm(e.span, 0, e.arms[0], S, args, c).bad
    ensures Touch(e, S, true, c).bad
  {
    BadArm(e.span, e.arms, 0, S, args, c);
  }

  /** `match make() { Ok(b) => both(b, b), Err(e) => () }` for `fn make() -> Result(box i64, str)` is
      refused: the box is owned by `b`, and moved twice. */
  lemma MatchedBoxIsOwned(S: Frames)
    ensures Touch(MAKE_MATCH, S, true, MAKES).bad
  {
    OkBinds();
    var args := Some([CELL, Str]);
    var inner := S + [ArmScope(OK_TWICE, args, MAKES)];
    assert Find(inner, "b") == Some(|S|);
    TwiceIsBad(inner, |S|, CELL, MAKES);
    BadMatch(MAKE_MATCH, S, args, MAKES);
  }

  // ---------------------------------------------------------------- what the stand-in hides

  const PAIR := Box(CELL)
  const WRAP := StructDecl(None, "Wrap", [], [Field("o", OptionOf(PAIR))])
  const WRAPPED := Ctx(Table(map["Wrap" := WRAP], map["Option" := OPTION],
                             map["Some" := ("Option", OPTION.variants[0]), "None" := ("Option", OPTION.variants[1])]), map[])
  const INNER := Project(B, Content)
  const SOME_TWICE := Arm("Some", ["b"], Call("both", [INNER, INNER]))
  const FIELD_MATCH := Match(1, Project(Ident("w"), FieldNamed("o")), [SOME_TWICE, Arm("None", [], Lit)])
  const FIELD := Project(Ident("w"), FieldNamed("o"))
  const START: Frames := [map["w" := Slot(Named("Wrap", []), false)]]
  const BOXED := World(WRAPPED, map[1 := OptionOf(PAIR)])

  lemma SomeScopes()
    ensures ArmScope(SOME_TWICE, None, WRAPPED) == map["b" := Slot(Box(Unit), false)]
    ensures RealScope(SOME_TWICE, OptionOf(PAIR), WRAPPED.table) == map["b" := Slot(PAIR, false)]
  {
    SomeIs();
    assert AllSentinel(["T"]) == map["T" := Box(Unit)];
    assert SubstituteAll([Named("T", [])], AllSentinel(["T"])) == [Box(Unit)];
    BindOne("b", Box(Unit));
    assert Argument("T", ["T"], [PAIR]) == Some(PAIR);
    assert LastIndex(["b"], "b", 1) == Some(0);
    var actual := RealScope(SOME_TWICE, OptionOf(PAIR), WRAPPED.table);
    assert forall x :: x in actual <==> x == "b";
  }

  lemma SomeIs()
    ensures FindVariant(WRAPPED.table, "Some") == Some(("Option", OPTION.variants[0])) && LastSegment("Some") == "Some"
    ensures PayloadOf(OPTION.variants, "Some") == Some([Named("T", [])])
  {
    assert LastSep("Some").None?;
    var vs := OPTION.variants;
    assert [OPTION][..0] == [] && vs[1..] == [vs[1]];
  }

  /** Looking into `b` twice, when what is inside is taken to own nothing. */
  lemma InnerIsRead(S: Frames, i: nat, c: Ctx)
    requires Find(S, "b") == Some(i) && S[i]["b"] == Slot(Box(Unit), false)
    ensures !Touch(SOME_TWICE.body, S, true, c).bad
  {
    assert PartTy(Box(Unit), Content, c) == Some(Unit) && !Extracts(Box(Unit), Content, c);
    assert Touch(INNER, S, true, c) == Skip(S);
    CallOfTwo("both", INNER, INNER, S, c);
  }

  /** A match in which no arm has an error has none. */
  lemma FineMatch(e: Expr, S: Frames, args: Option<seq<Ty>>, c: Ctx)
    requires e.Match? && !Touch(e.scrutinee, S, true, c).bad && ConcreteArgs(e.scrutinee, Touch(e.scrutinee, S, true, c).frames, c) == args
    requires forall k :: 0 <= k < |e.arms| ==> !TouchArm(e.span, k, e.arms[k], Touch(e.scrutinee, S, true, c).frames, args, c).bad
    ensures !Touch(e, S, true, c).bad
  {
    var U := Touch(e.scrutinee, S, true, c).frames;
    var outs := ArmOuts(e.span, e.arms, U, args, c);
    FineJoin(U, outs, |outs|);
    assert !TouchArms(e.span, e.arms, U, args, c).bad;
  }

  lemma {:induction false} FineJoin(S: Frames, outs: seq<Out>, n: nat)
    requires n <= |outs| && forall k :: 0 <= k < n ==> !outs[k].bad
    ensures !Join(S, outs, n).bad
  {
    if n > 1 { FineJoin(S, outs, n - 1); }
  }

  lemma SomeAccepted(U: Frames)
    ensures !TouchArm(1, 0, SOME_TWICE, U, None, WRAPPED).bad
  {
    SomeScopes();
    var inner := U + [ArmScope(SOME_TWICE, None, WRAPPED)];
    assert Find(inner, "b") == Some(|U|);
    InnerIsRead(inner, |U|, WRAPPED);
  }

  lemma FieldAccepted(S: Frames)
    requires !Touch(FIELD, S, true, WRAPPED).bad
    ensures !Touch(FIELD_MATCH, S, true, WRAPPED).bad
  {
    var U := Touch(FIELD, S, true, WRAPPED).frames;
    SomeAccepted(U);
    IdleArm(1, 1, FIELD_MATCH.arms[1], U, None, WRAPPED);
    FineMatch(FIELD_MATCH, S, None, WRAPPED);
  }

  lemma BoxesOwn(ty: Ty, c: Ctx)
    requires ty.Box?
    ensures Owning(c, ty)
  {
    BaseHolds(c.table, ty);
  }

  lemma InnerIsTaken(R: Frames, i: nat, m: Machine, plan: seq<nat>)
    requires Find(R, "b") == Some(i) && R[i]["b"] == Slot(PAIR, false)
    ensures Run(SOME_TWICE.body, R, true, false, m, plan).out == Fault
  {
    BoxesOwn(PAIR, m.w.c);
    BoxesOwn(CELL, m.w.c);
    var R1 := SetMoved(R, "b", true);
    OwnershipLoops.SameFind(R, R1, "b");
    assert Takes(R, "b", Content, m.w.c) && Takes(R1, "b", Content, m.w.c);
    var args, last: seq<Expr> := [INNER, INNER], [INNER];
    assert args[1..] == last;
    assert Run(INNER, R, true, true, m, plan) == Step(Running(R1), plan);
    assert Run(INNER, R1, true, true, m, plan) == Step(Fault, plan);
    assert RunArgs("both", last, 1, R1, m, plan) == Step(Fault, plan);
    assert RunArgs("both", args, 0, R, m, plan) == Step(Fault, plan);
  }

  lemma SomeFaults(U: Frames, m: Machine)
    requires m.w == BOXED
    ensures RunArm(1, 0, SOME_TWICE, U, OptionOf(PAIR), false, m, []).out == Fault
  {
    SomeScopes();
    var inner := U + [RealScope(SOME_TWICE, OptionOf(PAIR), WRAPPED.table)];
    assert Find(inner, "b") == Some(|U|);
    InnerIsTaken(inner, |U|, m, []);
  }

  lemma FieldFaults(R: Frames, U: Frames, m: Machine)
    requires m.w == BOXED && Run(FIELD, R, true, true, m, []) == Step(Running(U), [])
    ensures Run(FIELD_MATCH, R, true, false, m, []).out == Fault
  {
    SomeFaults(U, m);
    FirstArm(FIELD_MATCH, R, U, OptionOf(PAIR), m);
  }

  /** With no choices left a match takes its first arm. */
  lemma FirstArm(e: Expr, R: Frames, U: Frames, ty: Ty, m: Machine)
    requires e.Match? && e.arms != [] && Run(e.scrutinee, R, true, true, m, []) == Step(Running(U), [])
    requires RealTy(e.scrutinee, e.span, U, m.w) == ty
    ensures Run(e, R, true, false, m, []) == RunArm(e.span, 0, e.arms[0], U, ty, false, m, [])
  {
    assert Choice([]) == 0 && Rest([]) == [] && 0 % |e.arms| == 0;
  }

  /** Taking a part out of a binding that is not moved. */
  lemma PartWalks(x: string, part: Part, S: Frames, i: nat, m: Machine) returns (U: Frames)
    requires Find(S, x) == Some(i) && !S[i][x].moved
    ensures !Touch(Project(Ident(x), part), S, true, m.w.c).bad
    ensures Run(Project(Ident(x), part), S, true, true, m, []) == Step(Running(U), [])
  {
    U := if IsOwning(S, x, m.w.c) && Takes(S, x, part, m.w.c) then SetMoved(S, x, true) else S;
  }

  /** `match w.o { Some(b) => both(*b, *b), None => () }` for `w.o: Option(box box i64)`: the stand-in for
      the unknown argument makes `b` a `box unit`, so `b` is tracked, but what comes out of it is not
      taken to own anything. The match is accepted, and the inner box goes to `both` twice. */
  lemma StandInHidesContent(m: Machine)
    requires m.w == BOXED
    ensures var f := FnDecl("f", [Param("w", Named("Wrap", []))], Unit, [ExprStmt(FIELD_MATCH)]);
            !CheckFn(f, WRAPPED).bad && RunFn(f, m, []).Fault?
  {
    var f := FnDecl("f", [Param("w", Named("Wrap", []))], Unit, [ExprStmt(FIELD_MATCH)]);
    assert f.params[..0] == [] && ParamScope(f.params) == START[0];
    BodyAccepted();
    BodyFaults(m);
  }

  lemma BodyAccepted()
    ensures !Stmts([ExprStmt(FIELD_MATCH)], START, WRAPPED).bad
  {
    assert Find(START, "w") == Some(0);
    var _ := PartWalks("w", FieldNamed("o"), START, 0, Machine(BOXED, map[]));
    FieldAccepted(START);
    OneStmt(ExprStmt(FIELD_MATCH), START, WRAPPED);
  }

  lemma BodyFaults(m: Machine)
    requires m.w == BOXED
    ensures RunStmts([ExprStmt(FIELD_MATCH)], START, false, m, []).out == Fault
  {
    assert Find(START, "w") == Some(0);
    var U := PartWalks("w", FieldNamed("o"), START, 0, m);
    FieldFaults(START, U, m);
    RunOneStmt(ExprStmt(FIELD_MATCH), START, false, m, []);
  }
}
