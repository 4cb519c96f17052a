/** Three programs whose real effects the inference misses on a well-typed run, one for each thing that
    `EffectsSound.Tame` asks for: a type it looks up is not that of the value, a name it looks up is not
    what the run uses, or there is no name to look up. */
module EffectsLimits {
  import opened Prelude
  import opened Types
  import opened Registry
  import opened Effects
  import opened EffectsTable
  import opened EffectsInfer
  import opened EffectsRun
  import opened EffectsSound

  const RESULT := EnumDecl(None, "Result", ["T", "E"], [Variant("Ok", [Named("T", [])]), Variant("Err", [Named("E", [])])])
  const TABLE := Table(map[], map["Result" := RESULT], 
                     map["Ok" := ("Result", RESULT.variants[0]), "Err" := ("Result", RESULT.variants[1])])

  /** A well-typed run makes an operation that carries a tag not inferred for its function. */
  ghost predicate Misses(p: Program, known: Known, name: string, r: Run) {
    r.typed && name in known && exists op, t :: op in r.did && Carries(op, t, p) && t !in known[name]
  }

  /** Prints. */
  const LOUD := FnDecl("loud", [], [ExprStmt(Call("print", []))])

  lemma Missed(p: Program, known: Known, name: string, r: Run, op: Op, t: Effect)
    requires r.typed && name in known && r.did == {op} && Carries(op, t, p) && t !in known[name]
    ensures Misses(p, known, name, r)
  {}

  lemma LoudUses(p: Program)
    requires "print" in p.builtins && p.plugins == map[]
    ensures UsesFn(LOUD, p) == Uses({Io}, {}, false)
  {
    var S: Scopes := [map[]];
    assert UsesOf(Call("print", []), S, p) == Uses({Io}, {}, false);
    assert LOUD.body[1..] == [];
  }

  /** A call without operands. */
  lemma CallBare(name: string, R: Frames, p: Program, plan: seq<Pick>, fuel: nat)
    ensures RunAll([], R, p, plan, fuel) == (Still(R, Plain, plan), [])
    ensures var l := LookUp(R, name); var r := RunCall(Call(name, []), R, p, plan, fuel);
            if l.Some? && l.value.v.FnV? then
              fuel > 0 ==> var s := Enter(l.value.v.name, [], R, p, plan, fuel - 1); r.did == s.did && r.typed == s.typed
            else var s := CallNamed(name, [], [], R, p, plan, fuel); r.did == s.did && r.typed == s.typed && r.status == s.status
  {}

  /** A body of one expression statement does what the expression does. */
  lemma BodyOfOne(e: Expr, R: Frames, p: Program, plan: seq<Pick>, fuel: nat)
    requires R != []
    ensures var r, s := RunStmts([ExprStmt(e)], R, p, plan, fuel), RunExpr(e, R, p, plan, fuel); r.did == s.did && r.typed == s.typed
  {
    var b := [ExprStmt(e)];
    assert b[1..] == [] && RunOne(b[0], R, p, plan, fuel) == RunExpr(e, R, p, plan, fuel);
  }

  lemma LoudRuns(p: Program, plan: seq<Pick>)
    requires "print" in p.builtins && p.plugins == map[]
    ensures RunFn(LOUD, [], p, plan, 0).did == {Builtin("print")} && RunFn(LOUD, [], p, plan, 0).typed
  {
    var R: Frames := [map[]];
    assert Find(R, "print").None? by { assert R[..0] == []; }
    CallBare("print", R, p, plan, 0);
    BodyOfOne(Call("print", []), R, p, plan, 0);
  }

  const OK_ARM := Arm("Ok", ["f"], Call("f", []))
  const ERR_ARM := Arm("Err", ["e"], Lit)
  const MATCH := Match(Acquire("loud", Lit), [OK_ARM, ERR_ARM])

  /** `match acquire loud(r) { Ok(f) => f(), Err(e) => () }`: `f` is bound at the type `T` of the
      declaration, so the call through it is not seen. */
  const GATED := FnDecl("gated", [], [ExprStmt(MATCH)])

  lemma GatedUses(p: Program)
    requires p == Program([LOUD, GATED], {"print"}, map[], TABLE)
    ensures UsesFn(GATED, p) == NOTHING
  {
    OkArmBinds();
    var S2: Scopes := [map[], map["f" := Named("T", [])]];
    assert [map[]] + [ArmTys(OK_ARM, TABLE)] == S2;
    assert p.Names() == {"loud", "gated"};
    assert Find(S2, "f") == Some(1);
    assert UsesOf(Call("f", []), S2, p) == NOTHING;
    assert [OK_ARM, ERR_ARM][1..] == [ERR_ARM] && [ERR_ARM][1..] == [];
    assert UsesOf(Lit, [map[]] + [ArmTys(ERR_ARM, TABLE)], p) == NOTHING && UsesArms([ERR_ARM], [map[]], p) == NOTHING;
    assert UsesArms([OK_ARM, ERR_ARM], [map[]], p) == NOTHING;
    GatedBody(p);
  }

  lemma GatedBody(p: Program)
    requires UsesArms([OK_ARM, ERR_ARM], [map[]], p) == NOTHING
    ensures UsesFn(GATED, p) == NOTHING
  {
    var S: Scopes := [map[]];
    assert UsesOf(MATCH.scrutinee, S, p) == NOTHING && UsesArms(MATCH.arms, S, p) == NOTHING;
    assert UsesOf(MATCH, S, p) == NOTHING;
    assert GATED.body[0] == ExprStmt(MATCH) && GATED.body[1..] == [] && ParamTys(GATED.params) == map[];
    assert UsesStmts(GATED.body, S, p) == NOTHING;
  }

  lemma OkArmBinds()
    ensures ArmTys(OK_ARM, TABLE) == map["f" := Named("T", [])]
    ensures ArmLocals(ArmTys(OK_ARM, TABLE), map["f" := FnV("loud")]) == map["f" := Local(Named("T", []), FnV("loud"))]
  {
    assert LastSep("Ok").None?;
    assert BindTys(["f"], [Named("T", [])]) == map["f" := Named("T", [])] by { assert ["f"][..0] == [] && [Named("T", [])][..0] == []; }
  }

  /** In the arm, `f()` calls `loud`. */
  lemma ArmRuns(p: Program)
    requires p.fns == [LOUD, GATED] && "print" in p.builtins && p.plugins == map[] && p.table == TABLE
    ensures var r := RunArm(OK_ARM, [map[]], p, map["f" := FnV("loud")], [], 1); r.did == {Builtin("print")} && r.typed
  {
    OkArmBinds();
    var R: Frames := [map[], map["f" := Local(Named("T", []), FnV("loud"))]];
    assert [map[]] + [ArmLocals(ArmTys(OK_ARM, TABLE), map["f" := FnV("loud")])] == R;
    assert Find(R, "f") == Some(1);
    LoudRuns(p, []);
    assert FirstFn(p.fns, "loud") == Some(LOUD);
    CallBare("f", R, p, [], 1);
  }

  lemma MatchRuns(p: Program, plan: seq<Pick>, rest: seq<Pick>)
    requires p.fns == [LOUD, GATED] && "print" in p.builtins && p.plugins == map[] && p.table == TABLE
    requires plan != [] && rest == plan[1..] && |rest| == 1 && rest[0] == Pick(0, Plain, map["f" := FnV("loud")], "")
    ensures RunMatch(MATCH, [map[]], p, plan, 1).did == {Builtin("print")} && RunMatch(MATCH, [map[]], p, plan, 1).typed
  {
    var R: Frames := [map[]];
    AcquireRuns(p, plan, R);
    ArmRuns(p);
    Picked(MATCH, OK_ARM, R, p, plan, rest);
  }

  lemma AcquireRuns(p: Program, plan: seq<Pick>, R: Frames)
    requires plan != []
    ensures RunExpr(Acquire("loud", Lit), R, p, plan, 1) == Run(Go(plan[0].v), R, {}, true, plan[1..])
  {
    assert RunExpr(Lit, R, p, plan, 1) == Still(R, Plain, plan);
  }

  lemma Picked(m: Expr, arm: Arm, R: Frames, p: Program, plan: seq<Pick>, rest: seq<Pick>)
    requires m.Match? && m.arms != [] && m.arms[0] == arm && rest != [] && rest[0].n == 0
    requires var a := RunExpr(m.scrutinee, R, p, plan, 1); a.status.Go? && a.frames == R && a.did == {} && a.typed && a.plan == rest
    ensures var r, s := RunMatch(m, R, p, plan, 1), RunArm(arm, R, p, rest[0].payload, rest[1..], 1); r.did == s.did && r.typed == s.typed
  {
    assert rest[0].n % |m.arms| == 0;
  }

  lemma GatedRuns(p: Program, plan: seq<Pick>)
    requires p == Program([LOUD, GATED], {"print"}, map[], TABLE)
    requires |plan| == 2 && plan[1] == Pick(0, Plain, map["f" := FnV("loud")], "")
    ensures RunFn(GATED, [], p, plan, 1).did == {Builtin("print")} && RunFn(GATED, [], p, plan, 1).typed
  {
    var R: Frames := [map[]];
    MatchRuns(p, plan, plan[1..]);
    BodyOfOne(MATCH, R, p, plan, 1);
    assert GATED.body == [ExprStmt(MATCH)];
  }

  /** A function whose inferred set is empty prints. */
  lemma AcquiredCallsAreMissed()
    ensures var p := Program([LOUD, GATED], {"print"}, map[], TABLE); var known: Known := map["loud" := {Io}, "gated" := {}];
            Closed(p, known) && !TameFn(GATED, p)
            && exists plan :: Misses(p, known, "gated", RunFn(GATED, [], p, plan, 1))
  {
    var p := Program([LOUD, GATED], {"print"}, map[], TABLE);
    var known: Known := map["loud" := {Io}, "gated" := {}];
    LoudUses(p);
    GatedUses(p);
    assert p.Names() == {"loud", "gated"};
    forall f | f in p.fns ensures Settled(p, known, f) {}
    GatedIsNotTame(p);
    var plan := [Pick(0, Plain, map[], ""), Pick(0, Plain, map["f" := FnV("loud")], "")];
    GatedRuns(p, plan);
    Missed(p, known, "gated", RunFn(GATED, [], p, plan, 1), Builtin("print"), Io);
  }

  lemma GatedIsNotTame(p: Program)
    requires p.table == TABLE
    ensures !TameFn(GATED, p)
  {
    OkArmBinds();
    var S: Scopes := [map[], map["f" := Named("T", [])]];
    assert [map[]] + [ArmTys(OK_ARM, TABLE)] == S && Find(S, "f") == Some(1);
    assert !Tame(OK_ARM.body, S, p) && !TameArms([OK_ARM, ERR_ARM], [map[]], p);
    assert !Tame(MATCH, [map[]], p) && ParamTys(GATED.params) == map[];
    assert !TameOne(GATED.body[0], [map[]], p);
  }

  // ---------------------------------------------------------------- a parameter named like a function

  const CALM := FnDecl("calm", [], [])
  const TRUSTING := FnDecl("trusting", [Param("calm", Fn([], Unit))], [ExprStmt(Call("calm", []))])

  /** `fn trusting(calm: fn()) { calm() }`: the call is attributed to the function called `calm`, but
      the parameter is what is called. */
  lemma ShadowedFunctionsAreMissed(plan: seq<Pick>)
    ensures var p := Program([LOUD, CALM, TRUSTING], {"print"}, map[], TABLE);
            var known: Known := map["loud" := {Io}, "calm" := {}, "trusting" := {}];
            Closed(p, known) && !TameFn(TRUSTING, p)
            && Misses(p, known, "trusting", RunFn(TRUSTING, [FnV("loud")], p, plan, 1))
  {
    var p := Program([LOUD, CALM, TRUSTING], {"print"}, map[], TABLE);
    var known: Known := map["loud" := {Io}, "calm" := {}, "trusting" := {}];
    TrustingClosed(p, known);
    TrustingRuns(p, plan);
    Missed(p, known, "trusting", RunFn(TRUSTING, [FnV("loud")], p, plan, 1), Builtin("print"), Io);
    assert "calm" in p.Names() by { assert CALM in p.fns; }
    assert TRUSTING.params[..0] == [] && ParamTys(TRUSTING.params) == map["calm" := Fn([], Unit)];
  }

  lemma TrustingUses(p: Program)
    requires "print" in p.builtins && p.plugins == map[] && "calm" !in p.builtins && "calm" in p.Names()
    ensures UsesFn(TRUSTING, p) == Uses({}, {"calm"}, false) && UsesFn(CALM, p) == NOTHING
  {
    var S: Scopes := [ParamTys(TRUSTING.params)];
    assert UsesOf(Call("calm", []), S, p) == Uses({}, {"calm"}, false);
    assert TRUSTING.body[1..] == [];
  }

  lemma TrustingClosed(p: Program, known: Known)
    requires p == Program([LOUD, CALM, TRUSTING], {"print"}, map[], TABLE)
    requires known == map["loud" := {Io}, "calm" := {}, "trusting" := {}]
    ensures Closed(p, known)
  {
    assert p.Names() == {"loud", "calm", "trusting"} by { assert LOUD in p.fns && CALM in p.fns && TRUSTING in p.fns; }
    LoudUses(p);
    TrustingUses(p);
    forall f | f in p.fns ensures Settled(p, known, f) {}
  }

  lemma TrustingRuns(p: Program, plan: seq<Pick>)
    requires p == Program([LOUD, CALM, TRUSTING], {"print"}, map[], TABLE)
    ensures RunFn(TRUSTING, [FnV("loud")], p, plan, 1).did == {Builtin("print")} && RunFn(TRUSTING, [FnV("loud")], p, plan, 1).typed
  {
    var l := Local(Fn([], Unit), FnV("loud"));
    assert TRUSTING.params[..0] == [] && ParamLocals(TRUSTING.params, [FnV("loud")]) == map["calm" := l];
    var R: Frames := [map["calm" := l]];
    assert Find(R, "calm") == Some(0);
    LoudRuns(p, plan);
    assert FirstFn(p.fns, "loud") == Some(LOUD);
    CallBare("calm", R, p, plan, 1);
    BodyOfOne(Call("calm", []), R, p, plan, 1);
  }

  // ---------------------------------------------------------------- a target without a name

  const RELAY := FnDecl("relay", [Param("s", Named("S", []))], [ExprStmt(Send(Op([Ident("s")]), Lit))])

  /** `fn relay(s: S) { send(s.out, 1) }`: the target's type is not looked up, so nothing is inferred. */
  lemma FieldTargetsAreMissed()
    ensures var p := Program([RELAY], {}, map[], TABLE); var known: Known := map["relay" := {}];
            Closed(p, known) && !TameFn(RELAY, p)
            && exists plan :: Misses(p, known, "relay", RunFn(RELAY, [Plain], p, plan, 1))
  {
    var p := Program([RELAY], {}, map[], TABLE);
    var known: Known := map["relay" := {}];
    RelayClosed(p, known);
    var plan := [Pick(0, HandleV(ChannelKind), map[], "")];
    RelayRuns(p, plan);
    Missed(p, known, "relay", RunFn(RELAY, [Plain], p, plan, 1), Transfer(ChannelKind), Concurrent);
  }

  lemma RelayClosed(p: Program, known: Known)
    requires p == Program([RELAY], {}, map[], TABLE) && known == map["relay" := {}]
    ensures Closed(p, known) && !TameFn(RELAY, p)
  {
    var S: Scopes, args := [ParamTys(RELAY.params)], [Ident("s")];
    assert args[1..] == [] && UsesAll(args, S, p) == NOTHING;
    assert UsesOf(Op(args), S, p) == NOTHING && UsesOf(Lit, S, p) == NOTHING;
    assert UsesOf(Send(Op(args), Lit), S, p) == NOTHING && !Tame(Send(Op(args), Lit), S, p);
    assert RELAY.body[0] == ExprStmt(Send(Op(args), Lit)) && RELAY.body[1..] == [] && UsesFn(RELAY, p) == NOTHING;
    assert !TameOne(RELAY.body[0], S, p);
    assert p.Names() == {"relay"} by { assert RELAY in p.fns; }
    forall f | f in p.fns ensures Settled(p, known, f) {}
  }

  lemma OneOperand(x: Expr, R: Frames, p: Program, plan: seq<Pick>, fuel: nat)
    requires RunExpr(x, R, p, plan, fuel) == Still(R, Plain, plan) && plan != []
    ensures var a := RunExpr(Op([x]), R, p, plan, fuel);
            a.status == Go(plan[0].v) && a.did == {} && a.typed && a.frames == R && a.plan == plan[1..]
  {
    var args, none: seq<Expr> := [x], [];
    assert args[0] == x && args[1..] == none;
    assert RunAll(none, R, p, plan, fuel) == (Still(R, Plain, plan), []);
    assert RunAll(args, R, p, plan, fuel).0 == Still(R, Plain, plan).Before(Still(R, Plain, plan));
    assert RunExpr(Op(args), R, p, plan, fuel) == RunOperands(args, R, p, plan, fuel);
  }

  lemma RelayRuns(p: Program, plan: seq<Pick>)
    requires |plan| == 1 && plan[0].v == HandleV(ChannelKind)
    ensures RunFn(RELAY, [Plain], p, plan, 1).did == {Transfer(ChannelKind)} && RunFn(RELAY, [Plain], p, plan, 1).typed
  {
    var l, s := Local(Named("S", []), Plain), Ident("s");
    assert RELAY.params[..0] == [] && ParamLocals(RELAY.params, [Plain]) == map["s" := l];
    var R: Frames := [map["s" := l]];
    assert Find(R, "s") == Some(0);
    OneOperand(s, R, p, plan, 1);
    SendRuns(Op([s]), R, p, plan, 1);
    BodyOfOne(Send(Op([s]), Lit), R, p, plan, 1);
    assert RELAY.body == [ExprStmt(Send(Op([s]), Lit))];
  }

  lemma SendRuns(t: Expr, R: Frames, p: Program, plan: seq<Pick>, fuel: nat)
    requires var a := RunExpr(t, R, p, plan, fuel); a.status == Go(HandleV(ChannelKind)) && a.did == {} && a.typed
    ensures var r := RunExpr(Send(t, Lit), R, p, plan, fuel); r.did == {Transfer(ChannelKind)} && r.typed
  {
    var a := RunExpr(t, R, p, plan, fuel);
    assert RunExpr(Lit, a.frames, p, a.plan, fuel) == Still(a.frames, Plain, a.plan);
  }
}
