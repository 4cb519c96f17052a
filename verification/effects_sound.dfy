/** Why the inferred effects cover every run of a tame program: a binding whose type the inference looks
    up really holds a value of that type. */
module EffectsSound {
  import opened Prelude
  import opened Types
  import opened Registry
  import opened Effects
  import opened EffectsTable
  import opened EffectsInfer
  import opened EffectsRun

  // ---------------------------------------------------------------- what is asked of a program

  /** A target the inference sees: made on the spot, or a name whose type is not that of a struct, an
      enum or a type parameter. */
  predicate Seen(t: Expr, S: Scopes) { t.Make? || (t.Ident? && !TyOf(S, t.name).Named?) }

  /** No binding of a function type has the name of something global. */
  predicate Clear(tys: map<string, Ty>, p: Program) { forall x :: x in tys && tys[x].Fn? ==> !p.IsGlobal(x) }

  /** Every target of `send`, `recv` and `stop` is seen, no binding of a struct, enum or parameter type is
      called, and no local function value is named like a global. */
  predicate Tame(e: Expr, S: Scopes, p: Program)
    decreases e, 1
  {
    match e
    case Lit | StrLit(_) | Ident(_) => true
    case Op(args) => TameAll(args, S, p)
    case Call(f, args) => TameAll(args, S, p) && !TyOf(S, f).Named?
    case If(_, _, _) => TameIf(e, S, p)
    case Assign(_, rhs) => Tame(rhs, S, p)
    case Spawn(_, args, _) => TameAll(args, S, p)
    case Join(inner) => Tame(inner, S, p)
    case Send(t, v) => Seen(t, S) && Tame(t, S, p) && Tame(v, S, p)
    case Recv(t) => Seen(t, S) && Tame(t, S, p)
    case Stop(inner) => Seen(inner, S) && Tame(inner, S, p)
    case Make(_, args) => TameAll(args, S, p)
    case Acquire(_, proof) => Tame(proof, S, p)
    case Match(s, arms) => Tame(s, S, p) && TameArms(arms, S, p)
  }

  predicate TameAll(es: seq<Expr>, S: Scopes, p: Program)
    decreases es
  {
    es == [] || (Tame(es[0], S, p) && TameAll(es[1..], S, p))
  }

  predicate TameIf(e: Expr, S: Scopes, p: Program)
    requires e.If?
    decreases e, 0
  {
    Tame(e.cond, S, p) && TameBlock(e.thn, S, p) && TameElse(e.els, S, p)
  }

  predicate TameElse(els: Else, S: Scopes, p: Program)
    decreases els
  {
    match els case NoElse => true case ElseBlock(b) => TameBlock(b, S, p) case ElseIf(e) => Tame(e, S, p)
  }

  predicate TameArms(arms: seq<Arm>, S: Scopes, p: Program)
    decreases arms
  {
    arms == []
    || (Clear(ArmTys(arms[0], p.table), p) && Tame(arms[0].body, S + [ArmTys(arms[0], p.table)], p) && TameArms(arms[1..], S, p))
  }

  predicate TameBlock(b: seq<Stmt>, S: Scopes, p: Program)
    decreases b, 1
  {
    TameStmts(b, S + [map[]], p)
  }

  predicate TameStmts(b: seq<Stmt>, S: Scopes, p: Program)
    requires S != []
    decreases b, 0
  {
    b == [] || (TameOne(b[0], S, p) && TameStmts(b[1..], After(b[0], S), p))
  }

  predicate TameOne(s: Stmt, S: Scopes, p: Program)
    decreases s
  {
    match s
    case Let(x, ty, e) => Tame(e, S, p) && (ty.Fn? ==> !p.IsGlobal(x))
    case Return(v) => v.Some? ==> Tame(v.value, S, p)
    case While(c, b) => Tame(c, S, p) && TameBlock(b, S, p)
    case ExprStmt(e) => Tame(e, S, p)
    case Audited(b) => TameBlock(b, S, p)
  }

  predicate TameFn(f: FnDecl, p: Program) { Clear(ParamTys(f.params), p) && TameStmts(f.body, [ParamTys(f.params)], p) }

  predicate TameProgram(p: Program) { forall f :: f in p.fns ==> TameFn(f, p) }

  // ---------------------------------------------------------------- values of their types

  ghost predicate GoodFrame(f: map<string, Local>, p: Program) { AllFit(f) && Clear(FrameTys(f), p) }

  ghost predicate Good(R: Frames, p: Program) { forall i :: 0 <= i < |R| ==> GoodFrame(R[i], p) }

  lemma {:induction false} SameLookUp(R: Frames, x: string)
    ensures TyOf(Tys(R), x) == (if LookUp(R, x).None? then Error else LookUp(R, x).value.ty)
  {
    if R != [] {
      var n := |R| - 1;
      SameLookUp(R[..n], x);
      assert Tys(R)[..n] == Tys(R[..n]);
    }
  }

  lemma GoodLookUp(R: Frames, p: Program, x: string)
    requires Good(R, p) && LookUp(R, x).Some?
    ensures var l := LookUp(R, x).value; Fits(l.v, l.ty) && (l.ty.Fn? ==> !p.IsGlobal(x)) && l.ty == TyOf(Tys(R), x)
  {
    SameLookUp(R, x);
    var i := Find(R, x).value;
    assert GoodFrame(R[i], p) && x in FrameTys(R[i]);
  }

  lemma GoodSet(R: Frames, p: Program, x: string, v: Value)
    requires Good(R, p) && MayHold(R, x, v)
    ensures Good(SetValue(R, x, v), p)
  {
    var F := SetValue(R, x, v);
    forall i | 0 <= i < |F| ensures GoodFrame(F[i], p) {
      assert GoodFrame(R[i], p);
      if Find(R, x) == Some(i) { assert FrameTys(F[i]) == FrameTys(R[i]); }
    }
  }

  lemma GoodDefine(R: Frames, p: Program, x: string, l: Local)
    requires R != [] && Good(R, p) && Fits(l.v, l.ty) && (l.ty.Fn? ==> !p.IsGlobal(x))
    ensures Good(DefineLocal(R, x, l), p)
  {
    var F := DefineLocal(R, x, l);
    forall i | 0 <= i < |F| ensures GoodFrame(F[i], p) { assert GoodFrame(R[i], p); }
  }

  lemma GoodPush(R: Frames, p: Program, top: map<string, Local>)
    requires Good(R, p) && GoodFrame(top, p)
    ensures Good(R + [top], p)
  {}

  /** A seen target has the kind its type in scope says. */
  lemma TargetKind(t: Expr, R: Frames, p: Program, plan: seq<Pick>, fuel: nat)
    requires Seen(t, Tys(R)) && Good(R, p) && RunExpr(t, R, p, plan, fuel).status.Go?
    ensures KindOf(LocalTy(t, Tys(R))) == RealKind(RunExpr(t, R, p, plan, fuel).status.v)
  {
    if t.Ident? {
      SameLookUp(R, t.name);
      if LookUp(R, t.name).Some? { GoodLookUp(R, p, t.name); }
    }
  }

  // ---------------------------------------------------------------- soundness

  lemma FirstFnIs(fns: seq<FnDecl>, name: string)
    ensures FirstFn(fns, name).Some? ==> FirstFn(fns, name).value in fns && FirstFn(fns, name).value.name == name
  {}

  /** The tags that some operation carries. */
  ghost function Tags(did: set<Op>, p: Program): (fx: EffectSet)
    ensures forall t :: t in fx <==> exists op :: op in did && Carries(op, t, p)
  {
    forall t ensures t in ALL { AllEffects(t); }
    set t | t in ALL && exists op :: op in did && Carries(op, t, p)
  }

  lemma TagsUnion(a: set<Op>, b: set<Op>, p: Program)
    ensures Tags(a + b, p) == Tags(a, p) + Tags(b, p)
  {
    forall t ensures t in Tags(a + b, p) <==> t in Tags(a, p) || t in Tags(b, p) {}
  }

  lemma TagsOne(op: Op, fx: EffectSet, p: Program)
    requires forall t :: Carries(op, t, p) ==> t in fx
    ensures Tags({op}, p) <= fx
  {}

  /** A run that stored only values of the declared types did only what `u` covers. */
  ghost predicate Covered(r: Run, u: Uses, p: Program, known: Known) {
    r.typed ==> Tags(r.did, p) <= Meaning(u, known) && Good(r.frames, p)
  }

  ghost predicate Ready(p: Program, known: Known) { Closed(p, known) && TameProgram(p) }

  lemma CoveredAnd(a: Run, u: Uses, b: Run, v: Uses, p: Program, known: Known)
    requires Covered(a, u, p, known) && (a.typed ==> Covered(b, v, p, known))
    ensures Covered(a, u.And(v), p, known) && Covered(a.Before(b), u.And(v), p, known)
  {
    MeaningAnd(u, v, known);
    TagsUnion(a.did, b.did, p);
  }

  lemma CoveredDo(a: Run, u: Uses, op: Op, fx: EffectSet, p: Program, known: Known)
    requires Covered(a, u, p, known) && forall t :: Carries(op, t, p) ==> t in fx
    ensures Covered(a, u.Do(fx), p, known) && Covered(a.Doing(op), u.Do(fx), p, known)
  {
    MeaningDo(u, fx, known);
    TagsUnion(a.did, {op}, p);
    TagsOne(op, fx, p);
  }

  lemma {:induction false} SoundExpr(e: Expr, R: Frames, p: Program, known: Known, plan: seq<Pick>, fuel: nat)
    requires Ready(p, known) && Tame(e, Tys(R), p) && Good(R, p)
    ensures Covered(RunExpr(e, R, p, plan, fuel), UsesOf(e, Tys(R), p), p, known)
    decreases fuel, |plan|, e, 3
  {
    match e
    case Op(args) => SoundAll(args, R, p, known, plan, fuel);
    case Call(_, _) => SoundCall(e, R, p, known, plan, fuel);
    case If(_, _, _) => SoundIf(e, R, p, known, plan, fuel);
    case Assign(_, _) => SoundAssign(e, R, p, known, plan, fuel);
    case Spawn(_, _, _) => SoundSpawn(e, R, p, known, plan, fuel);
    case Join(inner) =>
      SoundExpr(inner, R, p, known, plan, fuel);
      CoveredDo(RunExpr(inner, R, p, plan, fuel), UsesOf(inner, Tys(R), p), Await, {Concurrent}, p, known);
    case Send(_, _) => SoundSend(e, R, p, known, plan, fuel);
    case Recv(t) => SoundUse(t, R, p, known, plan, fuel);
    case Stop(inner) => SoundUse(inner, R, p, known, plan, fuel);
    case Make(m, args) => SoundMake(m, args, R, p, known, plan, fuel);
    case Acquire(_, proof) => SoundExpr(proof, R, p, known, plan, fuel);
    case Match(_, _) => SoundMatch(e, R, p, known, plan, fuel);
    case _ =>
  }

  lemma {:induction false} SoundAssign(e: Expr, R: Frames, p: Program, known: Known, plan: seq<Pick>, fuel: nat)
    requires e.Assign? && Ready(p, known) && Tame(e, Tys(R), p) && Good(R, p)
    ensures Covered(RunExpr(e, R, p, plan, fuel), UsesOf(e, Tys(R), p), p, known)
    decreases fuel, |plan|, e, 2
  {
    SoundExpr(e.rhs, R, p, known, plan, fuel);
    var a := RunExpr(e.rhs, R, p, plan, fuel);
    if a.status.Go? && a.typed && MayHold(a.frames, e.name, a.status.v) { GoodSet(a.frames, p, e.name, a.status.v); }
  }

  lemma {:induction false} SoundMake(m: Maker, args: seq<Expr>, R: Frames, p: Program, known: Known, plan: seq<Pick>, fuel: nat)
    requires Ready(p, known) && TameAll(args, Tys(R), p) && Good(R, p)
    ensures Covered(RunExpr(Make(m, args), R, p, plan, fuel), UsesAll(args, Tys(R), p).Do(MakeEffect(m)), p, known)
    decreases fuel, |plan|, args, 1
  {
    SoundAll(args, R, p, known, plan, fuel);
    forall t ensures t in MakeEffect(m) <==> Carries(Making(m), t, p) { MakeTags(m, t, p); }
    CoveredDo(RunAll(args, R, p, plan, fuel).0, UsesAll(args, Tys(R), p), Making(m), MakeEffect(m), p, known);
  }

  /** `recv` and `stop`. */
  lemma {:induction false} SoundUse(t: Expr, R: Frames, p: Program, known: Known, plan: seq<Pick>, fuel: nat)
    requires Ready(p, known) && Seen(t, Tys(R)) && Tame(t, Tys(R), p) && Good(R, p)
    ensures var a, u, l := RunExpr(t, R, p, plan, fuel), UsesOf(t, Tys(R), p), LocalTy(t, Tys(R));
            if a.status.Go? then
              Covered(Used(a, Transfer(RealKind(a.status.v))), u.Do(TransferEffect(l)), p, known)
              && Covered(Used(a, Stopping(RealKind(a.status.v))), u.Do(StopEffect(l)), p, known)
            else Covered(a, u.Do(TransferEffect(l)), p, known) && Covered(a, u.Do(StopEffect(l)), p, known)
    decreases fuel, |plan|, t, 4
  {
    SoundExpr(t, R, p, known, plan, fuel);
    var a, u, l := RunExpr(t, R, p, plan, fuel), UsesOf(t, Tys(R), p), LocalTy(t, Tys(R));
    forall x ensures (Carries(Transfer(KindOf(l)), x, p) <==> x in TransferEffect(l)) && (Carries(Stopping(KindOf(l)), x, p) <==> x in StopEffect(l)) {
      TransferTags(l, x, p);
    }
    if a.status.Go? { TargetKind(t, R, p, plan, fuel); }
    CoveredDo(a, u, Transfer(KindOf(l)), TransferEffect(l), p, known);
    CoveredDo(a, u, Stopping(KindOf(l)), StopEffect(l), p, known);
  }

  lemma {:induction false} SoundAll(args: seq<Expr>, R: Frames, p: Program, known: Known, plan: seq<Pick>, fuel: nat)
    requires Ready(p, known) && TameAll(args, Tys(R), p) && Good(R, p)
    ensures Covered(RunAll(args, R, p, plan, fuel).0, UsesAll(args, Tys(R), p), p, known)
    decreases fuel, |plan|, args, 0
  {
    if args != [] {
      SoundExpr(args[0], R, p, known, plan, fuel);
      var a := RunExpr(args[0], R, p, plan, fuel);
      var b := RunAll(args[1..], a.frames, p, a.plan, fuel).0;
      if a.status.Go? && a.typed { SoundAll(args[1..], a.frames, p, known, a.plan, fuel); }
      var last := if a.status.Go? then b else Still(a.frames, Plain, []);
      CoveredAnd(a, UsesOf(args[0], Tys(R), p), last, UsesAll(args[1..], Tys(R), p), p, known);
    }
  }

  /** A function's body does what its summary covers, so what is known of it. */
  lemma {:induction false} SoundEnter(name: string, vs: seq<Value>, R: Frames, p: Program, known: Known, plan: seq<Pick>, fuel: nat)
    requires Ready(p, known)
    ensures var r := Enter(name, vs, R, p, plan, fuel);
            r.typed ==> Tags(r.did, p) <= (if name in known then known[name] else {})
    decreases fuel
  {
    FirstFnIs(p.fns, name);
    var f := FirstFn(p.fns, name);
    if f.Some? {
      SoundFn(f.value, vs, p, known, plan, fuel);
      assert Settled(p, known, f.value);
    }
  }

  lemma {:induction false} SoundFn(f: FnDecl, vs: seq<Value>, p: Program, known: Known, plan: seq<Pick>, fuel: nat)
    requires Ready(p, known) && f in p.fns
    ensures Covered(RunFn(f, vs, p, plan, fuel), UsesFn(f, p), p, known)
    decreases fuel, |plan|, f.body, 2
  {
    var top := ParamLocals(f.params, vs);
    ParamsTyped(f.params, vs);
    assert Tys([top]) == [ParamTys(f.params)] && TameFn(f, p);
    if AllFit(top) { SoundStmts(f.body, [top], p, known, plan, fuel); }
  }

  lemma {:induction false} ParamsTyped(params: seq<Param>, vs: seq<Value>)
    ensures FrameTys(ParamLocals(params, vs)) == ParamTys(params)
  {
    if params != [] { ParamsTyped(params[..|params| - 1], vs); }
  }

  lemma {:induction false} SoundCall(e: Expr, R: Frames, p: Program, known: Known, plan: seq<Pick>, fuel: nat)
    requires e.Call? && Ready(p, known) && Tame(e, Tys(R), p) && Good(R, p)
    ensures Covered(RunCall(e, R, p, plan, fuel), UsesOf(e, Tys(R), p), p, known)
    decreases fuel, |plan|, e, 2
  {
    SoundAll(e.args, R, p, known, plan, fuel);
    var (a, vs) := RunAll(e.args, R, p, plan, fuel);
    var u, v := UsesAll(e.args, Tys(R), p), CallUses(e.callee, e.args, Tys(R), p);
    MeaningAnd(u, v, known);
    if a.status.Go? && a.typed {
      var l := LookUp(a.frames, e.callee);
      if l.Some? && l.value.v.FnV? {
        SoundValueCall(e, l.value, vs, a.frames, p, known, a.plan, fuel);
      } else {
        SoundNamed(e.callee, e.args, vs, a.frames, p, known, a.plan, fuel);
      }
    }
  }

  /** A binding that holds a function and is called has a function type and no global's name, so the call
      counts as a call of any function. */
  lemma {:induction false} SoundValueCall(
      e: Expr, l: Local, vs: seq<Value>, R: Frames, p: Program, known: Known, plan: seq<Pick>, fuel: nat)
    requires e.Call? && Ready(p, known) && !TyOf(Tys(R), e.callee).Named? && Good(R, p)
    requires LookUp(R, e.callee) == Some(l) && l.v.FnV?
    ensures var b := if fuel == 0 then Spent(R, plan) else Enter(l.v.name, vs, R, p, plan, fuel - 1);
            Covered(b, CallUses(e.callee, e.args, Tys(R), p), p, known)
    decreases fuel, |plan|, e, 1
  {
    GoodLookUp(R, p, e.callee);
    assert CallUses(e.callee, e.args, Tys(R), p) == Uses({}, {}, true);
    if fuel > 0 { SoundEnter(l.v.name, vs, R, p, known, plan, fuel - 1); }
  }

  lemma {:induction false} SoundNamed(
      name: string, args: seq<Expr>, vs: seq<Value>, R: Frames, p: Program, known: Known, plan: seq<Pick>, fuel: nat)
    requires Ready(p, known) && Good(R, p)
    ensures Covered(CallNamed(name, args, vs, R, p, plan, fuel), CallUses(name, args, Tys(R), p), p, known)
    decreases fuel, |plan|, args, 1
  {
    var u := CallUses(name, args, Tys(R), p);
    match CalleeOf(name, p)
    case Database => OpenTags(args, Next(plan), p); TagsOne(OpenDb(Text(args, Next(plan))), u.direct, p);
    case Native => BuiltinCarries(name, p); TagsOne(Builtin(name), u.direct, p);
    case Pluggable => TagsOne(Plugin(name), u.direct, p);
    case Function => if fuel > 0 { SoundEnter(name, vs, R, p, known, plan, fuel - 1); } else { NoTags(p); }
    case Variable => NoTags(p);
  }

  lemma NoTags(p: Program)
    ensures Tags({}, p) == {}
  {}

  /** Whatever string a database is opened with at run time, its tags are inferred. */
  lemma OpenTags(args: seq<Expr>, pick: Pick, p: Program)
    ensures forall t :: Carries(OpenDb(Text(args, pick)), t, p) ==> t in DbConnectEffect(args)
  {
    PostgresIff(Text(args, pick));
  }

  lemma BuiltinCarries(name: string, p: Program)
    requires name != "db_connect"
    ensures forall t :: Carries(Builtin(name), t, p) ==> t in BuiltinEffect(name)
  {
    forall t | Carries(Builtin(name), t, p) ensures t in BuiltinEffect(name) { BuiltinTags(name, t, p); }
  }

  lemma {:induction false} SoundSpawn(e: Expr, R: Frames, p: Program, known: Known, plan: seq<Pick>, fuel: nat)
    requires e.Spawn? && Ready(p, known) && Tame(e, Tys(R), p) && Good(R, p)
    ensures Covered(RunSpawn(e, R, p, plan, fuel), UsesOf(e, Tys(R), p), p, known)
    decreases fuel, |plan|, e, 2
  {
    SoundAll(e.args, R, p, known, plan, fuel);
    var (a, vs) := RunAll(e.args, R, p, plan, fuel);
    var u, v := UsesAll(e.args, Tys(R), p), SpawnUses(e.callee, p);
    MeaningAnd(u, v, known);
    if a.status.Go? {
      var b := if e.callee !in p.Names() then Still(a.frames, Plain, a.plan)
               else if fuel == 0 then Spent(a.frames, a.plan) else Enter(e.callee, vs, a.frames, p, a.plan, fuel - 1);
      NoTags(p);
      if e.callee in p.Names() && fuel > 0 { SoundEnter(e.callee, vs, a.frames, p, known, a.plan, fuel - 1); }
      Started(b, v, p, known);
      CoveredAnd(a, u, b.Doing(Start), v, p, known);
    }
  }

  lemma Started(b: Run, v: Uses, p: Program, known: Known)
    requires Concurrent in v.direct && (b.typed ==> Tags(b.did, p) <= Meaning(v, known))
    ensures b.typed ==> Tags(b.Doing(Start).did, p) <= Meaning(v, known)
  {
    TagsUnion(b.did, {Start}, p);
    TagsOne(Start, {Concurrent}, p);
  }

  lemma {:induction false} SoundSend(e: Expr, R: Frames, p: Program, known: Known, plan: seq<Pick>, fuel: nat)
    requires e.Send? && Ready(p, known) && Tame(e, Tys(R), p) && Good(R, p)
    ensures Covered(RunSend(e, R, p, plan, fuel), UsesOf(e, Tys(R), p), p, known)
    decreases fuel, |plan|, e, 2
  {
    SoundUse(e.target, R, p, known, plan, fuel);
    SoundExpr(e.target, R, p, known, plan, fuel);
    var a, fx := RunExpr(e.target, R, p, plan, fuel), TransferEffect(LocalTy(e.target, Tys(R)));
    var u, v := UsesOf(e.target, Tys(R), p), UsesOf(e.value, Tys(R), p);
    if a.status.Go? {
      if a.typed { SoundExpr(e.value, a.frames, p, known, a.plan, fuel); }
      var b, used := RunExpr(e.value, a.frames, p, a.plan, fuel), Used(a, Transfer(RealKind(a.status.v)));
      CoveredAnd(a, u, b, v, p, known);
      CoveredAnd(used, u.Do(fx), b, v, p, known);
      MeaningDo(u.And(v), fx, known);
      assert u.Do(fx).And(v) == u.And(v).Do(fx);
    } else {
      MeaningAnd(u, v, known);
      MeaningDo(u.And(v), fx, known);
    }
  }

  lemma {:induction false} SoundIf(e: Expr, R: Frames, p: Program, known: Known, plan: seq<Pick>, fuel: nat)
    requires e.If? && Ready(p, known) && TameIf(e, Tys(R), p) && Good(R, p)
    ensures Covered(RunIf(e, R, p, plan, fuel), UsesIf(e, Tys(R), p), p, known)
    decreases fuel, |plan|, e, 2
  {
    SoundExpr(e.cond, R, p, known, plan, fuel);
    var a := RunExpr(e.cond, R, p, plan, fuel);
    var u, v, w := UsesOf(e.cond, Tys(R), p), UsesBlock(e.thn, Tys(R), p), UsesElse(e.els, Tys(R), p);
    MeaningAnd(u, v, known);
    MeaningAnd(u.And(v), w, known);
    if a.status.Go? && a.typed {
      if Next(a.plan).n != 0 { SoundBlock(e.thn, a.frames, p, known, Rest(a.plan), fuel); }
      else { SoundElse(e.els, a.frames, p, known, Rest(a.plan), fuel); }
    }
  }

  lemma {:induction false} SoundElse(els: Else, R: Frames, p: Program, known: Known, plan: seq<Pick>, fuel: nat)
    requires Ready(p, known) && TameElse(els, Tys(R), p) && Good(R, p)
    ensures Covered(RunElse(els, R, p, plan, fuel), UsesElse(els, Tys(R), p), p, known)
    decreases fuel, |plan|, els
  {
    match els
    case NoElse =>
    case ElseBlock(b) => SoundBlock(b, R, p, known, plan, fuel);
    case ElseIf(e) => SoundExpr(e, R, p, known, plan, fuel);
  }

  lemma {:induction false} SoundMatch(e: Expr, R: Frames, p: Program, known: Known, plan: seq<Pick>, fuel: nat)
    requires e.Match? && Ready(p, known) && Tame(e, Tys(R), p) && Good(R, p)
    ensures Covered(RunMatch(e, R, p, plan, fuel), UsesOf(e, Tys(R), p), p, known)
    decreases fuel, |plan|, e, 2
  {
    SoundExpr(e.scrutinee, R, p, known, plan, fuel);
    var a := RunExpr(e.scrutinee, R, p, plan, fuel);
    MeaningAnd(UsesOf(e.scrutinee, Tys(R), p), UsesArms(e.arms, Tys(R), p), known);
    if a.status.Go? && e.arms != [] && a.typed {
      var k := Next(a.plan).n % |e.arms|;
      SoundArm(e.arms, k, a.frames, p, known, Next(a.plan).payload, Rest(a.plan), fuel);
    }
  }

  lemma {:induction false} SoundArm(
      arms: seq<Arm>, k: nat, R: Frames, p: Program, known: Known, payload: map<string, Value>, plan: seq<Pick>, fuel: nat)
    requires k < |arms| && Ready(p, known) && TameArms(arms, Tys(R), p) && Good(R, p)
    ensures Covered(RunArm(arms[k], R, p, payload, plan, fuel), UsesArms(arms, Tys(R), p), p, known)
    decreases fuel, |plan|, arms
  {
    var tys := ArmTys(arms[0], p.table);
    MeaningAnd(UsesOf(arms[0].body, Tys(R) + [tys], p), UsesArms(arms[1..], Tys(R), p), known);
    if k > 0 {
      SoundArm(arms[1..], k - 1, R, p, known, payload, plan, fuel);
    } else {
      var top := ArmLocals(tys, payload);
      assert Tys(R + [top]) == Tys(R) + [tys] by { assert FrameTys(top) == tys; }
      if AllFit(top) {
        GoodPush(R, p, top);
        SoundExpr(arms[0].body, R + [top], p, known, plan, fuel);
      }
    }
  }

  lemma {:induction false} SoundBlock(b: seq<Stmt>, R: Frames, p: Program, known: Known, plan: seq<Pick>, fuel: nat)
    requires Ready(p, known) && TameBlock(b, Tys(R), p) && Good(R, p)
    ensures Covered(RunBlock(b, R, p, plan, fuel), UsesBlock(b, Tys(R), p), p, known)
    decreases fuel, |plan|, b, 1
  {
    GoodPush(R, p, map[]);
    assert Tys(R + [map[]]) == Tys(R) + [map[]];
    SoundStmts(b, R + [map[]], p, known, plan, fuel);
  }

  lemma {:induction false} SoundStmts(b: seq<Stmt>, R: Frames, p: Program, known: Known, plan: seq<Pick>, fuel: nat)
    requires R != [] && Ready(p, known) && TameStmts(b, Tys(R), p) && Good(R, p)
    ensures Covered(RunStmts(b, R, p, plan, fuel), UsesStmts(b, Tys(R), p), p, known)
    decreases fuel, |plan|, b, 0
  {
    if b != [] {
      SoundOne(b[0], R, p, known, plan, fuel);
      var a := RunOne(b[0], R, p, plan, fuel);
      MeaningAnd(UsesOne(b[0], Tys(R), p), UsesStmts(b[1..], After(b[0], Tys(R)), p), known);
      if a.status.Go? && a.typed { SoundStmts(b[1..], a.frames, p, known, a.plan, fuel); }
    }
  }

  lemma {:induction false} SoundOne(s: Stmt, R: Frames, p: Program, known: Known, plan: seq<Pick>, fuel: nat)
    requires R != [] && Ready(p, known) && TameOne(s, Tys(R), p) && Good(R, p)
    ensures Covered(RunOne(s, R, p, plan, fuel), UsesOne(s, Tys(R), p), p, known)
    decreases fuel, |plan|, s, 1
  {
    match s
    case Let(x, ty, e) =>
      SoundExpr(e, R, p, known, plan, fuel);
      var a := RunExpr(e, R, p, plan, fuel);
      assert |Tys(a.frames)| == |a.frames| == |R|;
      if a.status.Go? && a.typed && Fits(a.status.v, ty) { GoodDefine(a.frames, p, x, Local(ty, a.status.v)); }
    case Return(v) => if v.Some? { SoundExpr(v.value, R, p, known, plan, fuel); }
    case While(_, _) => SoundLoop(s, R, p, known, plan, fuel);
    case ExprStmt(e) => SoundExpr(e, R, p, known, plan, fuel);
    case Audited(b) => SoundBlock(b, R, p, known, plan, fuel);
  }

  lemma {:induction false} SoundLoop(s: Stmt, R: Frames, p: Program, known: Known, plan: seq<Pick>, fuel: nat)
    requires s.While? && Ready(p, known) && TameOne(s, Tys(R), p) && Good(R, p)
    ensures Covered(RunLoop(s, R, p, plan, fuel), UsesOne(s, Tys(R), p), p, known)
    decreases fuel, |plan|, s, 0
  {
    SoundExpr(s.cond, R, p, known, plan, fuel);
    var a := RunExpr(s.cond, R, p, plan, fuel);
    MeaningAnd(UsesOf(s.cond, Tys(R), p), UsesBlock(s.body, Tys(R), p), known);
    if a.status.Go? && a.typed && Next(a.plan).n != 0 {
      SoundBlock(s.body, a.frames, p, known, Rest(a.plan), fuel);
      var b := RunBlock(s.body, a.frames, p, Rest(a.plan), fuel);
      if b.status.Go? && b.typed { SoundLoop(s, b.frames, p, known, b.plan, fuel); }
    }
  }

  /** Every effect of every well-typed run of a function of a tame program, through direct, recursive,
      spawned or function-value calls, is among those inferred for it. */
  lemma InferredCoversRuns(p: Program, known: Known, f: FnDecl, vs: seq<Value>, plan: seq<Pick>, fuel: nat)
    requires Closed(p, known) && TameProgram(p) && f in p.fns && RunFn(f, vs, p, plan, fuel).typed
    ensures forall op, t :: op in RunFn(f, vs, p, plan, fuel).did && Carries(op, t, p) ==> t in known[f.name]
  {
    SoundFn(f, vs, p, known, plan, fuel);
    assert Settled(p, known, f);
  }
}
