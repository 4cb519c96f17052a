/** Which operation carries which tag, read tag by tag, and where a body holds its operations: an account
    of effects that does not go through what the inference collects. */
module EffectsTable {
  import opened Prelude
  import opened Types
  import opened Registry
  import opened Effects

  datatype Kind = ChannelKind | TcpKind | ListenerKind | FileKind | SandboxKind | OtherKind

  function KindOf(ty: Ty): Kind {
    if ty.Channel? then ChannelKind else if ty.Tcp? then TcpKind else if ty.TcpListener? then ListenerKind
    else if ty.File? then FileKind else if ty.Sandbox? then SandboxKind else OtherKind
  }

  /** What `connect`, `listen`, `accept`, `open` and `chan` give. */
  function MadeKind(m: Maker): Kind {
    match m case Listen => ListenerKind case Open => FileKind case MakeChannel => ChannelKind case Connect | Accept => TcpKind
  }

  /** An operation: `send` or `recv` and `stop` on a handle, the making of one, `spawn` or `sandbox`,
      `join`, `db_connect` with a string that is known or not, and a builtin of the language or a plugin. */
  datatype Op =
    | Transfer(kind: Kind)
    | Stopping(kind: Kind)
    | Making(maker: Maker)
    | Start
    | Await
    | OpenDb(text: string)
    | OpenSomeDb
    | Builtin(name: string)
    | Plugin(name: string)

  ghost predicate Postgres(text: string) {
    exists rest: string :: text == "postgres://" + rest || text == "postgresql://" + rest
  }

  ghost predicate Carries(op: Op, t: Effect, p: Program) {
    (op.Plugin? && op.name in p.plugins && t in p.plugins[op.name])
    || match t
       case Rng => op.Builtin? && op.name in {"rand_seed", "rand_f64", "rand_gaussian"}
       case Io =>
         (op.Builtin? && op.name in {"print", "sleep_ms", "db_query", "db_execute"}) || op.OpenDb? || op.OpenSomeDb?
         || op == Making(Open) || op == Transfer(FileKind) || op == Stopping(FileKind)
       case Concurrent => op.Start? || op.Await? || op == Transfer(ChannelKind) || op == Stopping(SandboxKind)
       case Network =>
         (op.Builtin? && op.name in {"http_get", "http_post", "https_get", "https_post", "call_via",
                                     "mq_connect", "mq_publish", "mq_consume", "mq_connect_via"})
         || (op.OpenDb? && Postgres(op.text)) || op.OpenSomeDb?
         || op == Making(Connect) || op == Making(Listen) || op == Making(Accept)
         || op == Transfer(TcpKind) || op == Stopping(TcpKind) || op == Stopping(ListenerKind)
       case Env => op.Builtin? && op.name == "env"
  }

  // ---------------------------------------------------------------- where operations stand

  /** An expression inside a body, with the bindings in scope there. */
  datatype Site = Site(e: Expr, S: Scopes)

  function Sites(e: Expr, S: Scopes, p: Program): set<Site>
    decreases e, 1
  {
    {Site(e, S)}
    + match e
      case Lit | StrLit(_) | Ident(_) => {}
      case Op(args) => SitesAll(args, S, p)
      case Call(_, args) => SitesAll(args, S, p)
      case If(_, _, _) => SitesIf(e, S, p)
      case Assign(_, rhs) => Sites(rhs, S, p)
      case Spawn(_, args, _) => SitesAll(args, S, p)
      case Join(inner) => Sites(inner, S, p)
      case Send(t, v) => Sites(t, S, p) + Sites(v, S, p)
      case Recv(t) => Sites(t, S, p)
      case Stop(inner) => Sites(inner, S, p)
      case Make(_, args) => SitesAll(args, S, p)
      case Acquire(_, proof) => Sites(proof, S, p)
      case Match(s, arms) => Sites(s, S, p) + SitesArms(arms, S, p)
  }

  function SitesAll(es: seq<Expr>, S: Scopes, p: Program): set<Site>
    decreases es
  {
    if es == [] then {} else Sites(es[0], S, p) + SitesAll(es[1..], S, p)
  }

  function SitesIf(e: Expr, S: Scopes, p: Program): set<Site>
    requires e.If?
    decreases e, 0
  {
    Sites(e.cond, S, p) + SitesBlock(e.thn, S, p) + SitesElse(e.els, S, p)
  }

  function SitesElse(els: Else, S: Scopes, p: Program): set<Site>
    decreases els
  {
    match els case NoElse => {} case ElseBlock(b) => SitesBlock(b, S, p) case ElseIf(e) => Sites(e, S, p)
  }

  function SitesArms(arms: seq<Arm>, S: Scopes, p: Program): set<Site>
    decreases arms
  {
    if arms == [] then {} else Sites(arms[0].body, S + [ArmTys(arms[0], p.table)], p) + SitesArms(arms[1..], S, p)
  }

  function SitesBlock(b: seq<Stmt>, S: Scopes, p: Program): set<Site>
    decreases b, 1
  {
    SitesStmts(b, S + [map[]], p)
  }

  function SitesStmts(b: seq<Stmt>, S: Scopes, p: Program): set<Site>
    requires S != []
    decreases b, 0
  {
    if b == [] then {} else SitesOne(b[0], S, p) + SitesStmts(b[1..], After(b[0], S), p)
  }

  function SitesOne(s: Stmt, S: Scopes, p: Program): set<Site>
    decreases s
  {
    match s
    case Let(_, _, e) => Sites(e, S, p)
    case Return(v) => if v.Some? then Sites(v.value, S, p) else {}
    case While(c, b) => Sites(c, S, p) + SitesBlock(b, S, p)
    case ExprStmt(e) => Sites(e, S, p)
    case Audited(b) => SitesBlock(b, S, p)
  }

  function SitesFn(f: FnDecl, p: Program): set<Site> { SitesStmts(f.body, [ParamTys(f.params)], p) }

  /** The kind of a target as the text shows it: that of a name's declared type, or of what is made there. */
  function KindAt(t: Expr, S: Scopes): Kind {
    match t case Ident(x) => KindOf(TyOf(S, x)) case Make(m, _) => MadeKind(m) case _ => OtherKind
  }

  /** What a name that is called stands for. */
  datatype Callee = Database | Native | Pluggable | Function | Variable

  function CalleeOf(name: string, p: Program): Callee {
    if name == "db_connect" then Database else if name in p.builtins then Native else if name in p.plugins then Pluggable
    else if name in p.Names() then Function else Variable
  }

  /** The operation an expression is, its operands aside. */
  ghost predicate IsOp(x: Site, op: Op, p: Program) {
    match x.e
    case Call(f, args) =>
      (match CalleeOf(f, p)
       case Database => op == if args != [] && args[0].StrLit? then OpenDb(args[0].s) else OpenSomeDb
       case Native => op == Builtin(f)
       case Pluggable => op == Plugin(f)
       case _ => false)
    case Spawn(_, _, _) => op == Start
    case Join(_) => op == Await
    case Send(t, _) => op == Transfer(KindAt(t, x.S))
    case Recv(t) => op == Transfer(KindAt(t, x.S))
    case Stop(t) => op == Stopping(KindAt(t, x.S))
    case Make(m, _) => op == Making(m)
    case _ => false
  }

  ghost predicate HasTag(x: Site, t: Effect, p: Program) { exists op :: IsOp(x, op, p) && Carries(op, t, p) }

  /** The expression starts the function called `m`, or a function value, which could be any. */
  predicate MayStart(x: Site, m: string, p: Program) {
    match x.e
    case Call(f, _) => if CalleeOf(f, p).Variable? then TyOf(x.S, f).Fn? else CalleeOf(f, p).Function? && f == m
    case Spawn(f, _, _) => f == m
    case _ => false
  }

  // ---------------------------------------------------------------- the scopes

  ghost predicate BoundAt(arm: Arm, t: Table, x: string, i: nat) {
    i < |arm.bindings| && arm.bindings[i] == x
    && FindVariant(t, arm.variant).Some? && i < |FindVariant(t, arm.variant).value.1.payload|
  }

  /** An arm binds each of its names for which the variant has a payload type, at that type as it is
      declared; of two bindings with one name the later counts. */
  lemma ArmBinds(arm: Arm, t: Table, x: string)
    ensures x in ArmTys(arm, t) <==> exists i :: BoundAt(arm, t, x, i)
    ensures x in ArmTys(arm, t) ==>
              exists i: nat :: BoundAt(arm, t, x, i) && ArmTys(arm, t)[x] == FindVariant(t, arm.variant).value.1.payload[i]
                          && forall j: nat :: j > i ==> !BoundAt(arm, t, x, j)
  {
    match FindVariant(t, arm.variant)
    case None => assert forall i: nat :: !BoundAt(arm, t, x, i);
    case Some((o, v)) =>
      var tys := BindTys(arm.bindings, v.payload);
      if x in tys {
        var i := BindsLast(arm.bindings, v.payload, x);
        assert BoundAt(arm, t, x, i) && forall j: nat :: j > i ==> !BoundAt(arm, t, x, j);
      } else if i: nat :| BoundAt(arm, t, x, i) {
        BindsAll(arm.bindings, v.payload, i);
      }
  }

  lemma {:induction false} BindsAll(names: seq<string>, tys: seq<Ty>, i: nat)
    requires i < |names| && i < |tys|
    ensures names[i] in BindTys(names, tys)
  {
    var n := (if |names| < |tys| then |names| else |tys|) - 1;
    if i < n { BindsAll(names[..n], tys[..n], i); }
  }

  lemma {:induction false} BindsLast(names: seq<string>, tys: seq<Ty>, x: string) returns (i: nat)
    requires x in BindTys(names, tys)
    ensures i < |names| && i < |tys| && names[i] == x && BindTys(names, tys)[x] == tys[i]
    ensures forall j: nat :: i < j < |names| && j < |tys| ==> names[j] != x
  {
    var n := (if |names| < |tys| then |names| else |tys|) - 1;
    if names[n] == x {
      i := n;
    } else {
      i := BindsLast(names[..n], tys[..n], x);
      forall j: nat | i < j < |names| && j < |tys| ensures names[j] != x {
        if j < n { assert names[..n][j] == names[j]; }
      }
    }
  }

  // ---------------------------------------------------------------- the tables agree

  lemma PostgresIff(s: string)
    ensures IsPostgres(s) <==> Postgres(s)
  {
    if IsPostgres(s) {
      var n := if StartsWith(s, "postgres://") then |"postgres://"| else |"postgresql://"|;
      assert s == s[..n] + s[n..];
    }
  }

  /** What the inference adds for a form is what the form's operation carries. */
  lemma TransferTags(ty: Ty, t: Effect, p: Program)
    ensures t in TransferEffect(ty) <==> Carries(Transfer(KindOf(ty)), t, p)
    ensures t in StopEffect(ty) <==> Carries(Stopping(KindOf(ty)), t, p)
  {}

  lemma MakeTags(m: Maker, t: Effect, p: Program)
    ensures t in MakeEffect(m) <==> Carries(Making(m), t, p)
  {}

  lemma CallTags(name: string, args: seq<Expr>, S: Scopes, p: Program, t: Effect)
    ensures t in CallUses(name, args, S, p).direct <==> HasTag(Site(Call(name, args), S), t, p)
  {
    var x := Site(Call(name, args), S);
    match CalleeOf(name, p)
    case Database =>
      if args != [] && args[0].StrLit? {
        PostgresIff(args[0].s);
        assert IsOp(x, OpenDb(args[0].s), p);
      } else {
        assert IsOp(x, OpenSomeDb, p);
      }
    case Native => BuiltinTags(name, t, p); assert IsOp(x, Builtin(name), p);
    case Pluggable => assert IsOp(x, Plugin(name), p);
    case _ =>
  }

  lemma BuiltinTags(name: string, t: Effect, p: Program)
    requires name != "db_connect"
    ensures t in BuiltinEffect(name) <==> Carries(Builtin(name), t, p)
  {}

  lemma KindsAgree(t: Expr, S: Scopes)
    ensures KindOf(LocalTy(t, S)) == KindAt(t, S)
  {}

  // ---------------------------------------------------------------- uses are what stands there

  ghost predicate SomeTag(X: set<Site>, t: Effect, p: Program) { exists x :: x in X && HasTag(x, t, p) }

  ghost predicate SomeStart(X: set<Site>, m: string, p: Program) { exists x :: x in X && MayStart(x, m, p) }

  ghost predicate Reflects(u: Uses, X: set<Site>, p: Program) {
    (forall t :: t in u.direct <==> SomeTag(X, t, p))
    && forall m :: m in p.Names() ==> ((m in u.callees || u.indirect) <==> SomeStart(X, m, p))
  }

  lemma ReflectsAnd(u: Uses, X: set<Site>, v: Uses, Y: set<Site>, p: Program)
    requires Reflects(u, X, p) && Reflects(v, Y, p)
    ensures Reflects(u.And(v), X + Y, p)
  {
    forall t ensures SomeTag(X + Y, t, p) <==> SomeTag(X, t, p) || SomeTag(Y, t, p) {}
    forall m ensures SomeStart(X + Y, m, p) <==> SomeStart(X, m, p) || SomeStart(Y, m, p) {}
  }

  lemma ReflectsNone(p: Program)
    ensures Reflects(NOTHING, {}, p)
  {}

  /** The form itself, after its operands. */
  lemma ReflectsForm(u: Uses, X: set<Site>, x: Site, own: Uses, p: Program)
    requires Reflects(u, X, p)
    requires forall t :: t in own.direct <==> HasTag(x, t, p)
    requires forall m :: m in p.Names() ==> ((m in own.callees || own.indirect) <==> MayStart(x, m, p))
    ensures Reflects(u.And(own), {x} + X, p)
  {
    assert Reflects(own, {x}, p) by {
      forall t ensures SomeTag({x}, t, p) <==> HasTag(x, t, p) {}
      forall m ensures SomeStart({x}, m, p) <==> MayStart(x, m, p) {}
    }
    ReflectsAnd(u, X, own, {x}, p);
    assert X + {x} == {x} + X;
  }

  lemma {:induction false} ReflectsExpr(e: Expr, S: Scopes, p: Program)
    ensures Reflects(UsesOf(e, S, p), Sites(e, S, p), p)
    decreases e, 1
  {
    match e
    case Lit | StrLit(_) | Ident(_) => ReflectsPlain(e, NOTHING, {}, S, p) by { ReflectsNone(p); }
    case Op(args) => ReflectsAll(args, S, p); ReflectsPlain(e, UsesAll(args, S, p), SitesAll(args, S, p), S, p);
    case Call(f, args) => ReflectsAll(args, S, p); ReflectsCall(e, UsesAll(args, S, p), SitesAll(args, S, p), S, p);
    case If(_, _, _) => ReflectsIf(e, S, p); ReflectsPlain(e, UsesIf(e, S, p), SitesIf(e, S, p), S, p);
    case Assign(_, rhs) => ReflectsExpr(rhs, S, p); ReflectsPlain(e, UsesOf(rhs, S, p), Sites(rhs, S, p), S, p);
    case Spawn(_, args, _) => ReflectsAll(args, S, p); ReflectsSpawn(e, UsesAll(args, S, p), SitesAll(args, S, p), S, p);
    case Join(inner) => ReflectsExpr(inner, S, p); ReflectsOp(e, UsesOf(inner, S, p), Sites(inner, S, p), S, Await, {Concurrent}, p);
    case Send(_, _) => ReflectsSend(e, S, p);
    case Recv(t) =>
      ReflectsExpr(t, S, p);
      TargetTags(t, S, p);
      ReflectsOp(e, UsesOf(t, S, p), Sites(t, S, p), S, Transfer(KindAt(t, S)), TransferEffect(LocalTy(t, S)), p);
    case Stop(t) =>
      ReflectsExpr(t, S, p);
      TargetTags(t, S, p);
      ReflectsOp(e, UsesOf(t, S, p), Sites(t, S, p), S, Stopping(KindAt(t, S)), StopEffect(LocalTy(t, S)), p);
    case Make(m, args) =>
      ReflectsAll(args, S, p);
      forall t ensures t in MakeEffect(m) <==> Carries(Making(m), t, p) { MakeTags(m, t, p); }
      ReflectsOp(e, UsesAll(args, S, p), SitesAll(args, S, p), S, Making(m), MakeEffect(m), p);
    case Acquire(_, proof) => ReflectsExpr(proof, S, p); ReflectsPlain(e, UsesOf(proof, S, p), Sites(proof, S, p), S, p);
    case Match(s, arms) =>
      ReflectsExpr(s, S, p);
      ReflectsArms(arms, S, p);
      var u, v, X, Y := UsesOf(s, S, p), UsesArms(arms, S, p), Sites(s, S, p), SitesArms(arms, S, p);
      ReflectsAnd(u, X, v, Y, p);
      ReflectsPlain(e, u.And(v), X + Y, S, p);
  }

  /** A form without an operation of its own. */
  lemma ReflectsPlain(e: Expr, u: Uses, X: set<Site>, S: Scopes, p: Program)
    requires Reflects(u, X, p) && !e.Call? && !e.Spawn? && forall op :: !IsOp(Site(e, S), op, p)
    ensures Reflects(u, {Site(e, S)} + X, p)
  {
    ReflectsForm(u, X, Site(e, S), NOTHING, p);
    assert u.And(NOTHING) == u;
  }

  /** A form with one operation that starts no function. */
  lemma ReflectsOp(e: Expr, u: Uses, X: set<Site>, S: Scopes, op: Op, fx: EffectSet, p: Program)
    requires Reflects(u, X, p) && !e.Call? && !e.Spawn?
    requires forall o :: IsOp(Site(e, S), o, p) <==> o == op
    requires forall t :: t in fx <==> Carries(op, t, p)
    ensures Reflects(u.Do(fx), {Site(e, S)} + X, p)
  {
    assert IsOp(Site(e, S), op, p);
    ReflectsForm(u, X, Site(e, S), NOTHING.Do(fx), p);
    assert u.And(NOTHING.Do(fx)) == u.Do(fx);
  }

  lemma TargetTags(t: Expr, S: Scopes, p: Program)
    ensures forall x :: x in TransferEffect(LocalTy(t, S)) <==> Carries(Transfer(KindAt(t, S)), x, p)
    ensures forall x :: x in StopEffect(LocalTy(t, S)) <==> Carries(Stopping(KindAt(t, S)), x, p)
  {
    KindsAgree(t, S);
    forall x ensures (x in TransferEffect(LocalTy(t, S)) <==> Carries(Transfer(KindAt(t, S)), x, p))
                     && (x in StopEffect(LocalTy(t, S)) <==> Carries(Stopping(KindAt(t, S)), x, p))
    {
      TransferTags(LocalTy(t, S), x, p);
    }
  }

  lemma ReflectsCall(e: Expr, u: Uses, X: set<Site>, S: Scopes, p: Program)
    requires e.Call? && Reflects(u, X, p)
    ensures Reflects(u.And(CallUses(e.callee, e.args, S, p)), {Site(e, S)} + X, p)
  {
    forall t ensures t in CallUses(e.callee, e.args, S, p).direct <==> HasTag(Site(e, S), t, p) { CallTags(e.callee, e.args, S, p, t); }
    ReflectsForm(u, X, Site(e, S), CallUses(e.callee, e.args, S, p), p);
  }

  lemma ReflectsSpawn(e: Expr, u: Uses, X: set<Site>, S: Scopes, p: Program)
    requires e.Spawn? && Reflects(u, X, p)
    ensures Reflects(u.And(SpawnUses(e.callee, p)), {Site(e, S)} + X, p)
  {
    assert IsOp(Site(e, S), Start, p);
    ReflectsForm(u, X, Site(e, S), SpawnUses(e.callee, p), p);
  }

  lemma {:induction false} ReflectsSend(e: Expr, S: Scopes, p: Program)
    requires e.Send?
    ensures Reflects(UsesOf(e, S, p), Sites(e, S, p), p)
    decreases e, 0
  {
    var t, v := e.target, e.value;
    ReflectsExpr(t, S, p);
    ReflectsExpr(v, S, p);
    ReflectsAnd(UsesOf(t, S, p), Sites(t, S, p), UsesOf(v, S, p), Sites(v, S, p), p);
    TargetTags(t, S, p);
    ReflectsOp(e, UsesOf(t, S, p).And(UsesOf(v, S, p)), Sites(t, S, p) + Sites(v, S, p), S,
               Transfer(KindAt(t, S)), TransferEffect(LocalTy(t, S)), p);
  }

  lemma {:induction false} ReflectsAll(es: seq<Expr>, S: Scopes, p: Program)
    ensures Reflects(UsesAll(es, S, p), SitesAll(es, S, p), p)
    decreases es
  {
    if es == [] {
      ReflectsNone(p);
    } else {
      ReflectsExpr(es[0], S, p);
      ReflectsAll(es[1..], S, p);
      ReflectsAnd(UsesOf(es[0], S, p), Sites(es[0], S, p), UsesAll(es[1..], S, p), SitesAll(es[1..], S, p), p);
    }
  }

  lemma {:induction false} ReflectsIf(e: Expr, S: Scopes, p: Program)
    requires e.If?
    ensures Reflects(UsesIf(e, S, p), SitesIf(e, S, p), p)
    decreases e, 0
  {
    ReflectsExpr(e.cond, S, p);
    ReflectsBlock(e.thn, S, p);
    ReflectsElse(e.els, S, p);
    var c, t, f := UsesOf(e.cond, S, p), UsesBlock(e.thn, S, p), UsesElse(e.els, S, p);
    var C, T, F := Sites(e.cond, S, p), SitesBlock(e.thn, S, p), SitesElse(e.els, S, p);
    ReflectsAnd(c, C, t, T, p);
    ReflectsAnd(c.And(t), C + T, f, F, p);
  }

  lemma {:induction false} ReflectsElse(els: Else, S: Scopes, p: Program)
    ensures Reflects(UsesElse(els, S, p), SitesElse(els, S, p), p)
    decreases els
  {
    match els
    case NoElse => ReflectsNone(p);
    case ElseBlock(b) => ReflectsBlock(b, S, p);
    case ElseIf(e) => ReflectsExpr(e, S, p);
  }

  lemma {:induction false} ReflectsArms(arms: seq<Arm>, S: Scopes, p: Program)
    ensures Reflects(UsesArms(arms, S, p), SitesArms(arms, S, p), p)
    decreases arms
  {
    if arms == [] {
      ReflectsNone(p);
    } else {
      var T := S + [ArmTys(arms[0], p.table)];
      ReflectsExpr(arms[0].body, T, p);
      ReflectsArms(arms[1..], S, p);
      ReflectsAnd(UsesOf(arms[0].body, T, p), Sites(arms[0].body, T, p), UsesArms(arms[1..], S, p), SitesArms(arms[1..], S, p), p);
    }
  }

  lemma {:induction false} ReflectsBlock(b: seq<Stmt>, S: Scopes, p: Program)
    ensures Reflects(UsesBlock(b, S, p), SitesBlock(b, S, p), p)
    decreases b, 1
  {
    ReflectsStmts(b, S + [map[]], p);
  }

  lemma {:induction false} ReflectsStmts(b: seq<Stmt>, S: Scopes, p: Program)
    requires S != []
    ensures Reflects(UsesStmts(b, S, p), SitesStmts(b, S, p), p)
    decreases b, 0
  {
    if b == [] {
      ReflectsNone(p);
    } else {
      var T := After(b[0], S);
      ReflectsOne(b[0], S, p);
      ReflectsStmts(b[1..], T, p);
      ReflectsAnd(UsesOne(b[0], S, p), SitesOne(b[0], S, p), UsesStmts(b[1..], T, p), SitesStmts(b[1..], T, p), p);
    }
  }

  lemma {:induction false} ReflectsOne(s: Stmt, S: Scopes, p: Program)
    requires S != []
    ensures Reflects(UsesOne(s, S, p), SitesOne(s, S, p), p)
    decreases s
  {
    match s
    case Let(_, _, e) => ReflectsExpr(e, S, p);
    case Return(v) => if v.Some? { ReflectsExpr(v.value, S, p); } else { ReflectsNone(p); }
    case While(c, b) =>
      ReflectsExpr(c, S, p);
      ReflectsBlock(b, S, p);
      ReflectsAnd(UsesOf(c, S, p), Sites(c, S, p), UsesBlock(b, S, p), SitesBlock(b, S, p), p);
    case ExprStmt(e) => ReflectsExpr(e, S, p);
    case Audited(b) => ReflectsBlock(b, S, p);
  }

  /** What the inference collects from a body is what stands in it: a tag comes from an operation that
      carries it, a callee from an expression that may start it. */
  lemma ReflectsFn(f: FnDecl, p: Program)
    ensures Reflects(UsesFn(f, p), SitesFn(f, p), p)
  {
    ReflectsStmts(f.body, [ParamTys(f.params)], p);
  }
}
