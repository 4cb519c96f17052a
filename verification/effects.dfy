/** What a function's body contributes to its effects: tags it performs itself, functions it calls, and
    whether it calls through a function value. */
module Effects {
  import opened Prelude
  import opened Types
  import opened Registry

  datatype Effect = Rng | Io | Concurrent | Network | Env
  type EffectSet = set<Effect>
  const ALL: EffectSet := {Rng, Io, Concurrent, Network, Env}

  lemma AllEffects(t: Effect)
    ensures t in ALL
  {}

  /** Forms that make a handle, and the ones that wait for one. */
  datatype Maker = Connect | Listen | Accept | Open | MakeChannel

  /** `Op` stands for every form without an effect of its own: operators, `box`, field and index
      access, array literals. `Spawn` is `spawn` and `sandbox`. */
  datatype Expr =
    | Lit
    | StrLit(s: string)
    | Ident(name: string)
    | Op(args: seq<Expr>)
    | Call(callee: string, args: seq<Expr>)
    | If(cond: Expr, thn: seq<Stmt>, els: Else)
    | Assign(name: string, rhs: Expr)
    | Spawn(callee: string, args: seq<Expr>, sandbox: bool)
    | Join(e: Expr)
    | Send(target: Expr, value: Expr)
    | Recv(target: Expr)
    | Stop(e: Expr)
    | Make(maker: Maker, args: seq<Expr>)
    | Acquire(gated: string, proof: Expr)
    | Match(scrutinee: Expr, arms: seq<Arm>)

  datatype Else = NoElse | ElseBlock(body: seq<Stmt>) | ElseIf(elif: Expr)
  datatype Arm = Arm(variant: string, bindings: seq<string>, body: Expr)

  datatype Stmt =
    | Let(name: string, ty: Ty, value: Expr)
    | Return(result: Option<Expr>)
    | While(cond: Expr, body: seq<Stmt>)
    | ExprStmt(e: Expr)
    | Audited(body: seq<Stmt>)

  datatype Param = Param(name: string, ty: Ty)
  datatype FnDecl = FnDecl(name: string, params: seq<Param>, body: seq<Stmt>)

  /** A program with what it runs against: the names of builtins, plugin builtins with their declared
      effects, and the type table. */
  datatype Program = Program(fns: seq<FnDecl>, builtins: set<string>, plugins: map<string, EffectSet>, table: Table) {
    function Names(): set<string> { set f | f in fns :: f.name }
    /** A name that is resolved without looking at local bindings. */
    predicate IsGlobal(name: string) {
      name == "db_connect" || name in builtins || name in plugins || name in Names()
    }
  }

  function BuiltinEffect(name: string): EffectSet {
    if name == "print" || name == "sleep_ms" || name == "db_connect" || name == "db_query" || name == "db_execute" then {Io}
    else if name == "rand_seed" || name == "rand_f64" || name == "rand_gaussian" then {Rng}
    else if name == "http_get" || name == "http_post" || name == "https_get" || name == "https_post" || name == "call_via"
            || name == "mq_connect" || name == "mq_publish" || name == "mq_consume" || name == "mq_connect_via" then {Network}
    else if name == "env" then {Env}
    else {}
  }

  predicate StartsWith(s: string, prefix: string) { |prefix| <= |s| && s[..|prefix|] == prefix }

  predicate IsPostgres(s: string) { StartsWith(s, "postgres://") || StartsWith(s, "postgresql://") }

  /** Network too, unless the connection string is a literal that is visibly not Postgres. */
  function DbConnectEffect(args: seq<Expr>): EffectSet {
    if args != [] && args[0].StrLit? && !IsPostgres(args[0].s) then {Io} else {Io, Network}
  }

  // ---------------------------------------------------------------- scopes

  type Scopes = seq<map<string, Ty>>

  function Find<T>(S: seq<map<string, T>>, name: string): (r: Option<nat>)
    ensures r.Some? ==> r.value < |S| && name in S[r.value] && forall j :: r.value < j < |S| ==> name !in S[j]
    ensures r.None? ==> forall j :: 0 <= j < |S| ==> name !in S[j]
  {
    if S == [] then None
    else if name in S[|S| - 1] then Some(|S| - 1)
    else Find(S[..|S| - 1], name)
  }

  function TyOf(S: Scopes, name: string): Ty {
    match Find(S, name) case None => Error case Some(i) => S[i][name]
  }

  function DefineTy(S: Scopes, name: string, ty: Ty): (r: Scopes)
    requires S != []
    ensures |r| == |S|
  {
    S[|S| - 1 := S[|S| - 1][name := ty]]
  }

  function HandleTy(m: Maker): Ty {
    match m case Connect | Accept => Tcp case Listen => TcpListener case Open => File case MakeChannel => Channel(Error)
  }

  /** The type of a target, where it can be looked up. */
  function LocalTy(e: Expr, S: Scopes): Ty {
    match e
    case Ident(x) => TyOf(S, x)
    case Make(m, _) => HandleTy(m)
    case _ => Error
  }

  function TransferEffect(ty: Ty): EffectSet {
    if ty.Channel? then {Concurrent} else if ty.Tcp? then {Network} else if ty.File? then {Io} else {}
  }

  function StopEffect(ty: Ty): EffectSet {
    if ty.Sandbox? then {Concurrent} else if ty.Tcp? || ty.TcpListener? then {Network} else if ty.File? then {Io} else {}
  }

  function MakeEffect(m: Maker): EffectSet {
    match m case Connect | Listen | Accept => {Network} case Open => {Io} case MakeChannel => {}
  }

  function BindTys(names: seq<string>, tys: seq<Ty>): map<string, Ty> {
    if names == [] || tys == [] then map[]
    else var n := (if |names| < |tys| then |names| else |tys|) - 1; BindTys(names[..n], tys[..n])[names[n] := tys[n]]
  }

  /** An arm's bindings, at the payload types as declared: type parameters are not substituted. */
  function ArmTys(arm: Arm, t: Table): map<string, Ty> {
    match FindVariant(t, arm.variant) case None => map[] case Some((_, v)) => BindTys(arm.bindings, v.payload)
  }

  // ---------------------------------------------------------------- what a body uses

  datatype Uses = Uses(direct: EffectSet, callees: set<string>, indirect: bool) {
    function And(u: Uses): Uses { Uses(direct + u.direct, callees + u.callees, indirect || u.indirect) }
    function Do(fx: EffectSet): Uses { this.(direct := direct + fx) }
  }

  const NOTHING := Uses({}, {}, false)

  /** How a call by `name` is classified. */
  function CallUses(name: string, args: seq<Expr>, S: Scopes, p: Program): Uses {
    if name == "db_connect" then NOTHING.Do(DbConnectEffect(args))
    else if name in p.builtins then NOTHING.Do(BuiltinEffect(name))
    else if name in p.plugins then NOTHING.Do(p.plugins[name])
    else if name in p.Names() then Uses({}, {name}, false)
    else if TyOf(S, name).Fn? then Uses({}, {}, true)
    else NOTHING
  }

  /** A spawned function's effects are the spawner's. */
  function SpawnUses(name: string, p: Program): Uses {
    Uses({Concurrent}, if name in p.Names() then {name} else {}, false)
  }

  function UsesOf(e: Expr, S: Scopes, p: Program): Uses
    decreases e, 1
  {
    match e
    case Lit | StrLit(_) | Ident(_) => NOTHING
    case Op(args) => UsesAll(args, S, p)
    case Call(f, args) => UsesAll(args, S, p).And(CallUses(f, args, S, p))
    case If(_, _, _) => UsesIf(e, S, p)
    case Assign(_, rhs) => UsesOf(rhs, S, p)
    case Spawn(f, args, _) => UsesAll(args, S, p).And(SpawnUses(f, p))
    case Join(inner) => UsesOf(inner, S, p).Do({Concurrent})
    case Send(t, v) => UsesOf(t, S, p).And(UsesOf(v, S, p)).Do(TransferEffect(LocalTy(t, S)))
    case Recv(t) => UsesOf(t, S, p).Do(TransferEffect(LocalTy(t, S)))
    case Stop(inner) => UsesOf(inner, S, p).Do(StopEffect(LocalTy(inner, S)))
    case Make(m, args) => UsesAll(args, S, p).Do(MakeEffect(m))
    case Acquire(_, proof) => UsesOf(proof, S, p)
    case Match(s, arms) => UsesOf(s, S, p).And(UsesArms(arms, S, p))
  }

  function UsesAll(es: seq<Expr>, S: Scopes, p: Program): Uses
    decreases es
  {
    if es == [] then NOTHING else UsesOf(es[0], S, p).And(UsesAll(es[1..], S, p))
  }

  function UsesIf(e: Expr, S: Scopes, p: Program): Uses
    requires e.If?
    decreases e, 0
  {
    UsesOf(e.cond, S, p).And(UsesBlock(e.thn, S, p)).And(UsesElse(e.els, S, p))
  }

  function UsesElse(els: Else, S: Scopes, p: Program): Uses
    decreases els
  {
    match els case NoElse => NOTHING case ElseBlock(b) => UsesBlock(b, S, p) case ElseIf(e) => UsesOf(e, S, p)
  }

  function UsesArms(arms: seq<Arm>, S: Scopes, p: Program): Uses
    decreases arms
  {
    if arms == [] then NOTHING
    else UsesOf(arms[0].body, S + [ArmTys(arms[0], p.table)], p).And(UsesArms(arms[1..], S, p))
  }

  function UsesBlock(b: seq<Stmt>, S: Scopes, p: Program): Uses
    decreases b, 1
  {
    UsesStmts(b, S + [map[]], p)
  }

  function UsesStmts(b: seq<Stmt>, S: Scopes, p: Program): Uses
    requires S != []
    decreases b, 0
  {
    if b == [] then NOTHING else UsesOne(b[0], S, p).And(UsesStmts(b[1..], After(b[0], S), p))
  }

  /** The scopes after a statement. */
  function After(s: Stmt, S: Scopes): (r: Scopes)
    requires S != []
    ensures |r| == |S|
  {
    if s.Let? then DefineTy(S, s.name, s.ty) else S
  }

  function UsesOne(s: Stmt, S: Scopes, p: Program): Uses
    decreases s
  {
    match s
    case Let(_, _, e) => UsesOf(e, S, p)
    case Return(v) => if v.Some? then UsesOf(v.value, S, p) else NOTHING
    case While(c, b) => UsesOf(c, S, p).And(UsesBlock(b, S, p))
    case ExprStmt(e) => UsesOf(e, S, p)
    case Audited(b) => UsesBlock(b, S, p)
  }

  function ParamTys(params: seq<Param>): map<string, Ty> {
    if params == [] then map[]
    else var n := |params| - 1; ParamTys(params[..n])[params[n].name := params[n].ty]
  }

  function UsesFn(f: FnDecl, p: Program): Uses { UsesStmts(f.body, [ParamTys(f.params)], p) }

  // ---------------------------------------------------------------- effects, given every function's

  type Known = map<string, EffectSet>

  /** The tags of the functions in `names`. */
  function Union(known: Known, names: set<string>): (r: EffectSet)
    ensures forall t :: t in r <==> exists n :: n in names && n in known && t in known[n]
  {
    set n, t | n in names && n in known && t in known[n] :: t
  }

  /** What `u` amounts to when every function's effects are `known`: a call through a function value
      can be a call of any function. */
  function Meaning(u: Uses, known: Known): EffectSet {
    u.direct + Union(known, u.callees) + (if u.indirect then Union(known, known.Keys) else {})
  }

  lemma MeaningAnd(u: Uses, v: Uses, known: Known)
    ensures Meaning(u.And(v), known) == Meaning(u, known) + Meaning(v, known)
  {}

  lemma MeaningDo(u: Uses, fx: EffectSet, known: Known)
    ensures Meaning(u.Do(fx), known) == Meaning(u, known) + fx
  {}
}
