/** The types bindings really have: a match arm binds each payload at its declared type with the
    scrutinee's own type arguments put in, and a part of a value has the declared type of that part. */
module OwnershipTypes {
  import opened Prelude
  import opened Types
  import opened Registry
  import opened Affinity
  import opened Ownership

  /** A program with what type checking knows of it: the type of each `match`'s scrutinee. */
  datatype World = World(c: Ctx, types: map<nat, Ty>)

  // ---------------------------------------------------------------- parts and payloads

  function FieldOf(fields: seq<Field>, name: string): Option<Ty> {
    if fields == [] then None else if fields[0].name == name then Some(fields[0].ty) else FieldOf(fields[1..], name)
  }

  function RealPart(ty: Ty, part: Part, t: Table): Option<Ty> {
    match part
    case Content => if ty.Box? then Some(ty.inner) else None
    case FieldNamed(f) =>
      if !ty.Named? || ty.name !in t.structs then None
      else (match FieldOf(t.structs[ty.name].fields, f)
            case None => None
            case Some(declared) => Some(Instance(declared, t.structs[ty.name].typeParams, ty.args)))
  }

  /** A variant's own name, without the enum in front of it. */
  function LastSegment(name: string): string { match LastSep(name) case None => name case Some(i) => name[i + 2..] }

  function PayloadOf(vs: seq<Variant>, name: string): Option<seq<Ty>> {
    if vs == [] then None else if vs[0].name == name then Some(vs[0].payload) else PayloadOf(vs[1..], name)
  }

  /** The last of the first `n` positions that holds `x`. */
  function LastIndex(names: seq<string>, x: string, n: nat): (r: Option<nat>)
    ensures r.Some? ==> r.value < n && r.value < |names| && names[r.value] == x
    ensures forall i :: 0 <= i < n && i < |names| && names[i] == x ==> r.Some? && i <= r.value
  {
    if n == 0 then None else if n <= |names| && names[n - 1] == x then Some(n - 1) else LastIndex(names, x, n - 1)
  }

  /** What an arm binds when the scrutinee is a value of type `ty`. */
  function RealScope(arm: Arm, ty: Ty, t: Table): Scope {
    if !ty.Named? || ty.name !in t.enums then map[]
    else
      var d := t.enums[ty.name];
      match PayloadOf(d.variants, LastSegment(arm.variant))
      case None => map[]
      case Some(tys) =>
        map x | x in arm.bindings && LastIndex(arm.bindings, x, |tys|).Some? ::
          Slot(Instance(tys[LastIndex(arm.bindings, x, |tys|).value], d.typeParams, ty.args), false)
  }

  /** What the generic builtins give. */
  function BuiltinGives(name: string): Option<Ty> {
    match name
    case "json_parse" => Some(Named("Result", [Json, Str]))
    case "db_connect" => Some(Named("Result", [Db, Str]))
    case "env" => Some(Named("Result", [Str, Str]))
    case _ => None
  }

  /** The type of a scrutinee's value. */
  function RealTy(e: Expr, span: nat, R: Frames, w: World): Ty {
    match e
    case Ident(x) => (match Find(R, x) case None => Error case Some(i) => R[i][x].ty)
    case Call(f, _) =>
      if f in w.c.rets then w.c.rets[f]
      else if BuiltinGives(f).Some? then BuiltinGives(f).value
      else Recorded(span, w)
    case _ => Recorded(span, w)
  }

  function Recorded(span: nat, w: World): Ty { if span in w.types then w.types[span] else Error }

  // ---------------------------------------------------------------- owning

  /** A value of type `ty` has something to give away, or to free. */
  ghost predicate Owning(c: Ctx, ty: Ty) { Holds(c.table, ty) }

  /** `seen` has the same names as `actual`, and tracks every name whose real type leads to something
      affine. */
  ghost predicate Covers(seen: Scope, actual: Scope, c: Ctx) {
    seen.Keys == actual.Keys && forall x :: x in seen && x in actual && Owning(c, actual[x].ty) ==> c.Affine(seen[x].ty)
  }

  // ---------------------------------------------------------------- the checker's own instances

  lemma {:induction false} FieldIs(fields: seq<Field>, name: string)
    ensures FieldTy(fields, name) == FieldOf(fields, name)
  {
    if fields != [] { FieldIs(fields[1..], name); }
  }

  /** The checker takes a part to have the type it really has. */
  lemma PartIs(ty: Ty, part: Part, c: Ctx)
    ensures PartTy(ty, part, c) == RealPart(ty, part, c.table)
  {
    if part.FieldNamed? && ty.Named? && ty.name in c.table.structs {
      var d := c.table.structs[ty.name];
      FieldIs(d.fields, part.field);
      var f := FieldOf(d.fields, part.field);
      if f.Some? { InstanceIs(f.value, d.typeParams, ty.args); }
    }
  }

  lemma {:induction false} BindAllIs(names: seq<string>, tys: seq<Ty>, x: string)
    ensures var b, i := BindAll(names, tys), LastIndex(names, x, |tys|);
            (x in b <==> i.Some?) && (i.Some? ==> b[x] == Slot(tys[i.value], false))
  {
    if names != [] && tys != [] {
      var n := (if |names| < |tys| then |names| else |tys|) - 1;
      BindAllIs(names[..n], tys[..n], x);
      var j := LastIndex(names[..n], x, n);
      if names[n] != x && j.Some? { assert names[j.value] == x; }
      var i := LastIndex(names, x, |tys|);
      if i.Some? && i.value != n { assert names[..n][i.value] == x; }
    }
  }

  // ---------------------------------------------------------------- what an arm tracks

  /** The arm names a variant that the scrutinee's type declares, and has its payload. */
  ghost predicate Fitting(arm: Arm, ty: Ty, t: Table) {
    ty.Named? && ty.name in t.enums && |ty.args| == |t.enums[ty.name].typeParams|
    && FindVariant(t, arm.variant).Some? && FindVariant(t, arm.variant).value.0 == ty.name
    && PayloadOf(t.enums[ty.name].variants, LastSegment(arm.variant)) == Some(FindVariant(t, arm.variant).value.1.payload)
  }

  /** With the scrutinee's own type arguments, an arm binds each name at the declared type instantiated:
      its real type. */
  lemma KnownArms(arm: Arm, ty: Ty, c: Ctx)
    requires Fitting(arm, ty, c.table)
    ensures ArmScope(arm, Some(ty.args), c) == RealScope(arm, ty, c.table)
  {
    var params, tys := c.table.enums[ty.name].typeParams, FindVariant(c.table, arm.variant).value.1.payload;
    var seen, actual := ArmScope(arm, Some(ty.args), c), RealScope(arm, ty, c.table);
    forall x ensures (x in seen <==> x in actual) && (x in seen ==> seen[x] == actual[x]) {
      BoundAs(arm, tys, ZipTypeParams(params, ty.args), x);
      var i := LastIndex(arm.bindings, x, |tys|);
      if i.Some? { InstanceIs(tys[i.value], params, ty.args); }
    }
    assert seen.Keys == actual.Keys;
  }

  lemma BoundAs(arm: Arm, tys: seq<Ty>, s: Subst, x: string)
    ensures var b, i := BindAll(arm.bindings, SubstituteAll(tys, s)), LastIndex(arm.bindings, x, |tys|);
            (x in b <==> i.Some?) && (i.Some? ==> x in arm.bindings && b[x] == Slot(Substitute(tys[i.value], s), false))
  {
    BindAllIs(arm.bindings, SubstituteAll(tys, s), x);
  }

  /** A scrutinee whose type arguments can be told: a name, or a call of a function or generic builtin. */
  predicate Telling(e: Expr, c: Ctx) {
    e.Ident? || (e.Call? && (e.callee in c.rets || BuiltinGives(e.callee).Some?))
  }

  /** Where they can be told they are those of the scrutinee's real type, if a name has its real type in
      scope; elsewhere none are taken. */
  lemma ArgumentsTold(e: Expr, span: nat, S: Frames, T: Frames, w: World)
    requires e.Ident? && Find(S, e.name).Some? ==> Find(T, e.name) == Find(S, e.name)
    requires e.Ident? && Find(S, e.name).Some? ==> var i := Find(S, e.name).value; S[i][e.name].ty == T[i][e.name].ty
    requires RealTy(e, span, T, w).Named? && (e.Ident? ==> Find(S, e.name).Some?)
    ensures ConcreteArgs(e, S, w.c) == if Telling(e, w.c) then Some(RealTy(e, span, T, w).args) else None
  {
    if e.Call? { BuiltinIs(e.callee); }
  }

  lemma BuiltinIs(name: string)
    ensures BuiltinReturnTy(name) == BuiltinGives(name)
  {}

  // ---------------------------------------------------------------- unknown arguments

  /** Whatever leads to something affine in at most `n` steps under `s` also does under `s0`. */
  ghost predicate Dominates(t: Table, s: Subst, s0: Subst, n: nat) {
    s.Keys == s0.Keys
    && forall k, path :: k in s && Chain(t, path) && path[0] == s[k] && |path| <= n ==> Holds(t, s0[k])
  }

  lemma {:induction false} InstanceHolds(t: Table, ty: Ty, s: Subst, s0: Subst, path: seq<Ty>)
    requires Chain(t, path) && path[0] == Substitute(ty, s) && Dominates(t, s, s0, |path|)
    ensures Holds(t, Substitute(ty, s0))
    decreases |path|, 1
  {
    if ty.Named? && ty.args != [] {
      NamedHolds(t, ty, s, s0, path);
    } else if ty.Named? {
      if ty.name in s { assert path[0] == s[ty.name]; } else { assert Substitute(ty, s0) == Substitute(ty, s); }
    } else {
      OwnHolds(t, ty, s, s0, path);
    }
  }

  lemma BaseHolds(t: Table, ty: Ty)
    requires ty.IsBaseAffine()
    ensures Holds(t, ty)
  {
    var path := [ty];
    assert Chain(t, path);
  }

  /** A type that is no named one leads nowhere, so it is affine itself. */
  lemma OwnHolds(t: Table, ty: Ty, s: Subst, s0: Subst, path: seq<Ty>)
    requires !ty.Named? && Chain(t, path) && path[0] == Substitute(ty, s)
    ensures Holds(t, Substitute(ty, s0))
  {
    if |path| > 1 { PartAt(t, path, 0); }
    assert ty.IsBaseAffine() && Substitute(ty, s0).IsBaseAffine();
    BaseHolds(t, Substitute(ty, s0));
  }

  /** What stands inside the declaration of a named type, before it is instantiated. */
  function Declared(t: Table, name: string): seq<Ty> {
    if name in t.structs then FieldTys(t.structs[name].fields) else if name in t.enums then Payloads(t.enums[name].variants) else []
  }

  lemma PartsAre(t: Table, name: string, args: seq<Ty>)
    ensures Parts(t, Named(name, args)) == SubstituteAll(Declared(t, name), ZipTypeParams(ParamsOf(t, name), args))
  {}

  lemma {:induction false} NamedHolds(t: Table, ty: Ty, s: Subst, s0: Subst, path: seq<Ty>)
    requires ty.Named? && ty.args != [] && Chain(t, path) && path[0] == Substitute(ty, s) && Dominates(t, s, s0, |path|)
    ensures Holds(t, Substitute(ty, s0))
    decreases |path|, 0
  {
    var params, inside := ParamsOf(t, ty.name), Declared(t, ty.name);
    var z, z0 := ZipTypeParams(params, SubstituteAll(ty.args, s)), ZipTypeParams(params, SubstituteAll(ty.args, s0));
    var i := FirstPart(t, ty, s, path);
    ArgumentsDominate(t, ty.args, s, s0, params, |path|);
    InstanceHolds(t, inside[i], z, z0, path[1..]);
    InstancePart(t, ty, s0, i);
    Above(t, Substitute(ty, s0), Substitute(inside[i], z0));
  }

  /** A chain from an instance goes on at the instance of something declared inside it. */
  lemma FirstPart(t: Table, ty: Ty, s: Subst, path: seq<Ty>) returns (i: nat)
    requires ty.Named? && ty.args != [] && Chain(t, path) && path[0] == Substitute(ty, s)
    ensures |path| > 1 && i < |Declared(t, ty.name)| && Chain(t, path[1..])
    ensures path[1] == Substitute(Declared(t, ty.name)[i], ZipTypeParams(ParamsOf(t, ty.name), SubstituteAll(ty.args, s)))
  {
    SubstituteNamed(ty, s);
    PartsAre(t, ty.name, SubstituteAll(ty.args, s));
    PartAt(t, path, 0);
    TailLinked(Below(t), path, 1);
    i :| 0 <= i < |Parts(t, path[0])| && path[1] == Parts(t, path[0])[i];
  }

  lemma InstancePart(t: Table, ty: Ty, s: Subst, i: nat)
    requires ty.Named? && ty.args != [] && i < |Declared(t, ty.name)|
    ensures Substitute(Declared(t, ty.name)[i], ZipTypeParams(ParamsOf(t, ty.name), SubstituteAll(ty.args, s))) in Parts(t, Substitute(ty, s))
  {
    SubstituteNamed(ty, s);
    PartsAre(t, ty.name, SubstituteAll(ty.args, s));
    var parts := Parts(t, Substitute(ty, s));
    assert parts[i] in parts;
  }

  lemma Above(t: Table, ty: Ty, part: Ty)
    requires part in Parts(t, ty) && Holds(t, part)
    ensures Holds(t, ty)
  {
    var rest :| Chain(t, rest) && rest[0] == part;
    var path := [ty] + rest;
    JoinLinked(Below(t), [ty], rest);
    assert Chain(t, path) && path[0] == ty;
  }

  /** The arguments of a named type, instantiated both ways. */
  lemma {:induction false} ArgumentsDominate(t: Table, args: seq<Ty>, s: Subst, s0: Subst, params: seq<string>, n: nat)
    requires Dominates(t, s, s0, n) && n > 0
    ensures Dominates(t, ZipTypeParams(params, SubstituteAll(args, s)), ZipTypeParams(params, SubstituteAll(args, s0)), n - 1)
    decreases n, 0, |params|
  {
    var z, z0 := ZipTypeParams(params, SubstituteAll(args, s)), ZipTypeParams(params, SubstituteAll(args, s0));
    if params != [] && args != [] {
      ArgumentsDominate(t, args[1..], s, s0, params[1..], n);
      assert SubstituteAll(args, s)[1..] == SubstituteAll(args[1..], s) && SubstituteAll(args, s0)[1..] == SubstituteAll(args[1..], s0);
      forall k, path | k in z && Chain(t, path) && path[0] == z[k] && |path| <= n - 1 ensures Holds(t, z0[k]) {
        if k !in ZipTypeParams(params[1..], SubstituteAll(args[1..], s)) {
          assert Dominates(t, s, s0, |path|);
          InstanceHolds(t, args[0], s, s0, path);
        }
      }
    }
  }

  /** Without the type arguments every payload is taken to hold something affine wherever an argument
      could, so a binding whose real type leads to something affine has a type that does. */
  lemma UnknownArms(arm: Arm, ty: Ty, c: Ctx)
    requires Fitting(arm, ty, c.table)
    ensures var seen, actual := ArmScope(arm, None, c), RealScope(arm, ty, c.table);
            seen.Keys == actual.Keys && forall x :: x in seen && x in actual && Owning(c, actual[x].ty) ==> Owning(c, seen[x].ty)
  {
    var params, tys := c.table.enums[ty.name].typeParams, FindVariant(c.table, arm.variant).value.1.payload;
    var seen, actual := ArmScope(arm, None, c), RealScope(arm, ty, c.table);
    forall x ensures (x in seen <==> x in actual) && (x in seen && x in actual && Owning(c, actual[x].ty) ==> Owning(c, seen[x].ty)) {
      BoundAs(arm, tys, AllSentinel(params), x);
      var i := LastIndex(arm.bindings, x, |tys|);
      if i.Some? && Owning(c, actual[x].ty) { SentinelHolds(c.table, tys[i.value], params, ty.args); }
    }
    assert seen.Keys == actual.Keys;
  }

  lemma SentinelHolds(t: Table, ty: Ty, params: seq<string>, args: seq<Ty>)
    requires |args| == |params| && Holds(t, Instance(ty, params, args))
    ensures Holds(t, Substitute(ty, AllSentinel(params)))
  {
    var s, s0 := ZipTypeParams(params, args), AllSentinel(params);
    InstanceIs(ty, params, args);
    ZipKeys(params, args);
    var path :| Chain(t, path) && path[0] == Instance(ty, params, args);
    forall k | k in s ensures Holds(t, s0[k]) { BaseHolds(t, s0[k]); }
    InstanceHolds(t, ty, s, s0, path);
  }

  lemma {:induction false} ZipKeys(params: seq<string>, args: seq<Ty>)
    requires |args| == |params|
    ensures ZipTypeParams(params, args).Keys == set p | p in params
  {
    if params != [] {
      ZipKeys(params[1..], args[1..]);
      assert params == [params[0]] + params[1..];
    }
  }

  /** The arm of a well-typed match tracks every binding whose real type leads to something affine:
      whether or not the type arguments can be told, if what is found to lead to something is judged so. */
  lemma ArmsAreTracked(arm: Arm, ty: Ty, args: Option<seq<Ty>>, c: Ctx)
    requires Fitting(arm, ty, c.table) && (args == Some(ty.args) || args.None?)
    requires forall x :: x in ArmScope(arm, args, c) && Owning(c, ArmScope(arm, args, c)[x].ty) ==> c.Affine(ArmScope(arm, args, c)[x].ty)
    ensures Covers(ArmScope(arm, args, c), RealScope(arm, ty, c.table), c)
  {
    if args.Some? { KnownArms(arm, ty, c); } else { UnknownArms(arm, ty, c); }
  }
}
