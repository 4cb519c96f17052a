/** The table of user-declared types: how it is built, how variants are found in it, and
    substitution of type arguments. */
module Registry {
  import opened Prelude
  import opened Types

  datatype Field = Field(name: string, ty: Ty)
  datatype StructDecl = StructDecl(ns: Option<string>, name: string, typeParams: seq<string>, fields: seq<Field>)
  datatype Variant = Variant(name: string, payload: seq<Ty>)
  datatype EnumDecl = EnumDecl(ns: Option<string>, name: string, typeParams: seq<string>, variants: seq<Variant>)

  datatype Table = Table(
    structs: map<string, StructDecl>, enums: map<string, EnumDecl>, variantOwner: map<string, (string, Variant)>)
  {
    function Declared(): set<string> { structs.Keys + enums.Keys }
  }

  const SEP := "::"

  /** The key a declaration is stored under; also how a qualified reference is spelled. */
  function ScopeKey(ns: Option<string>, name: string): string {
    match ns case None => name case Some(n) => n + SEP + name
  }

  // ---------------------------------------------------------------- building

  function Structs(ss: seq<StructDecl>): map<string, StructDecl> {
    if ss == [] then map[]
    else var s := ss[|ss| - 1]; Structs(ss[..|ss| - 1])[ScopeKey(s.ns, s.name) := s]
  }

  function Enums(es: seq<EnumDecl>): map<string, EnumDecl> {
    if es == [] then map[]
    else var e := es[|es| - 1]; Enums(es[..|es| - 1])[ScopeKey(e.ns, e.name) := e]
  }

  function OwnVariants(owner: string, vs: seq<Variant>, into: map<string, (string, Variant)>): map<string, (string, Variant)> {
    if vs == [] then into
    else var v := vs[|vs| - 1]; OwnVariants(owner, vs[..|vs| - 1], into)[v.name := (owner, v)]
  }

  /** Only top-level enums put their variants within reach of a bare name. */
  function Owners(es: seq<EnumDecl>): map<string, (string, Variant)> {
    if es == [] then map[]
    else
      var e := es[|es| - 1];
      var before := Owners(es[..|es| - 1]);
      if e.ns.None? then OwnVariants(e.name, e.variants, before) else before
  }

  method Build(ss: seq<StructDecl>, es: seq<EnumDecl>) returns (t: Table)
    ensures t == Table(Structs(ss), Enums(es), Owners(es))
  {
    var structs: map<string, StructDecl> := map[];
    for i := 0 to |ss|
      invariant structs == Structs(ss[..i])
    {
      assert ss[..i + 1][..i] == ss[..i];
      structs := structs[ScopeKey(ss[i].ns, ss[i].name) := ss[i]];
    }
    assert ss[..|ss|] == ss;
    var enums: map<string, EnumDecl> := map[];
    var owners: map<string, (string, Variant)> := map[];
    for i := 0 to |es|
      invariant enums == Enums(es[..i]) && owners == Owners(es[..i])
    {
      var e := es[i];
      assert es[..i + 1][..i] == es[..i];
      enums := enums[ScopeKey(e.ns, e.name) := e];
      if e.ns.None? {
        ghost var before := owners;
        for k := 0 to |e.variants|
          invariant owners == OwnVariants(e.name, e.variants[..k], before)
        {
          assert e.variants[..k + 1][..k] == e.variants[..k];
          owners := owners[e.variants[k].name := (e.name, e.variants[k])];
        }
        assert e.variants[..|e.variants|] == e.variants;
      }
    }
    assert es[..|es|] == es;
    t := Table(structs, enums, owners);
  }

  // ---------------------------------------------------------------- finding a variant

  predicate SepAt(s: string, i: int) { 0 <= i && i + 2 <= |s| && s[i] == ':' && s[i + 1] == ':' }

  /** Where the last `::` of `s` starts. */
  function LastSep(s: string): (r: Option<nat>)
    ensures r.Some? ==> SepAt(s, r.value)
    ensures forall i :: SepAt(s, i) ==> r.Some? && i <= r.value
  {
    LastSepBelow(s, |s|)
  }

  function LastSepBelow(s: string, n: nat): (r: Option<nat>)
    ensures r.Some? ==> r.value < n && SepAt(s, r.value)
    ensures forall i :: SepAt(s, i) && i < n ==> r.Some? && i <= r.value
  {
    if n == 0 then None else if SepAt(s, n - 1) then Some(n - 1) else LastSepBelow(s, n - 1)
  }

  function FindIn(vs: seq<Variant>, name: string): Option<Variant> {
    if vs == [] then None else if vs[0].name == name then Some(vs[0]) else FindIn(vs[1..], name)
  }

  /** A qualified name splits at its last `::` into an enum's key and a variant; a bare name is looked
      up among the top-level enums' variants. */
  function FindVariant(t: Table, name: string): Option<(string, Variant)> {
    match LastSep(name)
    case Some(i) =>
      var owner, short := name[..i], name[i + 2..];
      if owner !in t.enums then None
      else (match FindIn(t.enums[owner].variants, short) case None => None case Some(v) => Some((owner, v)))
    case None => if name in t.variantOwner then Some(t.variantOwner[name]) else None
  }

  predicate HasColon(s: string) { ':' in s }

  lemma NoSepAfter(owner: string, short: string, i: int)
    requires !HasColon(short) && i > |owner|
    ensures !SepAt(owner + SEP + short, i)
  {
    var s := owner + SEP + short;
    if i + 2 <= |s| { assert s[i + 1] == short[i - |owner| - 1]; }
  }

  lemma QualifiedName(owner: string, short: string)
    requires !HasColon(short)
    ensures LastSep(owner + SEP + short) == Some(|owner|)
    ensures var s := owner + SEP + short; s[..|owner|] == owner && s[|owner| + 2..] == short
  {
    var s := owner + SEP + short;
    assert SepAt(s, |owner|);
    if LastSep(s).value > |owner| { NoSepAfter(owner, short, LastSep(s).value); }
  }

  /** A qualified reference reaches exactly the named enum's own variant of that name. */
  lemma QualifiedReachesItsEnum(t: Table, e: EnumDecl, short: string)
    requires !HasColon(short)
    requires ScopeKey(e.ns, e.name) in t.enums && t.enums[ScopeKey(e.ns, e.name)] == e
    ensures var r := FindVariant(t, ScopeKey(e.ns, e.name) + SEP + short);
            r == match FindIn(e.variants, short) case None => None case Some(v) => Some((ScopeKey(e.ns, e.name), v))
  {
    QualifiedName(ScopeKey(e.ns, e.name), short);
  }

  lemma OwnerInTopLevel(es: seq<EnumDecl>, name: string)
    requires name in Owners(es)
    ensures exists e :: e in es && e.ns.None? && e.name == Owners(es)[name].0 && Owners(es)[name].1 in e.variants
                        && Owners(es)[name].1.name == name
  {
    var e := es[|es| - 1];
    var before := Owners(es[..|es| - 1]);
    if e.ns.None? { OwnedOrBefore(e.name, e.variants, before, name); }
    if name in before && Owners(es)[name] == before[name] { OwnerInTopLevel(es[..|es| - 1], name); }
  }

  lemma OwnedOrBefore(owner: string, vs: seq<Variant>, into: map<string, (string, Variant)>, name: string)
    requires name in OwnVariants(owner, vs, into)
    ensures var r := OwnVariants(owner, vs, into)[name];
            (name in into && r == into[name]) || (r.0 == owner && r.1 in vs && r.1.name == name)
  {
    if vs != [] {
      if vs[|vs| - 1].name != name { OwnedOrBefore(owner, vs[..|vs| - 1], into, name); }
    }
  }

  lemma OwnersSkipNamespaced(a: seq<EnumDecl>, e: EnumDecl, b: seq<EnumDecl>)
    requires e.ns.Some?
    ensures Owners(a + [e] + b) == Owners(a + b)
  {
    if b == [] {
      assert (a + [e] + b)[..|a|] == a && a + b == a;
    } else {
      var n := |b| - 1;
      OwnersSkipNamespaced(a, e, b[..n]);
      assert (a + [e] + b)[..|a| + 1 + n] == a + [e] + b[..n];
      assert (a + b)[..|a| + n] == a + b[..n];
    }
  }

  /** Declaring one more namespaced enum changes what no bare name means. */
  lemma NamespacedEnumsNeverCollide(ss: seq<StructDecl>, a: seq<EnumDecl>, e: EnumDecl, b: seq<EnumDecl>, name: string)
    requires e.ns.Some? && !HasColon(name)
    ensures FindVariant(Table(Structs(ss), Enums(a + [e] + b), Owners(a + [e] + b)), name)
            == FindVariant(Table(Structs(ss), Enums(a + b), Owners(a + b)), name)
  {
    assert LastSep(name).None?;
    OwnersSkipNamespaced(a, e, b);
  }

  /** Of several declarations with one key the last counts. */
  lemma {:induction false} LastStruct(ss: seq<StructDecl>, key: string) returns (i: nat)
    requires key in Structs(ss)
    ensures i < |ss| && ScopeKey(ss[i].ns, ss[i].name) == key && Structs(ss)[key] == ss[i]
    ensures forall j :: i < j < |ss| ==> ScopeKey(ss[j].ns, ss[j].name) != key
  {
    i := |ss| - 1;
    if ScopeKey(ss[i].ns, ss[i].name) != key { i := LastStruct(ss[..i], key); }
  }

  lemma {:induction false} LastEnum(es: seq<EnumDecl>, key: string) returns (i: nat)
    requires key in Enums(es)
    ensures i < |es| && ScopeKey(es[i].ns, es[i].name) == key && Enums(es)[key] == es[i]
    ensures forall j :: i < j < |es| ==> ScopeKey(es[j].ns, es[j].name) != key
  {
    i := |es| - 1;
    if ScopeKey(es[i].ns, es[i].name) != key { i := LastEnum(es[..i], key); }
  }

  lemma {:induction false} AllDeclared(ss: seq<StructDecl>, es: seq<EnumDecl>, i: nat)
    ensures i < |ss| ==> ScopeKey(ss[i].ns, ss[i].name) in Structs(ss)
    ensures i < |es| ==> ScopeKey(es[i].ns, es[i].name) in Enums(es)
    decreases |ss| + |es|
  {
    if i < |ss| - 1 { AllDeclared(ss[..|ss| - 1], [], i); }
    if i < |es| - 1 { AllDeclared([], es[..|es| - 1], i); }
  }

  /** A bare name finds the variant of that name that a top-level enum declares, the last such. */
  ghost predicate LastVariant(es: seq<EnumDecl>, name: string, i: nat, j: nat) {
    i < |es| && es[i].ns.None? && j < |es[i].variants| && es[i].variants[j].name == name
    && (forall b :: j < b < |es[i].variants| ==> es[i].variants[b].name != name)
    && forall a, b :: i < a < |es| && es[a].ns.None? && 0 <= b < |es[a].variants| ==> es[a].variants[b].name != name
  }

  lemma {:induction false} LastOwn(owner: string, vs: seq<Variant>, into: map<string, (string, Variant)>, name: string) returns (j: Option<nat>)
    ensures j.Some? ==> j.value < |vs| && vs[j.value].name == name && (forall b :: j.value < b < |vs| ==> vs[b].name != name)
                        && name in OwnVariants(owner, vs, into) && OwnVariants(owner, vs, into)[name] == (owner, vs[j.value])
    ensures j.None? ==> (forall b :: 0 <= b < |vs| ==> vs[b].name != name) && (name in OwnVariants(owner, vs, into) <==> name in into)
                        && (name in into ==> OwnVariants(owner, vs, into)[name] == into[name])
  {
    if vs == [] { j := None; }
    else {
      var n := |vs| - 1;
      if vs[n].name == name { j := Some(n); } else { j := LastOwn(owner, vs[..n], into, name); }
    }
  }

  lemma {:induction false} OwnersLast(es: seq<EnumDecl>, name: string) returns (found: bool, i: nat, j: nat)
    ensures found <==> name in Owners(es)
    ensures found ==> LastVariant(es, name, i, j) && Owners(es)[name] == (es[i].name, es[i].variants[j])
    ensures !found ==> forall a, b :: 0 <= a < |es| && es[a].ns.None? && 0 <= b < |es[a].variants| ==> es[a].variants[b].name != name
  {
    found, i, j := false, 0, 0;
    if es != [] {
      var n := |es| - 1;
      found, i, j := OwnersLast(es[..n], name);
      if es[n].ns.None? {
        var own := LastOwn(es[n].name, es[n].variants, Owners(es[..n]), name);
        if own.Some? { found, i, j := true, n, own.value; }
      }
    }
  }

  lemma BareNameFinds(structs: map<string, StructDecl>, es: seq<EnumDecl>, name: string)
    requires !HasColon(name)
    ensures var r := FindVariant(Table(structs, Enums(es), Owners(es)), name);
            if r.Some? then exists i: nat, j: nat :: LastVariant(es, name, i, j) && r.value == (es[i].name, es[i].variants[j])
            else forall a, b :: 0 <= a < |es| && es[a].ns.None? && 0 <= b < |es[a].variants| ==> es[a].variants[b].name != name
  {
    assert LastSep(name).None?;
    var found, i, j := OwnersLast(es, name);
  }

  // ---------------------------------------------------------------- substitution

  type Subst = map<string, Ty>

  /** `zip` stops at the shorter list; a repeated parameter keeps its last argument. */
  function ZipTypeParams(params: seq<string>, args: seq<Ty>): Subst {
    if params == [] || args == [] then map[]
    else map[params[0] := args[0]] + ZipTypeParams(params[1..], args[1..])
  }

  function Substitute(ty: Ty, s: Subst): Ty {
    match ty
    case Named(name, args) =>
      if args == [] then if name in s then s[name] else ty
      else Named(name, SubstituteAll(args, s))
    case Box(i) => Box(Substitute(i, s))
    case Froze(i) => Froze(Substitute(i, s))
    case Ref(i) => Ref(Substitute(i, s))
    case Thread(i) => Thread(Substitute(i, s))
    case Channel(i) => Channel(Substitute(i, s))
    case Vector(i, n) => Vector(Substitute(i, s), n)
    case Matrix(i, r, c) => Matrix(Substitute(i, s), r, c)
    case _ => ty
  }

  function SubstituteAll(tys: seq<Ty>, s: Subst): (r: seq<Ty>)
    ensures |r| == |tys| && forall i :: 0 <= i < |tys| ==> r[i] == Substitute(tys[i], s)
  {
    if tys == [] then [] else [Substitute(tys[0], s)] + SubstituteAll(tys[1..], s)
  }

  lemma {:induction false} SubstituteNothing(ty: Ty)
    ensures Substitute(ty, map[]) == ty
  {
    match ty
    case Named(_, args) =>
      forall i | 0 <= i < |args| ensures SubstituteAll(args, map[])[i] == args[i] { SubstituteNothing(args[i]); }
    case Box(i) => SubstituteNothing(i);
    case Froze(i) => SubstituteNothing(i);
    case Ref(i) => SubstituteNothing(i);
    case Thread(i) => SubstituteNothing(i);
    case Channel(i) => SubstituteNothing(i);
    case Vector(i, _) => SubstituteNothing(i);
    case Matrix(i, _, _) => SubstituteNothing(i);
    case _ =>
  }

  /** The bare names of a type, where a parameter could be. */
  function BareNames(ty: Ty): set<string> {
    match ty
    case Named(name, args) => if args == [] then {name} else BareNamesAll(args)
    case Box(i) => BareNames(i)
    case Froze(i) => BareNames(i)
    case Ref(i) => BareNames(i)
    case Thread(i) => BareNames(i)
    case Channel(i) => BareNames(i)
    case Vector(i, _) => BareNames(i)
    case Matrix(i, _, _) => BareNames(i)
    case _ => {}
  }

  function BareNamesAll(tys: seq<Ty>): (r: set<string>)
    ensures forall i :: 0 <= i < |tys| ==> BareNames(tys[i]) <= r
  {
    if tys == [] then {} else BareNames(tys[0]) + BareNamesAll(tys[1..])
  }

  function Compose(inner: Subst, outer: Subst): Subst {
    map k | k in inner :: Substitute(inner[k], outer)
  }

  /** No name that `inner` leaves alone is one `outer` replaces. */
  predicate NotCaptured(names: set<string>, inner: Subst, outer: Subst) {
    forall n :: n in names && n in outer ==> n in inner
  }

  /** Substituting twice is substituting the composition, unless the outer substitution captures a
      name the inner one left alone. */
  lemma {:induction false} SubstituteTwice(ty: Ty, inner: Subst, outer: Subst)
    requires NotCaptured(BareNames(ty), inner, outer)
    ensures Substitute(Substitute(ty, inner), outer) == Substitute(ty, Compose(inner, outer))
    decreases ty, 1
  {
    if ty.Named? {
      if ty.args != [] {
        SubstituteAllTwice(ty.args, inner, outer);
        assert Substitute(ty, inner) == Named(ty.name, SubstituteAll(ty.args, inner));
      }
    } else if ty.Vector? || ty.Matrix? {
      TwiceInShape(ty, inner, outer);
    } else if ty.Box? || ty.Froze? {
      TwiceInCell(ty, inner, outer);
    } else if ty.Thread? || ty.Channel? {
      TwiceInLink(ty, inner, outer);
    } else if ty.Ref? {
      TwiceInRef(ty, inner, outer);
    }
  }

  lemma {:induction false} TwiceInShape(ty: Ty, inner: Subst, outer: Subst)
    requires ty.Vector? || ty.Matrix?
    requires NotCaptured(BareNames(ty), inner, outer)
    ensures Substitute(Substitute(ty, inner), outer) == Substitute(ty, Compose(inner, outer))
    decreases ty, 0
  {
    SubstituteTwice(ty.elem, inner, outer);
  }

  lemma {:induction false} TwiceInCell(ty: Ty, inner: Subst, outer: Subst)
    requires ty.Box? || ty.Froze?
    requires NotCaptured(BareNames(ty), inner, outer)
    ensures Substitute(Substitute(ty, inner), outer) == Substitute(ty, Compose(inner, outer))
    decreases ty, 0
  {
    SubstituteTwice(ty.inner, inner, outer);
  }

  lemma {:induction false} TwiceInLink(ty: Ty, inner: Subst, outer: Subst)
    requires ty.Thread? || ty.Channel?
    requires NotCaptured(BareNames(ty), inner, outer)
    ensures Substitute(Substitute(ty, inner), outer) == Substitute(ty, Compose(inner, outer))
    decreases ty, 0
  {
    SubstituteTwice(ty.inner, inner, outer);
  }

  lemma {:induction false} TwiceInRef(ty: Ty, inner: Subst, outer: Subst)
    requires ty.Ref? && NotCaptured(BareNames(ty), inner, outer)
    ensures Substitute(Substitute(ty, inner), outer) == Substitute(ty, Compose(inner, outer))
    decreases ty, 0
  {
    SubstituteTwice(ty.inner, inner, outer);
  }

  lemma {:induction false} SubstituteAllTwice(tys: seq<Ty>, inner: Subst, outer: Subst)
    requires NotCaptured(BareNamesAll(tys), inner, outer)
    ensures SubstituteAll(SubstituteAll(tys, inner), outer) == SubstituteAll(tys, Compose(inner, outer))
  {
    if tys != [] {
      SubstituteTwice(tys[0], inner, outer);
      SubstituteAllTwice(tys[1..], inner, outer);
    }
  }

  // ---------------------------------------------------------------- instances, argument by argument

  /** The argument of the parameter called `n`; of two of that name the later. */
  function Argument(n: string, params: seq<string>, args: seq<Ty>): Option<Ty> {
    if params == [] || args == [] then None
    else
      var later := Argument(n, params[1..], args[1..]);
      if later.Some? then later else if params[0] == n then Some(args[0]) else None
  }

  /** A declared type with `args` for the declaration's parameters. */
  function Instance(ty: Ty, params: seq<string>, args: seq<Ty>): Ty {
    match ty
    case Named(n, xs) =>
      if xs != [] then Named(n, Instances(xs, params, args))
      else (match Argument(n, params, args) case Some(a) => a case None => ty)
    case Box(i) => Box(Instance(i, params, args))
    case Froze(i) => Froze(Instance(i, params, args))
    case Ref(i) => Ref(Instance(i, params, args))
    case Thread(i) => Thread(Instance(i, params, args))
    case Channel(i) => Channel(Instance(i, params, args))
    case Vector(i, n) => Vector(Instance(i, params, args), n)
    case Matrix(i, r, c) => Matrix(Instance(i, params, args), r, c)
    case _ => ty
  }

  function Instances(tys: seq<Ty>, params: seq<string>, args: seq<Ty>): (r: seq<Ty>)
    ensures |r| == |tys|
  {
    if tys == [] then [] else [Instance(tys[0], params, args)] + Instances(tys[1..], params, args)
  }

  lemma {:induction false} ZipIs(n: string, params: seq<string>, args: seq<Ty>)
    ensures var z := ZipTypeParams(params, args); (if n in z then Some(z[n]) else None) == Argument(n, params, args)
  {
    if params != [] && args != [] { ZipIs(n, params[1..], args[1..]); }
  }

  /** Substituting by the zipped parameters puts each parameter's own argument in its place, wherever it
      stands as a bare name, and changes nothing else. */
  lemma {:induction false} InstanceIs(ty: Ty, params: seq<string>, args: seq<Ty>)
    ensures Substitute(ty, ZipTypeParams(params, args)) == Instance(ty, params, args)
    decreases ty, 1
  {
    if ty.Named? {
      if ty.args == [] { ZipIs(ty.name, params, args); } else { InstancesAre(ty.args, params, args); }
    } else {
      InstanceInside(ty, params, args);
    }
  }

  lemma {:induction false} InstanceInside(ty: Ty, params: seq<string>, args: seq<Ty>)
    requires !ty.Named?
    ensures Substitute(ty, ZipTypeParams(params, args)) == Instance(ty, params, args)
    decreases ty, 0
  {
    match ty
    case Box(i) => InstanceIs(i, params, args);
    case Froze(i) => InstanceIs(i, params, args);
    case Ref(i) => InstanceIs(i, params, args);
    case Thread(i) => InstanceIs(i, params, args);
    case Channel(i) => InstanceIs(i, params, args);
    case Vector(i, _) => InstanceIs(i, params, args);
    case Matrix(i, _, _) => InstanceIs(i, params, args);
    case Named(_, _) =>
    case _ =>
  }

  lemma {:induction false} InstancesAre(tys: seq<Ty>, params: seq<string>, args: seq<Ty>)
    ensures SubstituteAll(tys, ZipTypeParams(params, args)) == Instances(tys, params, args)
    decreases tys
  {
    if tys != [] {
      InstanceIs(tys[0], params, args);
      InstancesAre(tys[1..], params, args);
    }
  }

  lemma {:induction false} InstanceAt(tys: seq<Ty>, params: seq<string>, args: seq<Ty>, i: nat)
    requires i < |tys|
    ensures Instances(tys, params, args)[i] == Instance(tys[i], params, args)
  {
    if i > 0 { InstanceAt(tys[1..], params, args, i - 1); }
  }
}
