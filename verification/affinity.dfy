/** Registry-aware affinity: a depth-first search that stops when a name repeats on its own path. */
module Affinity {
  import opened Prelude
  import opened Types
  import opened Registry

  function FieldTys(fs: seq<Field>): (r: seq<Ty>)
    ensures |r| == |fs| && forall i :: 0 <= i < |fs| ==> r[i] == fs[i].ty
  {
    if fs == [] then [] else [fs[0].ty] + FieldTys(fs[1..])
  }

  function Payloads(vs: seq<Variant>): seq<Ty> {
    if vs == [] then [] else vs[0].payload + Payloads(vs[1..])
  }

  /** One level through a named type: its fields' or its variants' payload types, instantiated. */
  function Parts(t: Table, ty: Ty): seq<Ty> {
    if !ty.Named? then []
    else if ty.name in t.structs then
      var d := t.structs[ty.name];
      SubstituteAll(FieldTys(d.fields), ZipTypeParams(d.typeParams, ty.args))
    else if ty.name in t.enums then
      var d := t.enums[ty.name];
      SubstituteAll(Payloads(d.variants), ZipTypeParams(d.typeParams, ty.args))
    else []
  }

  lemma {:induction false} PayloadIn(vs: seq<Variant>, p: Ty)
    ensures p in Payloads(vs) <==> exists i, j :: 0 <= i < |vs| && 0 <= j < |vs[i].payload| && vs[i].payload[j] == p
  {
    if vs != [] {
      PayloadIn(vs[1..], p);
      if i, j :| 0 <= i < |vs| && 0 <= j < |vs[i].payload| && vs[i].payload[j] == p {
        if i > 0 { assert vs[1..][i - 1].payload[j] == p; }
      }
      if p in vs[0].payload { var j :| 0 <= j < |vs[0].payload| && vs[0].payload[j] == p; }
      if p in Payloads(vs[1..]) {
        var i, j :| 0 <= i < |vs[1..]| && 0 <= j < |vs[1..][i].payload| && vs[1..][i].payload[j] == p;
        assert vs[i + 1].payload[j] == p;
      }
    }
  }

  /** What stands inside a type as declared: its fields, or the payloads of all its variants. */
  ghost predicate Inside(t: Table, name: string, declared: Ty) {
    if name in t.structs then exists i :: 0 <= i < |t.structs[name].fields| && t.structs[name].fields[i].ty == declared
    else name in t.enums && (var vs := t.enums[name].variants;
                             exists i, j :: 0 <= i < |vs| && 0 <= j < |vs[i].payload| && vs[i].payload[j] == declared)
  }

  function ParamsOf(t: Table, name: string): seq<string> {
    if name in t.structs then t.structs[name].typeParams else if name in t.enums then t.enums[name].typeParams else []
  }

  /** The parts of a type are exactly what its declaration has inside, with the type's own arguments for
      the declaration's parameters. */
  lemma PartsIff(t: Table, ty: Ty, p: Ty)
    ensures p in Parts(t, ty)
            <==> ty.Named? && exists declared :: Inside(t, ty.name, declared) && p == Instance(declared, ParamsOf(t, ty.name), ty.args)
  {
    if ty.Named? && (ty.name in t.structs || ty.name in t.enums) {
      var params, inside := ParamsOf(t, ty.name), if ty.name in t.structs then FieldTys(t.structs[ty.name].fields) else Payloads(t.enums[ty.name].variants);
      InstancesAre(inside, params, ty.args);
      forall d ensures d in inside <==> Inside(t, ty.name, d) { InsideIff(t, ty.name, d); }
      assert Parts(t, ty) == Instances(inside, params, ty.args);
      if p in Parts(t, ty) {
        var i :| 0 <= i < |inside| && Parts(t, ty)[i] == p;
        InstanceAt(inside, params, ty.args, i);
        assert inside[i] in inside;
      }
      if d :| d in inside && p == Instance(d, params, ty.args) {
        var i :| 0 <= i < |inside| && inside[i] == d;
        InstanceAt(inside, params, ty.args, i);
      }
    }
  }

  lemma InsideIff(t: Table, name: string, d: Ty)
    requires name in t.structs || name in t.enums
    ensures Inside(t, name, d)
            <==> d in if name in t.structs then FieldTys(t.structs[name].fields) else Payloads(t.enums[name].variants)
  {
    if name in t.structs {
      var fs := t.structs[name].fields;
      if d in FieldTys(fs) { var i :| 0 <= i < |fs| && FieldTys(fs)[i] == d; }
      if i :| 0 <= i < |fs| && fs[i].ty == d { assert FieldTys(fs)[i] == d; }
    } else {
      PayloadIn(t.enums[name].variants, d);
    }
  }

  lemma {:induction false} ZipUnder(params: seq<string>, args: seq<Ty>, s: Subst)
    ensures ZipTypeParams(params, SubstituteAll(args, s)) == Compose(ZipTypeParams(params, args), s)
  {
    if params != [] && args != [] {
      ZipUnder(params[1..], args[1..], s);
      var rest := ZipTypeParams(params[1..], args[1..]);
      assert SubstituteAll(args, s)[1..] == SubstituteAll(args[1..], s);
      ComposeOne(params[0], args[0], rest, s);
    }
  }

  lemma ComposeOne(p: string, a: Ty, rest: Subst, s: Subst)
    ensures Compose(map[p := a] + rest, s) == map[p := Substitute(a, s)] + Compose(rest, s)
  {}

  /** Instantiating a generic type and then looking inside it is looking inside and then
      instantiating, when the declaration mentions no name that the instantiation would capture. */
  lemma PartsOfInstance(t: Table, ty: Ty, s: Subst)
    requires ty.Named? && ty.args != [] && ty.name in t.structs
    requires var d := t.structs[ty.name]; var z := ZipTypeParams(d.typeParams, ty.args);
             forall n :: n in BareNamesAll(FieldTys(d.fields)) && n in s ==> n in z
    ensures Parts(t, Substitute(ty, s)) == SubstituteAll(Parts(t, ty), s)
  {
    var d := t.structs[ty.name];
    var fields, z := FieldTys(d.fields), ZipTypeParams(d.typeParams, ty.args);
    ZipUnder(d.typeParams, ty.args, s);
    SubstituteAllTwice(fields, z, s);
    PartsOf(t, ty);
    PartsOf(t, Named(ty.name, SubstituteAll(ty.args, s)));
    SubstituteNamed(ty, s);
  }

  lemma SubstituteNamed(ty: Ty, s: Subst)
    requires ty.Named? && ty.args != []
    ensures Substitute(ty, s) == Named(ty.name, SubstituteAll(ty.args, s))
  {}

  lemma PartsOf(t: Table, ty: Ty)
    requires ty.Named? && ty.name in t.structs
    ensures var d := t.structs[ty.name]; Parts(t, ty) == SubstituteAll(FieldTys(d.fields), ZipTypeParams(d.typeParams, ty.args))
  {}

  /** The search, given the names on the path to `ty`. */
  predicate Visit(t: Table, ty: Ty, visiting: set<string>)
    decreases t.Declared() - visiting, 1
  {
    if !ty.Named? then ty.IsBaseAffine()
    else if ty.name in visiting || ty.name !in t.Declared() then false
    else VisitAny(t, Parts(t, ty), visiting + {ty.name})
  }

  predicate VisitAny(t: Table, tys: seq<Ty>, visiting: set<string>)
    decreases t.Declared() - visiting, 2, |tys|
  {
    tys != [] && (Visit(t, tys[0], visiting) || VisitAny(t, tys[1..], visiting))
  }

  predicate IsAffine(t: Table, ty: Ty) { Visit(t, ty, {}) }

  lemma OneOfParts(t: Table, tys: seq<Ty>, i: nat, subst: Subst, visiting: set<string>)
    requires i < |tys|
    ensures VisitAny(t, SubstituteAll(tys[i..], subst), visiting)
            == (Visit(t, Substitute(tys[i], subst), visiting) || VisitAny(t, SubstituteAll(tys[i + 1..], subst), visiting))
  {
    var from := tys[i..];
    assert from[1..] == tys[i + 1..] && SubstituteAll(from, subst)[1..] == SubstituteAll(from[1..], subst);
  }

  /** The search as written: names are pushed on `visiting` and popped on the way out. */
  class Search {
    const table: Table
    var visiting: seq<string>

    constructor (table: Table)
      ensures this.table == table && visiting == []
    {
      this.table, visiting := table, [];
    }

    ghost function OnPath(): set<string> reads this { set v | v in visiting }

    method IsAffineVisiting(ty: Ty) returns (b: bool)
      modifies this
      ensures visiting == old(visiting) && b == Visit(table, ty, OnPath())
      decreases table.Declared() - OnPath(), 1
    {
      if !ty.Named? { return ty.IsBaseAffine(); }
      if ty.name in visiting { return false; }
      if ty.name in table.structs {
        var d := table.structs[ty.name];
        b := AnyPart(ty.name, FieldTys(d.fields), ZipTypeParams(d.typeParams, ty.args));
      } else if ty.name in table.enums {
        var d := table.enums[ty.name];
        b := AnyPart(ty.name, Payloads(d.variants), ZipTypeParams(d.typeParams, ty.args));
      } else {
        b := false;
      }
    }

    method AnyPart(name: string, tys: seq<Ty>, subst: Subst) returns (b: bool)
      requires name !in visiting && name in table.Declared()
      modifies this
      ensures visiting == old(visiting) && b == VisitAny(table, SubstituteAll(tys, subst), OnPath() + {name})
      decreases table.Declared() - OnPath(), 0
    {
      ghost var before, path, inside := visiting, OnPath(), OnPath() + {name};
      visiting := visiting + [name];
      assert OnPath() == inside;
      assert name in table.Declared() - path;
      b := false;
      var i := 0;
      while i < |tys| && !b
        invariant i <= |tys| && visiting == before + [name]
        invariant VisitAny(table, SubstituteAll(tys, subst), inside) == (b || VisitAny(table, SubstituteAll(tys[i..], subst), inside))
        decreases |tys| - i
      {
        OneOfParts(table, tys, i, subst, inside);
        b := IsAffineVisiting(Substitute(tys[i], subst));
        i := i + 1;
      }
      visiting := visiting[..|visiting| - 1];
    }
  }

  // ---------------------------------------------------------------- what the search decides

  ghost predicate Link<T(!new)>(r: (T, T) -> bool, path: seq<T>, i: int) { 0 <= i < |path| - 1 ==> r(path[i], path[i + 1]) }

  ghost predicate Linked<T(!new)>(r: (T, T) -> bool, path: seq<T>) { forall i {:trigger Link(r, path, i)} :: Link(r, path, i) }

  lemma TailLinked<T(!new)>(r: (T, T) -> bool, path: seq<T>, j: nat)
    requires Linked(r, path) && j <= |path|
    ensures Linked(r, path[j..])
  {
    var rest := path[j..];
    forall k ensures Link(r, rest, k) { assert Link(r, path, j + k); }
  }

  lemma HeadLinked<T(!new)>(r: (T, T) -> bool, path: seq<T>, j: nat)
    requires Linked(r, path) && j <= |path|
    ensures Linked(r, path[..j])
  {
    var head := path[..j];
    forall k ensures Link(r, head, k) { assert Link(r, path, k); }
  }

  lemma JoinLinked<T(!new)>(r: (T, T) -> bool, path: seq<T>, rest: seq<T>)
    requires Linked(r, path) && Linked(r, rest)
    requires path != [] && rest != [] ==> r(path[|path| - 1], rest[0])
    ensures Linked(r, path + rest)
  {
    var all, n := path + rest, |path|;
    forall k ensures Link(r, all, k) { assert Link(r, path, k) && Link(r, rest, k - n); }
  }

  /** `b` is a part of `a`. */
  ghost function Below(t: Table): (Ty, Ty) -> bool { (a, b) => b in Parts(t, a) }

  /** A value of such a type has one owner: a heap cell, something that runs, an open connection or file. */
  predicate OneOwner(ty: Ty) {
    match ty
    case Box(_) => true
    case Thread(_) | Sandbox => true
    case Tcp | TcpListener | File | Db | Mq | Handle(_) => true
    case _ => false
  }

  /** A way down from `path[0]` to a type that is affine by itself. */
  ghost predicate Chain(t: Table, path: seq<Ty>) {
    path != [] && OneOwner(path[|path| - 1]) && Linked(Below(t), path)
  }

  /** No declared name is entered twice. */
  ghost predicate Simple(path: seq<Ty>) {
    forall i, j :: 0 <= i < j < |path| - 1 && path[i].Named? && path[j].Named? ==> path[i].name != path[j].name
  }

  ghost predicate Avoids(path: seq<Ty>, names: set<string>) {
    forall i :: 0 <= i < |path| - 1 && path[i].Named? ==> path[i].name !in names
  }

  lemma {:induction false} FoundChain(t: Table, ty: Ty, visiting: set<string>) returns (path: seq<Ty>)
    requires Visit(t, ty, visiting)
    ensures Chain(t, path) && path[0] == ty && Simple(path) && Avoids(path, visiting)
    decreases t.Declared() - visiting, 1
  {
    if !ty.Named? {
      path := [ty];
    } else {
      var rest := FoundBelow(t, Parts(t, ty), visiting + {ty.name});
      path := [ty] + rest;
      JoinLinked(Below(t), [ty], rest);
    }
  }

  lemma {:induction false} FoundBelow(t: Table, tys: seq<Ty>, visiting: set<string>) returns (path: seq<Ty>)
    requires VisitAny(t, tys, visiting)
    ensures Chain(t, path) && path[0] in tys && Simple(path) && Avoids(path, visiting)
    decreases t.Declared() - visiting, 2, |tys|
  {
    if Visit(t, tys[0], visiting) { path := FoundChain(t, tys[0], visiting); }
    else { path := FoundBelow(t, tys[1..], visiting); }
  }

  lemma {:induction false} ChainFound(t: Table, path: seq<Ty>, visiting: set<string>)
    requires Chain(t, path) && Simple(path) && Avoids(path, visiting)
    ensures Visit(t, path[0], visiting)
    decreases |path|
  {
    if |path| > 1 {
      var rest := path[1..];
      assert Link(Below(t), path, 0);
      TailLinked(Below(t), path, 1);
      ChainFound(t, rest, visiting + {path[0].name});
      AnyFound(t, Parts(t, path[0]), rest[0], visiting + {path[0].name});
    }
  }

  lemma {:induction false} AnyFound(t: Table, tys: seq<Ty>, ty: Ty, visiting: set<string>)
    requires ty in tys && Visit(t, ty, visiting)
    ensures VisitAny(t, tys, visiting)
  {
    if ty != tys[0] { AnyFound(t, tys[1..], ty, visiting); }
  }

  /** Whatever is declared, the search answers whether some chain enters no name twice. */
  lemma AffineIffSimpleChain(t: Table, ty: Ty)
    ensures IsAffine(t, ty) <==> exists path :: Chain(t, path) && path[0] == ty && Simple(path)
  {
    if IsAffine(t, ty) { var path := FoundChain(t, ty, {}); }
    if path :| Chain(t, path) && path[0] == ty && Simple(path) { ChainFound(t, path, {}); }
  }

  // ---------------------------------------------------------------- when the search is exact

  /** Something affine can be reached from `ty`, however often a name is entered on the way. */
  ghost predicate Holds(t: Table, ty: Ty) { exists path :: Chain(t, path) && path[0] == ty }

  /** Looking down from `ty`, a name is entered again only at a type with the same parts as the one
      that entered it before. `path` has the types entered so far, by name. */
  predicate Tidy(t: Table, ty: Ty, path: map<string, Ty>)
    decreases t.Declared() - path.Keys
  {
    if !ty.Named? || ty.name !in t.Declared() then true
    else if ty.name in path then Parts(t, ty) == Parts(t, path[ty.name])
    else
      var down, parts := path[ty.name := ty], Parts(t, ty);
      assert down.Keys == path.Keys + {ty.name};
      forall i :: 0 <= i < |parts| ==> Tidy(t, parts[i], down)
  }

  lemma TidyPart(t: Table, ty: Ty, path: map<string, Ty>, part: Ty)
    requires Tidy(t, ty, path) && ty.Named? && ty.name in t.Declared() && ty.name !in path && part in Parts(t, ty)
    ensures Tidy(t, part, path[ty.name := ty])
  {
    var i :| 0 <= i < |Parts(t, ty)| && Parts(t, ty)[i] == part;
  }

  /** The first `n` types of a chain are named, and differently. */
  ghost predicate Fresh(path: seq<Ty>, n: nat) {
    n <= |path| && (forall i :: 0 <= i < n ==> path[i].Named?)
    && forall i, j :: 0 <= i < j < n ==> path[i].name != path[j].name
  }

  lemma PartAt(t: Table, path: seq<Ty>, k: nat)
    requires Linked(Below(t), path) && k < |path| - 1
    ensures path[k + 1] in Parts(t, path[k]) && path[k].Named? && path[k].name in t.Declared()
  {
    assert Link(Below(t), path, k);
  }

  lemma FreshTail(path: seq<Ty>, n: nat)
    requires Fresh(path, n) && n > 0
    ensures Fresh(path[1..], n - 1)
  {}

  /** None of the first `n` names has been entered. */
  ghost predicate Unseen(path: seq<Ty>, n: nat, seen: map<string, Ty>)
    requires Fresh(path, n)
  {
    forall k :: 0 <= k < n ==> path[k].name !in seen
  }

  lemma UnseenTail(path: seq<Ty>, n: nat, seen: map<string, Ty>)
    requires n > 0 && Fresh(path, n) && Unseen(path, n, seen) && Fresh(path[1..], n - 1)
    ensures Unseen(path[1..], n - 1, seen[path[0].name := path[0]])
  {
    var rest := path[1..];
    forall k | 0 <= k < n - 1 ensures rest[k].name !in seen[path[0].name := path[0]] { assert rest[k] == path[k + 1]; }
  }

  /** One step down: what the next type is tidy under. */
  lemma TidyStep(t: Table, path: seq<Ty>, n: nat, seen: map<string, Ty>)
    requires 0 < n < |path| && Linked(Below(t), path) && Fresh(path, n) && Unseen(path, n, seen) && Tidy(t, path[0], seen)
    ensures Linked(Below(t), path[1..]) && Fresh(path[1..], n - 1)
    ensures Unseen(path[1..], n - 1, seen[path[0].name := path[0]]) && Tidy(t, path[1], seen[path[0].name := path[0]])
  {
    PartAt(t, path, 0);
    TidyPart(t, path[0], seen, path[1]);
    TailLinked(Below(t), path, 1);
    FreshTail(path, n);
    UnseenTail(path, n, seen);
  }

  /** The first name on a path that has been entered before, at `ty`. */
  lemma {:induction false} TidyHit(t: Table, path: seq<Ty>, j: nat, seen: map<string, Ty>, ty: Ty)
    requires j < |path| && Linked(Below(t), path) && Fresh(path, j) && Unseen(path, j, seen) && Tidy(t, path[0], seen)
    requires path[j].Named? && path[j].name in t.Declared() && path[j].name in seen && seen[path[j].name] == ty
    ensures Parts(t, path[j]) == Parts(t, ty)
    decreases j
  {
    if j > 0 {
      TidyStep(t, path, j, seen);
      TidyHit(t, path[1..], j - 1, seen[path[0].name := path[0]], ty);
    }
  }

  lemma {:induction false} TidyRepeat(t: Table, path: seq<Ty>, i: nat, j: nat, seen: map<string, Ty>)
    requires i < j < |path| && Linked(Below(t), path) && Fresh(path, j) && Unseen(path, j, seen) && Tidy(t, path[0], seen)
    requires path[j].Named? && path[j].name in t.Declared() && path[i].name == path[j].name
    ensures Parts(t, path[j]) == Parts(t, path[i])
    decreases i
  {
    TidyStep(t, path, j, seen);
    if i == 0 { TidyHit(t, path[1..], j - 1, seen[path[0].name := path[0]], path[0]); }
    else { TidyRepeat(t, path[1..], i - 1, j - 1, seen[path[0].name := path[0]]); }
  }

  /** The first type of a chain whose name has been entered before. */
  lemma FirstRepeat(path: seq<Ty>) returns (i: nat, j: nat)
    requires path != [] && !Simple(path) && forall k :: 0 <= k < |path| - 1 ==> path[k].Named?
    ensures i < j < |path| - 1 && Fresh(path, j) && path[i].name == path[j].name
  {
    j := 1;
    while forall k :: 0 <= k < j ==> path[k].name != path[j].name
      invariant 1 <= j < |path| - 1 && Fresh(path, j)
      decreases |path| - j
    {
      j := j + 1;
    }
    i :| 0 <= i < j && path[i].name == path[j].name;
  }

  lemma ChainNames(t: Table, path: seq<Ty>)
    requires Chain(t, path)
    ensures forall k :: 0 <= k < |path| - 1 ==> path[k].Named? && path[k].name in t.Declared()
  {
    forall k | 0 <= k < |path| - 1 ensures path[k].Named? && path[k].name in t.Declared() { PartAt(t, path, k); }
  }

  lemma CutLoop<T(!new)>(r: (T, T) -> bool, path: seq<T>, i: nat, j: nat) returns (cut: seq<T>)
    requires Linked(r, path) && i < j < |path| - 1 && r(path[i], path[j + 1])
    ensures Linked(r, cut) && 0 < |cut| < |path| && cut[0] == path[0] && cut[|cut| - 1] == path[|path| - 1]
  {
    var head, tail := path[..i + 1], path[j + 1..];
    HeadLinked(r, path, i + 1);
    TailLinked(r, path, j + 1);
    cut := head + tail;
    JoinLinked(r, head, tail);
  }

  /** From a tidy type, loops in a chain can be cut out until no name is entered twice. */
  lemma {:induction false} Shorten(t: Table, path: seq<Ty>) returns (short: seq<Ty>)
    requires Chain(t, path) && Tidy(t, path[0], map[])
    ensures Chain(t, short) && short[0] == path[0] && Simple(short)
    decreases |path|
  {
    if Simple(path) { return path; }
    ChainNames(t, path);
    var i, j := FirstRepeat(path);
    TidyRepeat(t, path, i, j, map[]);
    PartAt(t, path, j);
    var cut := CutLoop(Below(t), path, i, j);
    short := Shorten(t, cut);
  }

  /** On a tidy type the search is exact, cyclic declarations included. */
  lemma TidyIsExact(t: Table, ty: Ty)
    requires Tidy(t, ty, map[])
    ensures IsAffine(t, ty) <==> Holds(t, ty)
  {
    AffineIffSimpleChain(t, ty);
    if path :| Chain(t, path) && path[0] == ty { var short := Shorten(t, path); }
  }

  /** Names of declarations without type parameters, with every declared name their parts mention. */
  ghost predicate Monomorphic(t: Table, names: set<string>) {
    (forall n :: n in names && n in t.structs ==> t.structs[n].typeParams == [])
    && (forall n :: n in names && n in t.enums ==> t.enums[n].typeParams == [])
    && forall n, p :: n in names && p in Parts(t, Named(n, [])) && p.Named? ==> p.name in names
  }

  lemma SameNameSameParts(t: Table, names: set<string>, a: Ty, b: Ty)
    requires Monomorphic(t, names) && a.Named? && b.Named? && a.name == b.name && a.name in names
    ensures Parts(t, a) == Parts(t, b)
  {}

  lemma {:induction false} MonomorphicIsTidy(t: Table, names: set<string>, ty: Ty, path: map<string, Ty>)
    requires Monomorphic(t, names) && (ty.Named? ==> ty.name in names)
    requires forall n :: n in path ==> n in names && path[n].Named? && path[n].name == n
    ensures Tidy(t, ty, path)
    decreases t.Declared() - path.Keys
  {
    if ty.Named? && ty.name in t.Declared() {
      if ty.name in path { SameNameSameParts(t, names, ty, path[ty.name]); }
      else {
        var parts := Parts(t, ty);
        SameNameSameParts(t, names, ty, Named(ty.name, []));
        var down := path[ty.name := ty];
        assert down.Keys == path.Keys + {ty.name};
        forall i | 0 <= i < |parts| ensures Tidy(t, parts[i], down) {
          assert parts[i] in Parts(t, Named(ty.name, []));
          MonomorphicIsTidy(t, names, parts[i], down);
        }
      }
    }
  }

  /** Where no declaration that `ty` leads to takes type parameters, the search is exact, whatever else
      is declared. */
  lemma AffineIffChain(t: Table, names: set<string>, ty: Ty)
    requires Monomorphic(t, names) && (ty.Named? ==> ty.name in names)
    ensures IsAffine(t, ty) <==> Holds(t, ty)
  {
    MonomorphicIsTidy(t, names, ty, map[]);
    TidyIsExact(t, ty);
  }

  /** A path the search follows up to a type it cuts off. */
  ghost predicate CutOff(t: Table, path: seq<Ty>) {
    |path| > 1 && Linked(Below(t), path)
    && (var n := |path| - 1;
        Fresh(path, n) && path[n].Named? && exists i :: 0 <= i < n && path[i].name == path[n].name)
  }

  lemma Append(t: Table, path: seq<Ty>, rest: seq<Ty>) returns (all: seq<Ty>)
    requires path != [] && Linked(Below(t), path) && Chain(t, rest) && rest[0] == path[|path| - 1]
    ensures Chain(t, all) && all[0] == path[0]
  {
    var n := |path| - 1;
    var head := path[..n];
    HeadLinked(Below(t), path, n);
    assert Link(Below(t), path, n - 1);
    all := head + rest;
    JoinLinked(Below(t), head, rest);
  }

  /** The search is wrong exactly when it finds nothing and a type it cut off holds something. */
  lemma ExactlyWhen(t: Table, ty: Ty)
    ensures (IsAffine(t, ty) <==> Holds(t, ty))
            <==> IsAffine(t, ty) || forall path :: CutOff(t, path) && path[0] == ty ==> !Holds(t, path[|path| - 1])
  {
    if IsAffine(t, ty) { AffineIffSimpleChain(t, ty); }
    else {
      if chain :| Chain(t, chain) && chain[0] == ty { var path := MissedAt(t, ty, chain); }
      if path :| CutOff(t, path) && path[0] == ty && Holds(t, path[|path| - 1]) {
        var rest :| Chain(t, rest) && rest[0] == path[|path| - 1];
        var all := Append(t, path, rest);
      }
    }
  }

  /** A chain the search misses, up to its first repeated name. */
  lemma MissedChain(t: Table, path: seq<Ty>) returns (i: nat, j: nat)
    requires Chain(t, path) && !IsAffine(t, path[0])
    ensures i < j < |path| && Fresh(path, j) && path[j].Named? && path[i].name == path[j].name
  {
    NotSimple(t, path);
    ChainNames(t, path);
    i, j := FirstRepeat(path);
  }

  /** What the search misses lies behind a type it cuts off. */
  lemma MissedAt(t: Table, ty: Ty, path: seq<Ty>) returns (cut: seq<Ty>)
    requires !IsAffine(t, ty) && Chain(t, path) && path[0] == ty
    ensures CutOff(t, cut) && cut[0] == ty && Holds(t, cut[|cut| - 1])
  {
    var i, j := MissedChain(t, path);
    cut := path[..j + 1];
    IsCutOff(t, path, i, j);
    IsBehind(t, path, j, cut[|cut| - 1]);
  }

  lemma NotSimple(t: Table, path: seq<Ty>)
    requires Chain(t, path) && !IsAffine(t, path[0])
    ensures !Simple(path)
  {
    if Simple(path) { ChainFound(t, path, {}); }
  }

  lemma FreshHead(path: seq<Ty>, j: nat, k: nat)
    requires Fresh(path, j) && j <= k <= |path|
    ensures Fresh(path[..k], j)
  {}

  lemma IsCutOff(t: Table, path: seq<Ty>, i: nat, j: nat)
    requires Linked(Below(t), path) && i < j < |path| && Fresh(path, j) && path[j].Named? && path[i].name == path[j].name
    ensures CutOff(t, path[..j + 1])
  {
    var cut := path[..j + 1];
    HeadLinked(Below(t), path, j + 1);
    FreshHead(path, j, j + 1);
    assert cut[i].name == cut[j].name;
  }

  lemma IsBehind(t: Table, path: seq<Ty>, j: nat, ty: Ty)
    requires Chain(t, path) && j < |path| && path[j] == ty
    ensures Holds(t, ty)
  {
    var rest := path[j..];
    TailLinked(Below(t), path, j);
    assert Chain(t, rest) && rest[0] == ty;
  }

  // ---------------------------------------------------------------- where it is not exact

  const OPTION := EnumDecl(None, "Option", ["T"], [Variant("Some", [Named("T", [])]), Variant("None", [])])
  const PRELUDE := Table(map[], map["Option" := OPTION], Owners([OPTION]))

  function OptionOf(ty: Ty): Ty { Named("Option", [ty]) }

  lemma OptionParts(ty: Ty)
    ensures Parts(PRELUDE, OptionOf(ty)) == [ty]
  {
    assert OPTION.variants[1..] == [Variant("None", [])] && [Variant("None", [])][1..] == [];
    assert Payloads(OPTION.variants) == [Named("T", [])];
    assert ZipTypeParams(["T"], [ty]) == map["T" := ty];
  }

  /** The inner `Option` meets the cutoff, so the box inside is never seen. */
  lemma NestedGenericsAreMissed()
    ensures var b := Box(I64);
            IsAffine(PRELUDE, OptionOf(b)) && !IsAffine(PRELUDE, OptionOf(OptionOf(b)))
            && Holds(PRELUDE, OptionOf(OptionOf(b))) && !Tidy(PRELUDE, OptionOf(OptionOf(b)), map[])
  {
    var b := Box(I64);
    OptionParts(b);
    OptionParts(OptionOf(b));
    assert [b][1..] == [] && [OptionOf(b)][1..] == [];
    assert Visit(PRELUDE, b, {"Option"});
    assert Visit(PRELUDE, OptionOf(b), {}) ;
    assert {} + {"Option"} == {"Option"};
    assert !Visit(PRELUDE, OptionOf(b), {"Option"});
    assert !VisitAny(PRELUDE, [OptionOf(b)], {"Option"});
    var path := [OptionOf(OptionOf(b)), OptionOf(b), b];
    forall i ensures Link(Below(PRELUDE), path, i) {}
    assert Chain(PRELUDE, path);
    if Tidy(PRELUDE, path[0], map[]) { TidyIsExact(PRELUDE, path[0]); }
  }
}
