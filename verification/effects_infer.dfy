/** The inference as written: walkers that add to an accumulator, and in-place rounds over all functions
    until nothing changes. The result is the least solution: a tag is inferred for a function exactly
    when the function reaches, through calls, a body that performs it. */
module EffectsInfer {
  import opened Prelude
  import opened Types
  import opened Registry
  import opened Effects
  import opened EffectsTable

  // ---------------------------------------------------------------- reaching

  /** An operation that carries `t` stands in some body called `n`. */
  ghost predicate Performs(p: Program, n: string, t: Effect) {
    exists f :: f in p.fns && f.name == n && SomeTag(SitesFn(f, p), t, p)
  }

  /** An expression that may start the function `m` stands in some body called `n`. */
  ghost predicate Calls(p: Program, n: string, m: string) {
    m in p.Names() && exists f :: f in p.fns && f.name == n && SomeStart(SitesFn(f, p), m, p)
  }

  ghost predicate Path(p: Program, path: seq<string>) {
    path != [] && (|path| > 1 ==> Calls(p, path[0], path[1]) && Path(p, path[1..]))
  }

  ghost predicate Reaches(p: Program, n: string, t: Effect) {
    exists path :: Path(p, path) && path[0] == n && Performs(p, path[|path| - 1], t)
  }

  lemma ReachesSelf(p: Program, n: string, t: Effect)
    requires Performs(p, n, t)
    ensures Reaches(p, n, t)
  {
    assert Path(p, [n]);
  }

  lemma ReachesCall(p: Program, n: string, m: string, t: Effect)
    requires Calls(p, n, m) && Reaches(p, m, t)
    ensures Reaches(p, n, t)
  {
    var path :| Path(p, path) && path[0] == m && Performs(p, path[|path| - 1], t);
    var longer := [n] + path;
    assert longer[1..] == path && longer[|longer| - 1] == path[|path| - 1];
    assert Path(p, longer);
  }

  /** Nothing is known that is not reached. */
  ghost predicate Justified(p: Program, known: Known) {
    known.Keys == p.Names() && forall n, t :: n in known && t in known[n] ==> Reaches(p, n, t)
  }

  /** One more round would add nothing. */
  ghost predicate Closed(p: Program, known: Known) {
    known.Keys == p.Names() && forall f {:trigger Settled(p, known, f)} :: f in p.fns ==> Settled(p, known, f)
  }

  ghost predicate Settled(p: Program, known: Known, f: FnDecl) {
    f.name in known && Meaning(UsesFn(f, p), known) <= known[f.name]
  }

  lemma KnownHere(p: Program, known: Known, n: string, t: Effect)
    requires Closed(p, known) && Performs(p, n, t)
    ensures n in known && t in known[n]
  {
    var f :| f in p.fns && f.name == n && SomeTag(SitesFn(f, p), t, p);
    ReflectsFn(f, p);
    assert Settled(p, known, f);
    assert t in Meaning(UsesFn(f, p), known);
  }

  lemma KnownThere(p: Program, known: Known, n: string, m: string, t: Effect)
    requires Closed(p, known) && Calls(p, n, m) && m in known && t in known[m]
    ensures n in known && t in known[n]
  {
    var f :| f in p.fns && f.name == n && SomeStart(SitesFn(f, p), m, p);
    ReflectsFn(f, p);
    assert Settled(p, known, f);
    assert t in Meaning(UsesFn(f, p), known);
  }

  lemma {:induction false} ReachedIsKnown(p: Program, known: Known, path: seq<string>, t: Effect)
    requires Closed(p, known) && Path(p, path) && Performs(p, path[|path| - 1], t)
    ensures path[0] in known && t in known[path[0]]
    decreases |path|
  {
    if |path| == 1 {
      KnownHere(p, known, path[0], t);
    } else {
      ReachedIsKnown(p, known, path[1..], t);
      KnownThere(p, known, path[0], path[1], t);
    }
  }

  /** A justified, closed assignment is the least solution. */
  lemma LeastSolution(p: Program, known: Known, n: string, t: Effect)
    requires Justified(p, known) && Closed(p, known) && n in p.Names()
    ensures t in known[n] <==> Reaches(p, n, t)
  {
    if Reaches(p, n, t) {
      var path :| Path(p, path) && path[0] == n && Performs(p, path[|path| - 1], t);
      ReachedIsKnown(p, known, path, t);
    }
  }

  /** Every closed assignment contains the inferred one. */
  lemma Least(p: Program, known: Known, other: Known, n: string)
    requires Justified(p, known) && Closed(p, other) && n in p.Names()
    ensures known[n] <= other[n]
  {
    forall t | t in known[n] ensures t in other[n] {
      var path :| Path(p, path) && path[0] == n && Performs(p, path[|path| - 1], t);
      ReachedIsKnown(p, other, path, t);
    }
  }

  lemma RoundJustified(p: Program, known: Known, f: FnDecl, t: Effect)
    requires Justified(p, known) && f in p.fns && t in Meaning(UsesFn(f, p), known)
    ensures Reaches(p, f.name, t)
  {
    var u := UsesFn(f, p);
    ReflectsFn(f, p);
    if t in u.direct {
      ReachesSelf(p, f.name, t);
    } else {
      var m :| m in known && t in known[m] && (m in u.callees || u.indirect);
      assert Calls(p, f.name, m);
      ReachesCall(p, f.name, m, t);
    }
  }

  lemma GrowJustified(p: Program, known: Known, f: FnDecl, acc: EffectSet)
    requires Justified(p, known) && f in p.fns && acc == known[f.name] + Meaning(UsesFn(f, p), known)
    ensures Justified(p, known[f.name := acc])
  {
    var more := known[f.name := acc];
    forall n, t | n in more && t in more[n] ensures Reaches(p, n, t) {
      if n == f.name && t !in known[n] { RoundJustified(p, known, f, t); }
    }
    assert more.Keys == known.Keys;
  }

  // ---------------------------------------------------------------- the walkers

  class Walker {
    const p: Program
    const known: Known
    var scopes: Scopes
    var acc: EffectSet

    constructor (p: Program, known: Known, scopes: Scopes, acc: EffectSet)
      ensures this.p == p && this.known == known && this.scopes == scopes && this.acc == acc
    {
      this.p, this.known, this.scopes, this.acc := p, known, scopes, acc;
    }

    method WalkExpr(e: Expr)
      modifies this
      ensures scopes == old(scopes) && acc == old(acc) + Meaning(UsesOf(e, scopes, p), known)
      decreases e, 2
    {
      match e
      case Lit | StrLit(_) | Ident(_) =>
      case Op(args) => WalkAll(args);
      case Call(name, args) =>
        WalkAll(args);
        WalkCall(name, args);
        MeaningAnd(UsesAll(args, scopes, p), CallUses(name, args, scopes, p), known);
      case If(_, _, _) => WalkIf(e);
      case Assign(_, rhs) => WalkExpr(rhs);
      case Spawn(_, _, _) => WalkSpawn(e);
      case Join(inner) => WalkDoing(inner, {Concurrent});
      case Send(target, value) => WalkSend(e);
      case Recv(target) => WalkDoing(target, TransferEffect(LocalTy(target, scopes)));
      case Stop(inner) => WalkDoing(inner, StopEffect(LocalTy(inner, scopes)));
      case Make(m, args) =>
        acc := acc + MakeEffect(m);
        WalkAll(args);
        MeaningDo(UsesAll(args, scopes, p), MakeEffect(m), known);
      case Acquire(_, proof) => WalkExpr(proof);
      case Match(_, _) => WalkMatch(e);
    }

    /** An operand, and what is done with it. */
    method WalkDoing(inner: Expr, fx: EffectSet)
      modifies this
      ensures scopes == old(scopes) && acc == old(acc) + Meaning(UsesOf(inner, scopes, p).Do(fx), known)
      decreases inner, 3
    {
      acc := acc + fx;
      WalkExpr(inner);
      MeaningDo(UsesOf(inner, scopes, p), fx, known);
    }

    method WalkMatch(e: Expr)
      requires e.Match?
      modifies this
      ensures scopes == old(scopes) && acc == old(acc) + Meaning(UsesOf(e, scopes, p), known)
      decreases e, 1
    {
      WalkExpr(e.scrutinee);
      WalkArms(e.arms);
      MeaningAnd(UsesOf(e.scrutinee, scopes, p), UsesArms(e.arms, scopes, p), known);
    }

    method WalkSpawn(e: Expr)
      requires e.Spawn?
      modifies this
      ensures scopes == old(scopes) && acc == old(acc) + Meaning(UsesOf(e, scopes, p), known)
      decreases e, 1
    {
      acc := acc + {Concurrent};
      WalkAll(e.args);
      if e.callee in p.Names() { acc := acc + Union(known, {e.callee}); }
      MeaningAnd(UsesAll(e.args, scopes, p), SpawnUses(e.callee, p), known);
    }

    method WalkCall(name: string, args: seq<Expr>)
      modifies this`acc
      ensures acc == old(acc) + Meaning(CallUses(name, args, scopes, p), known)
    {
      if name == "db_connect" {
        acc := acc + DbConnectEffect(args);
      } else if name in p.builtins {
        acc := acc + BuiltinEffect(name);
      } else if name in p.plugins {
        acc := acc + p.plugins[name];
      } else if name in p.Names() {
        acc := acc + Union(known, {name});
      } else if TyOf(scopes, name).Fn? {
        acc := acc + Union(known, known.Keys);
      }
    }

    method WalkSend(e: Expr)
      requires e.Send?
      modifies this
      ensures scopes == old(scopes) && acc == old(acc) + Meaning(UsesOf(e, scopes, p), known)
      decreases e, 1
    {
      var fx := TransferEffect(LocalTy(e.target, scopes));
      acc := acc + fx;
      WalkExpr(e.target);
      WalkExpr(e.value);
      var t, v := UsesOf(e.target, scopes, p), UsesOf(e.value, scopes, p);
      MeaningAnd(t, v, known);
      MeaningDo(t.And(v), fx, known);
    }

    method WalkAll(es: seq<Expr>)
      modifies this
      ensures scopes == old(scopes) && acc == old(acc) + Meaning(UsesAll(es, scopes, p), known)
      decreases es
    {
      ghost var start := acc;
      for i := 0 to |es|
        invariant scopes == old(scopes)
        invariant start + Meaning(UsesAll(es, scopes, p), known) == acc + Meaning(UsesAll(es[i..], scopes, p), known)
      {
        assert es[i..][1..] == es[i + 1..];
        WalkExpr(es[i]);
        MeaningAnd(UsesOf(es[i], scopes, p), UsesAll(es[i + 1..], scopes, p), known);
      }
    }

    method WalkIf(e: Expr)
      requires e.If?
      modifies this
      ensures scopes == old(scopes) && acc == old(acc) + Meaning(UsesIf(e, scopes, p), known)
      decreases e, 1
    {
      WalkExpr(e.cond);
      WalkBlock(e.thn);
      match e.els {
        case NoElse =>
        case ElseBlock(b) => WalkBlock(b);
        case ElseIf(e2) => WalkExpr(e2);
      }
      var c, t := UsesOf(e.cond, scopes, p), UsesBlock(e.thn, scopes, p);
      MeaningAnd(c, t, known);
      MeaningAnd(c.And(t), UsesElse(e.els, scopes, p), known);
    }

    method WalkArms(arms: seq<Arm>)
      modifies this
      ensures scopes == old(scopes) && acc == old(acc) + Meaning(UsesArms(arms, scopes, p), known)
      decreases arms
    {
      ghost var start := acc;
      for i := 0 to |arms|
        invariant scopes == old(scopes)
        invariant start + Meaning(UsesArms(arms, scopes, p), known) == acc + Meaning(UsesArms(arms[i..], scopes, p), known)
      {
        assert arms[i..][1..] == arms[i + 1..];
        ghost var S := scopes;
        scopes := scopes + [ArmTys(arms[i], p.table)];
        WalkExpr(arms[i].body);
        scopes := scopes[..|scopes| - 1];
        MeaningAnd(UsesOf(arms[i].body, S + [ArmTys(arms[i], p.table)], p), UsesArms(arms[i + 1..], S, p), known);
      }
    }

    method WalkBlock(b: seq<Stmt>)
      modifies this
      ensures scopes == old(scopes) && acc == old(acc) + Meaning(UsesBlock(b, scopes, p), known)
      decreases b, 1
    {
      scopes := scopes + [map[]];
      WalkStmts(b);
      scopes := scopes[..|scopes| - 1];
    }

    method WalkStmts(b: seq<Stmt>)
      requires scopes != []
      modifies this
      ensures |scopes| == |old(scopes)| && scopes[..|scopes| - 1] == old(scopes)[..|scopes| - 1]
      ensures acc == old(acc) + Meaning(UsesStmts(b, old(scopes), p), known)
      decreases b, 0
    {
      ghost var start, S0 := acc, scopes;
      for i := 0 to |b|
        invariant |scopes| == |S0| && scopes[..|scopes| - 1] == S0[..|S0| - 1]
        invariant start + Meaning(UsesStmts(b, S0, p), known) == acc + Meaning(UsesStmts(b[i..], scopes, p), known)
      {
        assert b[i..][1..] == b[i + 1..];
        ghost var S := scopes;
        WalkStmt(b[i]);
        MeaningAnd(UsesOne(b[i], S, p), UsesStmts(b[i + 1..], After(b[i], S), p), known);
      }
    }

    method WalkStmt(s: Stmt)
      requires scopes != []
      modifies this
      ensures scopes == After(s, old(scopes)) && acc == old(acc) + Meaning(UsesOne(s, old(scopes), p), known)
      decreases s
    {
      match s
      case Let(name, ty, value) =>
        WalkExpr(value);
        scopes := DefineTy(scopes, name, ty);
      case Return(v) => if v.Some? { WalkExpr(v.value); }
      case While(cond, body) =>
        WalkExpr(cond);
        WalkBlock(body);
        MeaningAnd(UsesOf(cond, scopes, p), UsesBlock(body, scopes, p), known);
      case ExprStmt(e) => WalkExpr(e);
      case Audited(body) => WalkBlock(body);
    }
  }

  // ---------------------------------------------------------------- the rounds

  /** One function's body, against what is known so far. */
  method WalkFn(p: Program, known: Known, f: FnDecl, start: EffectSet) returns (acc: EffectSet)
    ensures acc == start + Meaning(UsesFn(f, p), known)
  {
    var scope: map<string, Ty> := map[];
    for i := 0 to |f.params|
      invariant scope == ParamTys(f.params[..i])
    {
      assert f.params[..i + 1][..i] == f.params[..i];
      scope := scope[f.params[i].name := f.params[i].ty];
    }
    assert f.params[..|f.params|] == f.params;
    var w := new Walker(p, known, [scope], start);
    w.WalkStmts(f.body);
    acc := w.acc;
  }

  /** The tags not yet given to a function: what a round that changes something shrinks. */
  ghost function Missing(known: Known): set<(string, Effect)> {
    set n, t | n in known && t in ALL && t !in known[n] :: (n, t)
  }

  lemma MissingShrinks(known: Known, n: string, more: EffectSet)
    requires n in known && known[n] < more
    ensures Missing(known[n := more]) < Missing(known)
  {
    var t :| t in more && t !in known[n];
    AllEffects(t);
    assert (n, t) in Missing(known) && (n, t) !in Missing(known[n := more]);
  }

  /** Ends, and gives every function exactly the tags it reaches. */
  method InferEffects(p: Program) returns (known: Known)
    ensures Justified(p, known) && Closed(p, known)
    ensures forall n, t :: n in p.Names() ==> (t in known[n] <==> Reaches(p, n, t))
  {
    known := map n | n in p.Names() :: {};
    var changed := true;
    while changed
      invariant Justified(p, known) && (!changed ==> Closed(p, known))
      decreases Missing(known), changed
    {
      known, changed := Round(p, known);
    }
    forall n, t | n in p.Names() ensures t in known[n] <==> Reaches(p, n, t) { LeastSolution(p, known, n, t); }
  }

  /** One function of a round. */
  method Refresh(p: Program, known0: Known, f: FnDecl) returns (known: Known, changed: bool)
    requires Justified(p, known0) && f in p.fns
    ensures Justified(p, known)
    ensures if changed then Missing(known) < Missing(known0)
            else known == known0 && Settled(p, known, f)
  {
    var acc := WalkFn(p, known0, f, known0[f.name]);
    changed := acc != known0[f.name];
    known := known0;
    if changed {
      GrowJustified(p, known, f, acc);
      MissingShrinks(known, f.name, acc);
      known := known[f.name := acc];
    }
  }

  /** One pass over all functions, each seeing what the ones before it have just been given. */
  method Round(p: Program, known0: Known) returns (known: Known, changed: bool)
    requires Justified(p, known0)
    ensures Justified(p, known)
    ensures if changed then Missing(known) < Missing(known0) else known == known0 && Closed(p, known)
  {
    known, changed := known0, false;
    for i := 0 to |p.fns|
      invariant Justified(p, known) && Advanced(p, known0, known, changed, i)
    {
      ghost var was, moved := known, changed;
      var more;
      known, more := Refresh(p, known, p.fns[i]);
      changed := changed || more;
      Further(p, known0, was, known, moved, more, i);
    }
    if !changed { SettledAll(p, known); }
  }

  ghost predicate SettledTo(p: Program, known: Known, n: nat) {
    n <= |p.fns| && forall j {:trigger p.fns[j]} :: 0 <= j < n ==> Settled(p, known, p.fns[j])
  }

  /** After `n` functions of a round: something was added, or nothing and they are all settled. */
  ghost predicate Advanced(p: Program, known0: Known, known: Known, changed: bool, n: nat) {
    if changed then Missing(known) < Missing(known0) else known == known0 && SettledTo(p, known, n)
  }

  lemma Further(p: Program, known0: Known, was: Known, known: Known, changed: bool, more: bool, n: nat)
    requires n < |p.fns| && Advanced(p, known0, was, changed, n)
    requires if more then Missing(known) < Missing(was) else known == was && Settled(p, known, p.fns[n])
    ensures Advanced(p, known0, known, changed || more, n + 1)
  {}

  lemma SettledAll(p: Program, known: Known)
    requires SettledTo(p, known, |p.fns|) && known.Keys == p.Names()
    ensures Closed(p, known)
  {}
}
