/** The move checker as the stateful object it is. Its methods are proved to compute the walk of
    `Ownership`, although the throwaway walk of a nested loop switches reporting back on. */
module OwnershipChecker {
  import opened Prelude
  import opened Types
  import opened Registry
  import opened Ownership
  import opened OwnershipLoops

  /** The fields of a checker at one moment. */
  datatype View = View(scopes: Frames, errors: seq<string>, silent: bool, free: FreeMap)

  /** `f` differs from `g` at most at `keys`. */
  ghost predicate SameOutside(f: FreeMap, g: FreeMap, keys: set<Key>) {
    g.Keys <= f.Keys && f.Keys <= g.Keys + keys && forall k :: k in g && k !in keys ==> f[k] == g[k]
  }

  /** A checker that went from `v` to `w` has done what `o` describes. While it is silent it may report
      an error or record a free only where the walk itself would. */
  ghost predicate Did(v: View, o: Out, w: View) {
    w.scopes == o.frames && (w.silent ==> v.silent)
    && (if v.silent then (w.errors != [] ==> v.errors != [] || o.bad) && SameOutside(w.free, v.free, o.free.Keys)
        else (w.errors != [] <==> v.errors != [] || o.bad) && w.free == v.free + o.free)
    && (v.errors != [] ==> w.errors != [])
  }

  lemma OutsideThen(f: FreeMap, g: FreeMap, h: FreeMap, a: set<Key>, b: set<Key>)
    requires SameOutside(g, f, a) && SameOutside(h, g, b)
    ensures SameOutside(h, f, a + b)
  {
    forall k | k in f && k !in a + b ensures h[k] == f[k] { assert g[k] == f[k]; }
  }

  lemma OutsideAdd(f: FreeMap, o: FreeMap)
    ensures SameOutside(f + o, f, o.Keys)
  {}

  /** Writing `o` over a map that differs only at its keys. */
  lemma Overwrite(f: FreeMap, g: FreeMap, o: FreeMap)
    requires SameOutside(g, f, o.Keys)
    ensures g + o == f + o
  {
    forall k | k in g + o ensures k in f + o && (g + o)[k] == (f + o)[k] {}
  }

  lemma DidThen(v: View, a: Out, w: View, b: Out, u: View)
    requires Did(v, a, w) && Did(w, b, u)
    ensures Did(v, a.Then(b), u)
  {
    DidBoth(v, a, w, b, u);
  }

  /** Everything about two steps in a row but the scopes. */
  lemma DidBoth(v: View, a: Out, w: View, b: Out, u: View)
    requires Did(v, a, w) && (exists S :: Did(w.(scopes := S), b, u))
    ensures Did(v, Out(u.scopes, a.bad || b.bad, a.free + b.free), u)
  {
    var keys := (a.free + b.free).Keys;
    assert keys == a.free.Keys + b.free.Keys;
    OutsideAdd(v.free, a.free);
    OutsideAdd(w.free, b.free);
    if v.silent { OutsideThen(v.free, w.free, u.free, a.free.Keys, b.free.Keys); }
    else { assert v.free + a.free + b.free == v.free + (a.free + b.free); }
  }

  lemma DidBranches(v: View, a: Out, w: View, b: Out, u: View)
    requires Did(v, a, w) && Did(w.(scopes := v.scopes), b, u)
    ensures Did(v, Branches(a, b), u.(scopes := Merge(a.frames, u.scopes)))
  {
    DidBoth(v, a, w, b, u);
  }

  /** A block's walk, its scope closed, before the caller records what it still owned. */
  function Inside(stmts: seq<Stmt>, S: Frames, c: Ctx): Out {
    var o := Stmts(stmts, S + [map[]], c);
    Out(o.frames[..|o.frames| - 1], o.bad, o.free)
  }

  function Owned(stmts: seq<Stmt>, S: Frames, c: Ctx): multiset<string> {
    var o := Stmts(stmts, S + [map[]], c);
    StillOwned(c, o.frames[|o.frames| - 1])
  }

  lemma BlockIsInside(key: Key, b: seq<Stmt>, S: Frames, c: Ctx)
    ensures Block(key, b, S, c) == Inside(b, S, c).(free := Inside(b, S, c).free[key := Owned(b, S, c)])
  {}

  /** Recording under `key`, unless silent. */
  lemma DidRecord(v: View, o: Out, w: View, key: Key, names: multiset<string>)
    requires Did(v, o, w)
    ensures Did(v, o.(free := o.free[key := names]), if w.silent then w else w.(free := w.free[key := names]))
  {}

  class Checker {
    const c: Ctx
    var scopes: Frames
    var errors: seq<string>
    var silent: bool
    var freeMap: FreeMap

    constructor (c: Ctx)
      ensures this.c == c && Now() == View([], [], false, map[])
    {
      this.c, scopes, errors, silent, freeMap := c, [], [], false, map[];
    }

    function Now(): View reads this { View(scopes, errors, silent, freeMap) }

    method Error(name: string)
      modifies this`errors
      ensures errors == if silent then old(errors) else old(errors) + [name]
    {
      if !silent { errors := errors + [name]; }
    }

    method Record(key: Key, names: multiset<string>)
      modifies this`freeMap
      ensures freeMap == if silent then old(freeMap) else old(freeMap)[key := names]
    {
      if !silent { freeMap := freeMap[key := names]; }
    }

    method StillOwnedAffine(scope: Scope) returns (names: multiset<string>)
      ensures names == StillOwned(c, scope)
    {
      var todo := scope.Keys;
      names := multiset{};
      while todo != {}
        invariant todo <= scope.Keys
        invariant names == multiset(set x | x in scope && x !in todo && c.Affine(scope[x].ty) && !scope[x].moved)
      {
        var x :| x in todo;
        ghost var before := set y | y in scope && y !in todo && c.Affine(scope[y].ty) && !scope[y].moved;
        todo := todo - {x};
        if c.Affine(scope[x].ty) && !scope[x].moved { names := names + multiset{x}; }
        ghost var after := set y | y in scope && y !in todo && c.Affine(scope[y].ty) && !scope[y].moved;
        assert after == if c.Affine(scope[x].ty) && !scope[x].moved then before + {x} else before;
      }
    }

    method AllStillOwnedAffine() returns (names: multiset<string>)
      ensures names == AllStillOwned(c, scopes)
    {
      names := multiset{};
      for i := 0 to |scopes|
        invariant names == AllStillOwned(c, scopes[..i])
      {
        assert scopes[..i + 1][..i] == scopes[..i];
        var own := StillOwnedAffine(scopes[i]);
        names := names + own;
      }
      assert scopes[..|scopes|] == scopes;
    }

    method TouchIdent(name: string, consume: bool)
      modifies this`scopes, this`errors
      ensures Did(old(Now()), Ownership.TouchIdent(old(scopes), name, consume, c), Now())
    {
      var found := Find(scopes, name);
      if found.None? { return; }
      var slot := scopes[found.value][name];
      if !c.Affine(slot.ty) { return; }
      if slot.moved { Error(name); return; }
      if consume { scopes := SetMoved(scopes, name, true); }
    }

    method TouchExpr(e: Expr, consume: bool)
      modifies this
      ensures Did(old(Now()), Touch(e, old(scopes), consume, c), Now())
      decreases e, 3
    {
      match e
      case Lit =>
      case Ident(name) => TouchIdent(name, consume);
      case Logic(l, r) =>
        TouchExpr(l, true);
        ghost var mid := Now();
        TouchExpr(r, true);
        DidThen(old(Now()), Touch(l, old(scopes), true, c), mid, Touch(r, mid.scopes, true, c), Now());
      case Call(callee, args) => TouchOperands(callee, args);
      case Read(inner) => TouchExpr(inner, false);
      case Project(base, part) =>
        if base.Ident? { TouchIdent(base.name, ExtractsFrom(scopes, base.name, part, c)); }
        else { TouchExpr(base, false); }
      case If(span, cond, thn, els) => CheckIf(e);
      case Assign(name, rhs) =>
        TouchExpr(rhs, true);
        scopes := SetMoved(scopes, name, false);
      case Match(span, scrutinee, arms) =>
        CheckMatch(e);
    }

    method CheckMatch(e: Expr)
      requires e.Match?
      modifies this
      ensures Did(old(Now()), TouchMatch(e, old(scopes), c), Now())
      decreases e, 2
    {
      TouchExpr(e.scrutinee, true);
      ghost var mid := Now();
      CheckMatchArms(e.span, e.arms, ConcreteArgs(e.scrutinee, scopes, c));
      DidThen(old(Now()), Touch(e.scrutinee, old(scopes), true, c), mid,
              TouchArms(e.span, e.arms, mid.scopes, ConcreteArgs(e.scrutinee, mid.scopes, c), c), Now());
    }

    method TouchOperands(callee: string, args: seq<Expr>)
      modifies this
      ensures Did(old(Now()), TouchArgs(callee, args, 0, old(scopes), c), Now())
      decreases args
    {
      ghost var start, done := Now(), Skip(scopes);
      ghost var whole := TouchArgs(callee, args, 0, scopes, c);
      assert args[0..] == args;
      for i := 0 to |args|
        invariant Did(start, done, Now())
        invariant whole == done.Then(TouchArgs(callee, args[i..], i, scopes, c))
      {
        done := TouchNext(callee, args, i, start, done);
      }
      NoMoreArgs(callee, args, scopes, done, c);
    }

    method TouchNext(callee: string, args: seq<Expr>, i: nat, ghost start: View, ghost done: Out) returns (ghost more: Out)
      requires i < |args| && Did(start, done, Now())
      modifies this
      ensures Did(start, more, Now())
      ensures done.Then(TouchArgs(callee, args[i..], i, old(scopes), c)) == more.Then(TouchArgs(callee, args[i + 1..], i + 1, scopes, c))
      decreases args, 0
    {
      ghost var before := Now();
      TouchExpr(args[i], Consumes(callee, i));
      ghost var a := Touch(args[i], before.scopes, Consumes(callee, i), c);
      DidThen(start, done, before, a, Now());
      OneArg(callee, args, i, before.scopes, done, c);
      more := done.Then(a);
    }

    method CheckIf(e: Expr)
      requires e.If?
      modifies this
      ensures Did(old(Now()), TouchIf(e, old(scopes), c), Now())
      decreases e, 2
    {
      TouchExpr(e.cond, true);
      ghost var mid := Now();
      CheckIfBranches(e, e.span, e.thn, e.els);
      DidThen(old(Now()), Touch(e.cond, old(scopes), true, c), mid,
              Branches(Block(AtIf(e.span, true), e.thn, mid.scopes, c), TouchElse(e.span, e.els, mid.scopes, c)), Now());
    }

    method CheckIfBranches(ghost e: Expr, span: nat, thn: seq<Stmt>, els: Else)
      requires e.If? && e.thn == thn && e.els == els
      modifies this
      ensures Did(old(Now()),
                  Branches(Block(AtIf(span, true), thn, old(scopes), c), TouchElse(span, els, old(scopes), c)), Now())
      decreases e, 1
    {
      var pre := scopes;
      var thenFreed := CheckBlock(thn);
      var afterThen := scopes;
      scopes := pre;
      ghost var inner := Now();
      Record(AtIf(span, true), thenFreed);
      BlockIsInside(AtIf(span, true), thn, pre, c);
      DidRecord(old(Now()), Inside(thn, pre, c), inner.(scopes := afterThen), AtIf(span, true), thenFreed);
      ghost var mid := Now();
      match els {
        case NoElse =>
        case ElseBlock(b) =>
          var elseFreed := CheckBlock(b);
          ghost var inElse := Now();
          Record(AtIf(span, false), elseFreed);
          BlockIsInside(AtIf(span, false), b, pre, c);
          DidRecord(mid, Inside(b, pre, c), inElse, AtIf(span, false), elseFreed);
        case ElseIf(e2) => TouchExpr(e2, true);
      }
      DidBranches(old(Now()), Block(AtIf(span, true), thn, pre, c), mid.(scopes := afterThen), TouchElse(span, els, pre, c), Now());
      scopes := Merge(afterThen, scopes);
    }

    method CheckMatchArms(span: nat, arms: seq<Arm>, args: Option<seq<Ty>>)
      modifies this
      ensures Did(old(Now()), TouchArms(span, arms, old(scopes), args, c), Now())
      decreases arms, 1
    {
      var pre := scopes;
      ghost var start := Now();
      var merged: Option<Frames> := None;
      for i := 0 to |arms|
        invariant ArmsDone(start, span, arms, i, args, c, merged, Now())
      {
        merged := CheckNextArm(start, span, arms, i, args, pre, merged);
      }
      ArmsEnd(start, span, arms, args, c, merged, Now());
      scopes := if merged.Some? then merged.value else pre;
    }

    /** One more arm, from the scopes before the match. */
    method CheckNextArm(ghost start: View, span: nat, arms: seq<Arm>, i: nat, args: Option<seq<Ty>>, pre: Frames,
                        merged: Option<Frames>) returns (next: Option<Frames>)
      requires i < |arms| && pre == start.scopes && ArmsDone(start, span, arms, i, args, c, merged, Now())
      modifies this
      ensures ArmsDone(start, span, arms, i + 1, args, c, next, Now())
      decreases arms, 0
    {
      ghost var before := Now();
      scopes := pre;
      CheckArm(span, i, arms[i], args);
      ArmsNext(start, span, arms, i, args, c, merged, before, Now());
      next := Some(if merged.Some? then Merge(merged.value, scopes) else scopes);
    }

    method CheckArm(span: nat, index: nat, arm: Arm, args: Option<seq<Ty>>)
      modifies this
      ensures Did(old(Now()), TouchArm(span, index, arm, old(scopes), args, c), Now())
      decreases arm
    {
      ghost var S := scopes;
      scopes := scopes + [ArmScope(arm, args, c)];
      TouchExpr(arm.body, true);
      var freed := StillOwnedAffine(scopes[|scopes| - 1]);
      ghost var inner := Now();
      Record(AtArm(span, index), freed);
      scopes := scopes[..|scopes| - 1];
      ghost var o := Touch(arm.body, S + [ArmScope(arm, args, c)], true, c);
      DidRecord(old(Now()).(scopes := S + [ArmScope(arm, args, c)]), o, inner, AtArm(span, index), freed);
    }

    method CheckBlock(b: seq<Stmt>) returns (freed: multiset<string>)
      modifies this
      ensures Did(old(Now()), Inside(b, old(scopes), c), Now()) && freed == Owned(b, old(scopes), c)
      decreases b, 1
    {
      scopes := scopes + [map[]];
      CheckStmts(b);
      freed := StillOwnedAffine(scopes[|scopes| - 1]);
      scopes := scopes[..|scopes| - 1];
    }

    method CheckStmts(b: seq<Stmt>)
      requires scopes != []
      modifies this
      ensures Did(old(Now()), Stmts(b, old(scopes), c), Now())
      decreases b, 0
    {
      ghost var start, done := Now(), Skip(scopes);
      ghost var whole := Stmts(b, scopes, c);
      assert b[0..] == b;
      for i := 0 to |b|
        invariant scopes != [] && Did(start, done, Now())
        invariant whole == done.Then(Stmts(b[i..], scopes, c))
      {
        done := CheckNext(b, i, start, done);
      }
      NoMoreStmts(b, scopes, done, c);
    }

    method CheckNext(b: seq<Stmt>, i: nat, ghost start: View, ghost done: Out) returns (ghost more: Out)
      requires scopes != [] && i < |b| && Did(start, done, Now())
      modifies this
      ensures scopes != [] && Did(start, more, Now())
      ensures done.Then(Stmts(b[i..], old(scopes), c)) == more.Then(Stmts(b[i + 1..], scopes, c))
      decreases b, 0, 0
    {
      ghost var before := Now();
      CheckStmt(b[i]);
      ghost var a := One(b[i], before.scopes, c);
      DidThen(start, done, before, a, Now());
      OneStmt(b, i, before.scopes, done, c);
      more := done.Then(a);
    }

    method CheckStmt(s: Stmt)
      requires scopes != []
      modifies this
      ensures Did(old(Now()), One(s, old(scopes), c), Now())
      decreases s, 3
    {
      match s
      case Let(name, ty, value) =>
        TouchExpr(value, true);
        scopes := Define(scopes, name, ty);
      case Return(span, v) =>
        ghost var o := Skip(scopes);
        if v.Some? {
          o := Touch(v.value, scopes, true, c);
          TouchExpr(v.value, true);
        }
        ghost var mid := Now();
        if !silent {
          var names := AllStillOwnedAffine();
          Record(AtReturn(span), names);
        }
        DidRecord(old(Now()), o, mid, AtReturn(span), AllStillOwned(c, scopes));
      case While(span, cond, body) =>
        TouchExpr(cond, true);
        ghost var mid := Now();
        CheckWhile(s);
        DidThen(old(Now()), Touch(cond, old(scopes), true, c), mid, Loop(s, mid.scopes, c), Now());
      case ExprStmt(e) => TouchExpr(e, true);
      case Audited(span, body) =>
        ghost var S := scopes;
        var freed := CheckBlock(body);
        ghost var inner := Now();
        Record(AtAudited(span), freed);
        BlockIsInside(AtAudited(span), body, S, c);
        DidRecord(old(Now()), Inside(body, S, c), inner, AtAudited(span), freed);
    }

    method CheckWhile(s: Stmt)
      requires s.While?
      modifies this
      ensures Did(old(Now()), Loop(s, old(scopes), c), Now())
      decreases s, 2
    {
      var pre := scopes;
      ghost var start := Now();
      silent := true;
      var _ := CheckBlock(s.body);
      silent := false;
      ghost var first := Now();
      scopes := Merge(pre, scopes);
      ghost var second := Now();
      var freed := CheckBlock(s.body);
      freeMap := freeMap[AtWhileEnd(s.span) := freed];
      ghost var third := Now();
      scopes := Merge(pre, scopes);
      DidLoop(s, start, first, second, third, c);
    }
  }

  lemma NoMoreArgs(callee: string, args: seq<Expr>, S: Frames, done: Out, c: Ctx)
    requires done.frames == S
    ensures done.Then(TouchArgs(callee, args[|args|..], |args|, S, c)) == done
  {}

  lemma NoMoreStmts(b: seq<Stmt>, S: Frames, done: Out, c: Ctx)
    requires done.frames == S && S != []
    ensures done.Then(Stmts(b[|b|..], S, c)) == done
  {}

  lemma OneArg(callee: string, args: seq<Expr>, i: nat, S: Frames, done: Out, c: Ctx)
    requires i < |args|
    ensures var a := Touch(args[i], S, Consumes(callee, i), c);
            done.Then(TouchArgs(callee, args[i..], i, S, c)) == done.Then(a).Then(TouchArgs(callee, args[i + 1..], i + 1, a.frames, c))
  {
    var left, a := args[i..], Touch(args[i], S, Consumes(callee, i), c);
    assert left[1..] == args[i + 1..];
    ThenThrice(done, a, TouchArgs(callee, args[i + 1..], i + 1, a.frames, c));
  }

  lemma OneStmt(b: seq<Stmt>, i: nat, S: Frames, done: Out, c: Ctx)
    requires i < |b| && S != []
    ensures var a := One(b[i], S, c); done.Then(Stmts(b[i..], S, c)) == done.Then(a).Then(Stmts(b[i + 1..], a.frames, c))
  {
    var left, a := b[i..], One(b[i], S, c);
    assert left[1..] == b[i + 1..];
    ThenThrice(done, a, Stmts(b[i + 1..], a.frames, c));
  }

  lemma ThenThrice(a: Out, b: Out, d: Out)
    ensures a.Then(b.Then(d)) == a.Then(b).Then(d)
  {}

  /** Where a match stands after its first `n` arms: `merged` is what they left. */
  ghost predicate ArmsDone(start: View, span: nat, arms: seq<Arm>, n: nat, args: Option<seq<Ty>>, c: Ctx,
                           merged: Option<Frames>, now: View)
  {
    n <= |arms|
    && (if n == 0 then merged.None? && now == start
        else merged.Some? && Did(start, Join(start.scopes, ArmOuts(span, arms, start.scopes, args, c), n), now.(scopes := merged.value)))
  }

  lemma ArmsNext(start: View, span: nat, arms: seq<Arm>, n: nat, args: Option<seq<Ty>>, c: Ctx,
                 merged: Option<Frames>, before: View, now: View)
    requires n < |arms| && ArmsDone(start, span, arms, n, args, c, merged, before)
    requires Did(before.(scopes := start.scopes), TouchArm(span, n, arms[n], start.scopes, args, c), now)
    ensures ArmsDone(start, span, arms, n + 1, args, c,
                     Some(if merged.Some? then Merge(merged.value, now.scopes) else now.scopes), now)
  {
    if n > 0 {
      DidBranches(start, Join(start.scopes, ArmOuts(span, arms, start.scopes, args, c), n), before.(scopes := merged.value),
                  TouchArm(span, n, arms[n], start.scopes, args, c), now);
    }
  }

  lemma ArmsEnd(start: View, span: nat, arms: seq<Arm>, args: Option<seq<Ty>>, c: Ctx, merged: Option<Frames>, now: View)
    requires ArmsDone(start, span, arms, |arms|, args, c, merged, now)
    ensures Did(start, TouchArms(span, arms, start.scopes, args, c),
                now.(scopes := if merged.Some? then merged.value else start.scopes))
  {}

  /** The two walks of a loop body, as seen by a caller of `CheckBlock`. */
  lemma LoopWalks(s: Stmt, S: Frames, c: Ctx)
    requires s.While?
    ensures var key := AtWhileEnd(s.span); var E := Entry(s, S, c);
            var a, b := Inside(s.body, S, c), Inside(s.body, E, c);
            var recorded := b.free[key := Owned(s.body, E, c)];
            E == Merge(S, a.frames) && Loop(s, S, c) == Out(Merge(S, b.frames), b.bad, recorded)
            && (a.bad ==> b.bad) && a.free.Keys + {key} == recorded.Keys
  {
    var key, E := AtWhileEnd(s.span), Entry(s, S, c);
    BlockIsInside(key, s.body, S, c);
    BlockIsInside(key, s.body, E, c);
    SecondWalkIsFixedPoint(s, S, c);
    AlikeBlock(key, s.body, S, E, c);
    assert Block(key, s.body, S, c).free.Keys == Inside(s.body, S, c).free.Keys + {key};
  }

  /** The real walk overwrites everything the throwaway walk recorded, and finds every error that one
      could have reported. */
  lemma DidLoop(s: Stmt, start: View, first: View, second: View, third: View, c: Ctx)
    requires s.While? && !first.silent
    requires Did(start.(silent := true), Inside(s.body, start.scopes, c), first)
    requires second == first.(scopes := Merge(start.scopes, first.scopes))
    requires var o := Inside(s.body, second.scopes, c); var key := AtWhileEnd(s.span);
             third.scopes == o.frames && !third.silent
             && (third.errors != [] <==> second.errors != [] || o.bad)
             && third.free == (second.free + o.free)[key := Owned(s.body, second.scopes, c)]
    ensures Did(start, Loop(s, start.scopes, c), third.(scopes := Merge(start.scopes, third.scopes)))
  {
    var S, key := start.scopes, AtWhileEnd(s.span);
    LoopWalks(s, S, c);
    var a, b := Inside(s.body, S, c), Inside(s.body, second.scopes, c);
    AddThenPut(first.free, b.free, key, Owned(s.body, second.scopes, c));
    DidPasses(start, a, first, b.(free := b.free[key := Owned(s.body, second.scopes, c)]), third, Merge(S, third.scopes));
  }

  /** A throwaway pass `a` followed by a real pass `b` that covers it. */
  lemma DidPasses(start: View, a: Out, first: View, b: Out, third: View, S: Frames)
    requires first.errors != [] ==> start.errors != [] || a.bad
    requires start.errors != [] ==> first.errors != []
    requires SameOutside(first.free, start.free, a.free.Keys) && a.free.Keys <= b.free.Keys && (a.bad ==> b.bad)
    requires (third.errors != [] <==> first.errors != [] || b.bad) && third.free == first.free + b.free && !third.silent
    ensures Did(start, b.(frames := S), third.(scopes := S))
  {
    Overwrite(start.free, first.free, b.free);
    OutsideAdd(start.free, b.free);
  }

  /** One function: a fresh scope stack, its parameters, its body, and the fall-off-the-end frees. */
  method CheckFunction(ck: Checker, f: FnDecl)
    requires !ck.silent
    modifies ck
    ensures !ck.silent
    ensures ck.errors != [] <==> old(ck.errors) != [] || CheckFn(f, ck.c).bad
    ensures ck.freeMap == old(ck.freeMap) + CheckFn(f, ck.c).free
  {
    ghost var v := ck.Now();
    ck.scopes := [map[]];
    DefineParams(ck, f.params);
    ck.CheckStmts(f.body);
    ghost var o := Stmts(f.body, [ParamScope(f.params)], ck.c);
    var freed := ck.StillOwnedAffine(ck.scopes[|ck.scopes| - 1]);
    ck.freeMap := ck.freeMap[AtFnEnd(f.name) := freed];
    AddThenPut(v.free, o.free, AtFnEnd(f.name), freed);
  }

  lemma AddThenPut(f: FreeMap, o: FreeMap, key: Key, names: multiset<string>)
    ensures (f + o)[key := names] == f + o[key := names]
  {}

  method DefineParams(ck: Checker, params: seq<Param>)
    requires ck.scopes == [map[]]
    modifies ck`scopes
    ensures ck.scopes == [ParamScope(params)]
  {
    for i := 0 to |params|
      invariant ck.scopes == [ParamScope(params[..i])]
    {
      assert params[..i + 1][..i] == params[..i];
      ck.scopes := Define(ck.scopes, params[i].name, params[i].ty);
    }
    assert params[..|params|] == params;
  }

  /** Some function among the first `n` uses a moved value. */
  predicate AnyBad(fns: seq<FnDecl>, n: nat, c: Ctx)
    requires n <= |fns|
  {
    exists i :: 0 <= i < n && CheckFn(fns[i], c).bad
  }

  /** What the first `n` functions free. */
  function Frees(fns: seq<FnDecl>, n: nat, c: Ctx): FreeMap
    requires n <= |fns|
  {
    if n == 0 then map[] else Frees(fns, n - 1, c) + CheckFn(fns[n - 1], c).free
  }

  /** The whole program: rejected exactly when some function's walk uses a moved value. */
  lemma OneFunction(fns: seq<FnDecl>, i: nat, c: Ctx)
    requires i < |fns|
    ensures AnyBad(fns, i + 1, c) == (AnyBad(fns, i, c) || CheckFn(fns[i], c).bad)
    ensures Frees(fns, i + 1, c) == Frees(fns, i, c) + CheckFn(fns[i], c).free
  {}

  method RunChecker(fns: seq<FnDecl>, table: Table) returns (ok: bool, free: FreeMap)
    ensures var c := Ctx(table, ReturnTys(fns)); ok == !AnyBad(fns, |fns|, c) && free == Frees(fns, |fns|, c)
  {
    var c := Ctx(table, ReturnTys(fns));
    var ck := new Checker(c);
    for i := 0 to |fns|
      invariant ck.c == c && !ck.silent
      invariant (ck.errors != []) == AnyBad(fns, i, c) && ck.freeMap == Frees(fns, i, c)
    {
      CheckFunction(ck, fns[i]);
      OneFunction(fns, i, c);
    }
    ok, free := ck.errors == [], ck.freeMap;
  }

  function ReturnTys(fns: seq<FnDecl>): map<string, Ty> {
    if fns == [] then map[]
    else var f := fns[|fns| - 1]; ReturnTys(fns[..|fns| - 1])[f.name := f.ret]
  }
}
