/** No run of an accepted function uses a binding it has moved out of, or frees one it does not own. */
module OwnershipSound {
  import opened Prelude
  import opened Types
  import opened Registry
  import opened Ownership
  import opened OwnershipLoops
  import opened OwnershipTypes
  import opened OwnershipRun

  // ---------------------------------------------------------------- what is asked of a program

  /** `name` resolves to nothing affine. */
  predicate Plain(S: Frames, name: string, c: Ctx) {
    match Find(S, name) case None => true case Some(i) => !c.Affine(S[i][name].ty)
  }

  /** What leads to something affine is judged affine. */
  ghost predicate Tracked(ty: Ty, c: Ctx) { Owning(c, ty) ==> c.Affine(ty) }

  /** Taking out a part that leads to something affine is seen to take something affine. */
  ghost predicate TrackedPart(S: Frames, T: Frames, name: string, part: Part, c: Ctx) {
    Takes(T, name, part, c) ==> ExtractsFrom(S, name, part, c)
  }

  /** No affine binding is called `name`. */
  predicate FreeName(S: Frames, name: string, c: Ctx) {
    forall i :: 0 <= i < |S| && name in S[i] ==> !c.Affine(S[i][name].ty)
  }

  predicate Apart(a: Out, b: Out) { a.free.Keys !! b.free.Keys }

  /** The types bindings really have after a statement. */
  function Typed(s: Stmt, T: Frames): (r: Frames)
    requires T != []
    ensures |r| == |T| && forall i :: 0 <= i < |T| - 1 ==> r[i] == T[i]
  {
    if s.Let? then Define(T, s.name, s.ty) else T
  }

  function TypedAll(b: seq<Stmt>, T: Frames): (r: Frames)
    requires T != []
    ensures |r| == |T| && forall i :: 0 <= i < |T| - 1 ==> r[i] == T[i]
  {
    if b == [] then T else TypedAll(b[1..], Typed(b[0], T))
  }

  /** Along the walk from `S`, where bindings really have the types in `T`: a binding, payload or part
      whose real type leads to something affine is tracked as affine; walking a loop condition again
      where an iteration ends finds nothing new; the value of `b = box 1` is not passed on; a
      short-circuited operand gives no name a new value that the walk would count on; no affine binding
      hides another; and no two places share a key. */
  ghost predicate Tame(e: Expr, S: Frames, T: Frames, consume: bool, used: bool, w: World)
    decreases e, 2
  {
    match e
    case Lit => true
    case Ident(_) => true
    case Logic(l, r) =>
      var a := Touch(l, S, true, w.c);
      var b := Touch(r, a.frames, true, w.c);
      Tame(l, S, T, true, true, w) && Tame(r, a.frames, T, true, true, w) && Apart(a, b) && Below(a.frames, b.frames)
    case Call(f, args) => TameArgs(f, args, 0, S, T, w)
    case Read(inner) => Tame(inner, S, T, false, true, w)
    case Project(base, part) =>
      if base.Ident? then TrackedPart(S, T, base.name, part, w.c) else Tame(base, S, T, false, true, w)
    case If(_, _, _, _) => TameIf(e, S, T, used, w)
    case Assign(x, rhs) =>
      Tame(rhs, S, T, true, true, w) && (consume && used ==> Plain(Touch(rhs, S, true, w.c).frames, x, w.c))
    case Match(_, _, _) => TameMatch(e, S, T, used, w)
  }

  ghost predicate TameArgs(f: string, args: seq<Expr>, i: nat, S: Frames, T: Frames, w: World)
    decreases args
  {
    args == [] ||
    (var a := Touch(args[0], S, Consumes(f, i), w.c);
     Tame(args[0], S, T, Consumes(f, i), true, w) && TameArgs(f, args[1..], i + 1, a.frames, T, w)
     && Apart(a, TouchArgs(f, args[1..], i + 1, a.frames, w.c)))
  }

  ghost predicate TameIf(e: Expr, S: Frames, T: Frames, used: bool, w: World)
    requires e.If?
    decreases e, 1
  {
    var a := Touch(e.cond, S, true, w.c);
    var b := Block(AtIf(e.span, true), e.thn, a.frames, w.c);
    var d := TouchElse(e.span, e.els, a.frames, w.c);
    Tame(e.cond, S, T, true, true, w) && TameBlock(AtIf(e.span, true), e.thn, a.frames, T, used, w)
    && TameElse(e.span, e.els, a.frames, T, used, w) && Apart(b, d) && Apart(a, b) && Apart(a, d)
  }

  ghost predicate TameElse(span: nat, els: Else, S: Frames, T: Frames, used: bool, w: World)
    decreases els
  {
    match els
    case NoElse => true
    case ElseBlock(b) => TameBlock(AtIf(span, false), b, S, T, used, w)
    case ElseIf(e) => Tame(e, S, T, true, used, w)
  }

  ghost predicate TameMatch(e: Expr, S: Frames, T: Frames, used: bool, w: World)
    requires e.Match?
    decreases e, 1
  {
    var a := Touch(e.scrutinee, S, true, w.c);
    var args := ConcreteArgs(e.scrutinee, a.frames, w.c);
    Tame(e.scrutinee, S, T, true, true, w)
    && TameArms(e.span, e.arms, a.frames, T, args, RealTy(e.scrutinee, e.span, T, w), used, w)
    && Apart(a, TouchArms(e.span, e.arms, a.frames, args, w.c))
  }

  ghost predicate TameArms(span: nat, arms: seq<Arm>, S: Frames, T: Frames, args: Option<seq<Ty>>, ty: Ty, used: bool, w: World)
    decreases arms
  {
    (forall k :: 0 <= k < |arms| ==> TameArm(span, k, arms[k], S, T, args, ty, used, w)) && AllApart(ArmOuts(span, arms, S, args, w.c))
  }

  ghost predicate AllApart(outs: seq<Out>) { forall j, k :: 0 <= j < k < |outs| ==> Apart(outs[j], outs[k]) }

  /** What an arm really binds is tracked; `OwnershipTypes.ArmsAreTracked` says when it is. */
  ghost predicate TameArm(span: nat, index: nat, arm: Arm, S: Frames, T: Frames, args: Option<seq<Ty>>, ty: Ty, used: bool, w: World)
    decreases arm
  {
    var top, actual := ArmScope(arm, args, w.c), RealScope(arm, ty, w.c.table);
    Covers(top, actual, w.c) && (forall x :: x in top && w.c.Affine(top[x].ty) ==> FreeName(S, x, w.c))
    && Tame(arm.body, S + [top], T + [actual], true, used, w)
    && AtArm(span, index) !in Touch(arm.body, S + [top], true, w.c).free
  }

  ghost predicate TameBlock(key: Key, b: seq<Stmt>, S: Frames, T: Frames, used: bool, w: World)
    decreases b, 1
  {
    TameStmts(b, S + [map[]], T + [map[]], used, w) && key !in Stmts(b, S + [map[]], w.c).free
  }

  ghost predicate TameStmts(b: seq<Stmt>, S: Frames, T: Frames, used: bool, w: World)
    requires S != [] && T != []
    decreases b, 0
  {
    b == [] ||
    (var a := One(b[0], S, w.c);
     TameOne(b[0], S, T, used && b[1..] == [], w) && TameStmts(b[1..], a.frames, Typed(b[0], T), used, w)
     && Apart(a, Stmts(b[1..], a.frames, w.c)))
  }

  ghost predicate TameOne(s: Stmt, S: Frames, T: Frames, used: bool, w: World)
    requires S != [] && T != []
    decreases s, 2
  {
    match s
    case Let(x, ty, e) =>
      Tame(e, S, T, true, true, w) && Tracked(ty, w.c) && (w.c.Affine(ty) ==> FreeName(S[..|S| - 1], x, w.c))
    case Return(span, v) =>
      v.Some? ==> Tame(v.value, S, T, true, true, w) && AtReturn(span) !in Touch(v.value, S, true, w.c).free
    case While(span, cond, body) =>
      var a := Touch(cond, S, true, w.c);
      var E := Entry(s, a.frames, w.c);
      Tame(cond, S, T, true, true, w) && Tame(cond, E, T, true, true, w) && Steady(cond, a, E, w.c)
      && TameBlock(AtWhileEnd(span), body, E, T, false, w) && Apart(a, Loop(s, a.frames, w.c))
    case ExprStmt(e) => Tame(e, S, T, true, used, w)
    case Audited(span, body) => TameBlock(AtAudited(span), body, S, T, false, w)
  }

  /** Walked again from `E`, `cond` uses nothing that was moved, moves nothing more, and records what
      it did the first time. */
  ghost predicate Steady(cond: Expr, first: Out, E: Frames, c: Ctx) {
    var again := Touch(cond, E, true, c);
    !again.bad && Below(again.frames, E) && again.free == first.free
  }

  ghost predicate TameFn(f: FnDecl, w: World) {
    var S := [ParamScope(f.params)];
    (forall p :: p in f.params ==> Tracked(p.ty, w.c)) && TameStmts(f.body, S, S, false, w)
    && AtFnEnd(f.name) !in Stmts(f.body, S, w.c).free
  }

  // ---------------------------------------------------------------- a run beside its walk

  ghost predicate Keyed(A: Frames, B: Frames) { |A| == |B| && forall i :: 0 <= i < |A| ==> A[i].Keys == B[i].Keys }

  /** The run's bindings have the types in `T`, and what it has moved the walk has. */
  ghost predicate Under(R: Frames, S: Frames, T: Frames) {
    Keyed(R, S) && Shape(R, T) && forall i, x :: At(R, i, x) ==> At(S, i, x)
  }

  /** No affine binding is hidden by another. */
  predicate Distinct(S: Frames, c: Ctx) {
    forall i, j, x :: 0 <= i < j < |S| && x in S[i] && x in S[j] ==> !c.Affine(S[i][x].ty) || !c.Affine(S[j][x].ty)
  }

  ghost predicate CoversAll(S: Frames, T: Frames, c: Ctx) { |S| == |T| && forall i :: 0 <= i < |S| ==> Covers(S[i], T[i], c) }

  ghost predicate Orderly(S: Frames, T: Frames, c: Ctx) { Distinct(S, c) && CoversAll(S, T, c) }

  ghost predicate Within(f: FreeMap, all: FreeMap) { forall k :: k in f ==> k in all && all[k] == f[k] }

  ghost predicate Safe(r: Step, t: Out, T: Frames) { !r.out.Fault? && (r.out.Running? ==> Under(r.out.frames, t.frames, T)) }

  lemma KeyedFind(A: Frames, B: Frames, x: string)
    requires Keyed(A, B)
    ensures Find(A, x) == Find(B, x)
  {}

  /** A binding of the run that owns something is one the walk tracks. */
  lemma OwningIsTracked(R: Frames, S: Frames, T: Frames, x: string, c: Ctx)
    requires Under(R, S, T) && CoversAll(S, T, c) && IsOwning(R, x, c)
    ensures Find(S, x) == Find(R, x) && c.Affine(S[Find(S, x).value][x].ty)
  {
    KeyedFind(R, S, x);
    var i := Find(R, x).value;
    assert Covers(S[i], T[i], c) && R[i][x].ty == T[i][x].ty;
  }

  /** What owns something, and the walk has not moved, still owns it. */
  lemma OwnedStays(R: Frames, S: Frames, T: Frames, x: string, c: Ctx)
    requires Under(R, S, T) && IsOwning(R, x, c) && (Find(S, x).Some? ==> !S[Find(S, x).value][x].moved)
    ensures Owns(R, x, c)
  {
    KeyedFind(R, S, x);
    var i := Find(R, x).value;
    assert At(R, i, x) ==> At(S, i, x);
  }

  // ---------------------------------------------------------------- freeing by name

  /** What one scope is recorded to own is what its names resolve to. */
  lemma TopOwned(S: Frames, x: string, c: Ctx)
    requires S != [] && x in StillOwned(c, S[|S| - 1])
    ensures StillOwned(c, S[|S| - 1])[x] == 1 && Find(S, x) == Some(|S| - 1)
    ensures c.Affine(S[|S| - 1][x].ty) && !S[|S| - 1][x].moved
  {}

  lemma CanFreeTop(R: Frames, S: Frames, T: Frames, names: multiset<string>, c: Ctx)
    requires S != [] && Under(R, S, T) && names == StillOwned(c, S[|S| - 1])
    ensures CanFree(R, names, c)
  {
    forall x | x in names && IsOwning(R, x, c) ensures names[x] == 1 && Owns(R, x, c) {
      TopOwned(S, x, c);
      OwnedStays(R, S, T, x, c);
    }
  }

  /** A name listed from all scopes either resolves to nothing affine, or is listed once and is owned. */
  lemma {:induction false} AllOwned(S: Frames, x: string, c: Ctx)
    requires Distinct(S, c) && x in AllStillOwned(c, S)
    ensures Find(S, x).Some?
    ensures var i := Find(S, x).value; c.Affine(S[i][x].ty) ==> !S[i][x].moved && AllStillOwned(c, S)[x] == 1
  {
    var n := |S| - 1;
    if x in S[n] {
      if c.Affine(S[n][x].ty) { NotBelow(S, x, c); }
    } else {
      AllOwned(S[..n], x, c);
    }
  }

  /** Nothing affine of the same name below an affine binding. */
  lemma NotBelow(S: Frames, x: string, c: Ctx)
    requires S != [] && Distinct(S, c) && x in S[|S| - 1] && c.Affine(S[|S| - 1][x].ty)
    ensures x !in AllStillOwned(c, S[..|S| - 1])
  {
    var init := S[..|S| - 1];
    if x in AllStillOwned(c, init) { var i := ListedIn(init, x, c); }
  }

  /** A listed name is an affine binding of some scope. */
  lemma {:induction false} ListedIn(S: Frames, x: string, c: Ctx) returns (i: nat)
    requires x in AllStillOwned(c, S)
    ensures i < |S| && x in S[i] && c.Affine(S[i][x].ty)
  {
    var n := |S| - 1;
    if x in AllStillOwned(c, S[..n]) { i := ListedIn(S[..n], x, c); } else { i := n; }
  }

  lemma CanFreeAll(R: Frames, S: Frames, T: Frames, c: Ctx)
    requires Under(R, S, T) && Orderly(S, T, c)
    ensures CanFree(R, AllStillOwned(c, S), c)
  {
    forall x | x in AllStillOwned(c, S) && IsOwning(R, x, c) ensures AllStillOwned(c, S)[x] == 1 && Owns(R, x, c) {
      AllOwned(S, x, c);
      OwningIsTracked(R, S, T, x, c);
      OwnedStays(R, S, T, x, c);
    }
  }

  // ---------------------------------------------------------------- small steps

  lemma BorrowsIff(f: string, i: nat)
    ensures Consumes(f, i) == !Borrows(f, i)
  {}

  lemma UnderSet(R: Frames, S: Frames, T: Frames, x: string, moved: bool, seen: bool)
    requires Under(R, S, T) && (moved ==> seen)
    ensures Under(SetMoved(R, x, moved), SetMoved(S, x, seen), T)
  {
    KeyedFind(R, S, x);
    var a, b := SetMoved(R, x, moved), SetMoved(S, x, seen);
    forall i, y | At(a, i, y) ensures At(b, i, y) {
      if Find(R, x) != Some(i) || y != x { assert At(R, i, y) && At(S, i, y); }
    }
  }

  /** Moved in the walk only. */
  lemma UnderMore(R: Frames, S: Frames, T: Frames, x: string)
    requires Under(R, S, T)
    ensures Under(R, SetMoved(S, x, true), T)
  {
    var b := SetMoved(S, x, true);
    forall i, y | At(R, i, y) ensures At(b, i, y) { assert At(S, i, y); }
  }

  /** A use that the walk accepts is one the run survives; the run moves only what the walk does. */
  lemma UnderIdent(R: Frames, S: Frames, T: Frames, x: string, consume: bool, seen: bool, c: Ctx, plan: seq<nat>)
    requires Under(R, S, T) && CoversAll(S, T, c) && !TouchIdent(S, x, seen, c).bad && (consume ==> seen)
    ensures Safe(Use(R, x, consume, c, plan), TouchIdent(S, x, seen, c), T)
  {
    UnderMore(R, S, T, x);
    if IsOwning(R, x, c) {
      OwningIsTracked(R, S, T, x, c);
      OwnedStays(R, S, T, x, c);
      UnderSet(R, S, T, x, true, true);
    }
  }

  lemma SameTakes(R: Frames, T: Frames, x: string, part: Part, c: Ctx)
    requires Shape(R, T)
    ensures Takes(R, x, part, c) == Takes(T, x, part, c)
  {
    SameFind(R, T, x);
  }

  lemma SameRealTy(e: Expr, span: nat, R: Frames, T: Frames, w: World)
    requires Shape(R, T)
    ensures RealTy(e, span, R, w) == RealTy(e, span, T, w)
  {
    if e.Ident? { SameFind(R, T, e.name); }
  }

  lemma UnderMerge(R: Frames, A: Frames, B: Frames, T: Frames)
    requires Shape(A, B) && (Under(R, A, T) || Under(R, B, T))
    ensures Under(R, Merge(A, B), T)
  {
    forall i, x | At(R, i, x) ensures At(Merge(A, B), i, x) { MergeAt(A, B, i, x); }
    assert Shape(A, Merge(A, B));
  }

  lemma UnderTwice(R: Frames, A: Frames, B: Frames, T: Frames)
    requires Under(R, A, T) && Below(A, B)
    ensures Under(R, B, T)
  {}

  lemma UnderDefine(R: Frames, S: Frames, T: Frames, x: string, ty: Ty)
    requires S != [] && Under(R, S, T)
    ensures Under(Define(R, x, ty), Define(S, x, ty), Define(T, x, ty))
  {
    var a, b := Define(R, x, ty), Define(S, x, ty);
    forall i, y | At(a, i, y) ensures At(b, i, y) { assert At(R, i, y) ==> At(S, i, y); }
  }

  lemma UnderPush(R: Frames, S: Frames, T: Frames, seen: Scope, actual: Scope)
    requires Under(R, S, T) && seen.Keys == actual.Keys && forall x :: x in actual ==> !actual[x].moved
    ensures Under(R + [actual], S + [seen], T + [actual])
  {
    var a, b := R + [actual], S + [seen];
    forall i, x | At(a, i, x) ensures At(b, i, x) { if i < |R| { assert At(R, i, x); } }
  }

  lemma UnderClose(R: Frames, t: Out, T: Frames, key: Key, m: Machine, plan: seq<nat>)
    requires t.frames != [] && Under(R, t.frames, T) && Within(t.Close(key, m.w.c).free, m.free)
    ensures Safe(CloseScope(R, key, m, plan), t.Close(key, m.w.c), T[..|T| - 1])
  {
    assert key in t.Close(key, m.w.c).free;
    CanFreeTop(R, t.frames, T, m.Listed(key), m.w.c);
    var n := |R| - 1;
    forall i, x | At(R[..n], i, x) ensures At(t.frames[..n], i, x) { assert At(R, i, x); }
  }

  lemma OrderlyShape(S: Frames, S2: Frames, T: Frames, c: Ctx)
    requires Shape(S, S2) && Orderly(S, T, c)
    ensures Orderly(S2, T, c)
  {
    forall i | 0 <= i < |S2| ensures Covers(S2[i], T[i], c) { assert Covers(S[i], T[i], c) && SameScope(S[i], S2[i]); }
    DistinctShape(S, S2, c);
  }

  lemma DistinctShape(S: Frames, S2: Frames, c: Ctx)
    requires Shape(S, S2) && Distinct(S, c)
    ensures Distinct(S2, c)
  {}

  lemma OrderlyPush(S: Frames, T: Frames, seen: Scope, actual: Scope, c: Ctx)
    requires Orderly(S, T, c) && Covers(seen, actual, c) && forall x :: x in seen && c.Affine(seen[x].ty) ==> FreeName(S, x, c)
    ensures Orderly(S + [seen], T + [actual], c)
  {
    var D, E := S + [seen], T + [actual];
    forall i | 0 <= i < |D| ensures Covers(D[i], E[i], c) { assert i < |S| ==> D[i] == S[i] && E[i] == T[i]; }
  }

  /** Scopes stay orderly through a tame statement. */
  lemma OrderlyOne(s: Stmt, S: Frames, T: Frames, used: bool, w: World)
    requires S != [] && T != [] && Orderly(S, T, w.c) && TameOne(s, S, T, used, w)
    ensures Orderly(One(s, S, w.c).frames, Typed(s, T), w.c)
  {
    if s.Let? {
      var a := Touch(s.value, S, true, w.c);
      OrderlyShape(S, a.frames, T, w.c);
      if w.c.Affine(s.ty) { SameFree(S, a.frames, s.name, w.c); }
      OrderlyDefine(a.frames, T, s.name, s.ty, w.c);
    } else {
      KeepsShape(s, S, w.c);
      OrderlyShape(S, One(s, S, w.c).frames, T, w.c);
    }
  }

  lemma KeepsShape(s: Stmt, S: Frames, c: Ctx)
    requires S != [] && !s.Let?
    ensures Shape(S, One(s, S, c).frames)
  {
    if s.While? {
      var a := Touch(s.cond, S, true, c);
      ShapeTwice(S, a.frames, Loop(s, a.frames, c).frames);
    }
  }

  lemma ShapeTwice(A: Frames, B: Frames, C: Frames)
    requires Shape(A, B) && Shape(B, C)
    ensures Shape(A, C)
  {}

  lemma SameFree(S: Frames, S2: Frames, x: string, c: Ctx)
    requires S != [] && Shape(S, S2) && FreeName(S[..|S| - 1], x, c)
    ensures FreeName(S2[..|S2| - 1], x, c)
  {
    var a: Frames, b: Frames := S[..|S| - 1], S2[..|S2| - 1];
    forall i: int | 0 <= i < |b| && x in b[i] ensures !c.Affine(b[i][x].ty) { assert a[i] == S[i] && b[i] == S2[i]; }
  }

  lemma {:induction false} OrderlyStmts(b: seq<Stmt>, S: Frames, T: Frames, used: bool, w: World)
    requires S != [] && T != [] && Orderly(S, T, w.c) && TameStmts(b, S, T, used, w)
    ensures Orderly(Stmts(b, S, w.c).frames, TypedAll(b, T), w.c)
    decreases b
  {
    if b != [] {
      OrderlyOne(b[0], S, T, used && b[1..] == [], w);
      OrderlyStmts(b[1..], One(b[0], S, w.c).frames, Typed(b[0], T), used, w);
    }
  }

  lemma OrderlyDefine(S: Frames, T: Frames, x: string, ty: Ty, c: Ctx)
    requires S != [] && Orderly(S, T, c) && Tracked(ty, c) && (c.Affine(ty) ==> FreeName(S[..|S| - 1], x, c))
    ensures Orderly(Define(S, x, ty), Define(T, x, ty), c)
  {
    var D: Frames, E: Frames := Define(S, x, ty), Define(T, x, ty);
    forall i, j, y | 0 <= i < j < |D| && y in D[i] && y in D[j] ensures !c.Affine(D[i][y].ty) || !c.Affine(D[j][y].ty) {
      assert D[i] == S[i] && S[i] == S[..|S| - 1][i];
    }
    forall i | 0 <= i < |D| ensures Covers(D[i], E[i], c) { assert Covers(S[i], T[i], c); }
  }

  // ---------------------------------------------------------------- the simulation

  lemma {:induction false} SimTouch(e: Expr, R: Frames, S: Frames, T: Frames, consume: bool, used: bool, m: Machine, plan: seq<nat>)
    requires Under(R, S, T) && Orderly(S, T, m.w.c) && Tame(e, S, T, consume, used, m.w)
    requires var t := Touch(e, S, consume, m.w.c); !t.bad && Within(t.free, m.free)
    ensures Safe(Run(e, R, consume, used, m, plan), Touch(e, S, consume, m.w.c), T)
    decreases e, 2
  {
    match e
    case Lit =>
    case Ident(x) => UnderIdent(R, S, T, x, consume, consume, m.w.c, plan);
    case Logic(l, r) => SimLogic(e, R, S, T, m, plan);
    case Call(f, args) => SimArgs(f, args, 0, R, S, T, m, plan);
    case Read(inner) => SimTouch(inner, R, S, T, false, true, m, plan);
    case Project(base, part) =>
      if base.Ident? { SimPart(base.name, part, R, S, T, m, plan); } else { SimTouch(base, R, S, T, false, true, m, plan); }
    case If(_, _, _, _) => SimIf(e, R, S, T, used, m, plan);
    case Assign(_, _) => SimAssign(e, R, S, T, consume, used, m, plan);
    case Match(_, _, _) => SimMatch(e, R, S, T, used, m, plan);
  }

  lemma SimPart(x: string, part: Part, R: Frames, S: Frames, T: Frames, m: Machine, plan: seq<nat>)
    requires Under(R, S, T) && Orderly(S, T, m.w.c) && TrackedPart(S, T, x, part, m.w.c)
    requires !TouchIdent(S, x, ExtractsFrom(S, x, part, m.w.c), m.w.c).bad
    ensures Safe(Use(R, x, Takes(R, x, part, m.w.c), m.w.c, plan), TouchIdent(S, x, ExtractsFrom(S, x, part, m.w.c), m.w.c), T)
  {
    SameTakes(R, T, x, part, m.w.c);
    UnderIdent(R, S, T, x, Takes(R, x, part, m.w.c), ExtractsFrom(S, x, part, m.w.c), m.w.c, plan);
  }

  lemma {:induction false} SimAssign(e: Expr, R: Frames, S: Frames, T: Frames, consume: bool, used: bool, m: Machine, plan: seq<nat>)
    requires e.Assign? && Under(R, S, T) && Orderly(S, T, m.w.c) && Tame(e, S, T, consume, used, m.w)
    requires var t := Touch(e, S, consume, m.w.c); !t.bad && Within(t.free, m.free)
    ensures Safe(Run(e, R, consume, used, m, plan), Touch(e, S, consume, m.w.c), T)
    decreases e, 1
  {
    var a := Touch(e.rhs, S, true, m.w.c);
    SimTouch(e.rhs, R, S, T, true, true, m, plan);
    var r := Run(e.rhs, R, true, true, m, plan);
    if r.out.Running? {
      OrderlyShape(S, a.frames, T, m.w.c);
      if IsOwning(r.out.frames, e.name, m.w.c) { OwningIsTracked(r.out.frames, a.frames, T, e.name, m.w.c); }
      UnderSet(r.out.frames, a.frames, T, e.name, false, false);
    }
  }

  lemma {:induction false} SimLogic(e: Expr, R: Frames, S: Frames, T: Frames, m: Machine, plan: seq<nat>)
    requires e.Logic? && Under(R, S, T) && Orderly(S, T, m.w.c) && Tame(e, S, T, true, true, m.w)
    requires var t := Touch(e, S, true, m.w.c); !t.bad && Within(t.free, m.free)
    ensures Safe(Run(e, R, true, true, m, plan), Touch(e, S, true, m.w.c), T)
    decreases e, 1
  {
    var a := Touch(e.l, S, true, m.w.c);
    var b := Touch(e.r, a.frames, true, m.w.c);
    assert Within(a.free, m.free) && Within(b.free, m.free);
    SimTouch(e.l, R, S, T, true, true, m, plan);
    var r := Run(e.l, R, true, true, m, plan);
    if r.out.Running? {
      OrderlyShape(S, a.frames, T, m.w.c);
      SimTouch(e.r, r.out.frames, a.frames, T, true, true, m, Rest(r.plan));
      UnderTwice(r.out.frames, a.frames, b.frames, T);
    }
  }

  lemma {:induction false} SimArgs(f: string, args: seq<Expr>, i: nat, R: Frames, S: Frames, T: Frames, m: Machine, plan: seq<nat>)
    requires Under(R, S, T) && Orderly(S, T, m.w.c) && TameArgs(f, args, i, S, T, m.w)
    requires var t := TouchArgs(f, args, i, S, m.w.c); !t.bad && Within(t.free, m.free)
    ensures Safe(RunArgs(f, args, i, R, m, plan), TouchArgs(f, args, i, S, m.w.c), T)
    decreases args
  {
    if args != [] {
      var a := Touch(args[0], S, Consumes(f, i), m.w.c);
      var b := TouchArgs(f, args[1..], i + 1, a.frames, m.w.c);
      assert Within(a.free, m.free) && Within(b.free, m.free);
      BorrowsIff(f, i);
      SimTouch(args[0], R, S, T, Consumes(f, i), true, m, plan);
      var r := Run(args[0], R, Consumes(f, i), true, m, plan);
      if r.out.Running? {
        OrderlyShape(S, a.frames, T, m.w.c);
        SimArgs(f, args[1..], i + 1, r.out.frames, a.frames, T, m, r.plan);
      }
    }
  }

  lemma {:induction false} SimIf(e: Expr, R: Frames, S: Frames, T: Frames, used: bool, m: Machine, plan: seq<nat>)
    requires e.If? && Under(R, S, T) && Orderly(S, T, m.w.c) && TameIf(e, S, T, used, m.w)
    requires var t := TouchIf(e, S, m.w.c); !t.bad && Within(t.free, m.free)
    ensures Safe(RunIf(e, R, used, m, plan), TouchIf(e, S, m.w.c), T)
    decreases e, 1
  {
    var a := Touch(e.cond, S, true, m.w.c);
    var b := Block(AtIf(e.span, true), e.thn, a.frames, m.w.c);
    var d := TouchElse(e.span, e.els, a.frames, m.w.c);
    assert Within(a.free, m.free) && Within(b.free, m.free) && Within(d.free, m.free);
    SimTouch(e.cond, R, S, T, true, true, m, plan);
    var r := Run(e.cond, R, true, true, m, plan);
    if r.out.Running? {
      OrderlyShape(S, a.frames, T, m.w.c);
      SimBlock(AtIf(e.span, true), e.thn, r.out.frames, a.frames, T, used, m, Rest(r.plan));
      SimElse(e.span, e.els, r.out.frames, a.frames, T, used, m, Rest(r.plan));
      var q := RunIf(e, R, used, m, plan);
      if q.out.Running? { UnderMerge(q.out.frames, b.frames, d.frames, T); }
    }
  }

  lemma {:induction false} SimElse(span: nat, els: Else, R: Frames, S: Frames, T: Frames, used: bool, m: Machine, plan: seq<nat>)
    requires Under(R, S, T) && Orderly(S, T, m.w.c) && TameElse(span, els, S, T, used, m.w)
    requires var t := TouchElse(span, els, S, m.w.c); !t.bad && Within(t.free, m.free)
    ensures Safe(RunElse(span, els, R, used, m, plan), TouchElse(span, els, S, m.w.c), T)
    decreases els
  {
    match els
    case NoElse =>
    case ElseBlock(b) => SimBlock(AtIf(span, false), b, R, S, T, used, m, plan);
    case ElseIf(e) => SimTouch(e, R, S, T, true, used, m, plan);
  }

  lemma {:induction false} SimMatch(e: Expr, R: Frames, S: Frames, T: Frames, used: bool, m: Machine, plan: seq<nat>)
    requires e.Match? && Under(R, S, T) && Orderly(S, T, m.w.c) && TameMatch(e, S, T, used, m.w)
    requires var t := TouchMatch(e, S, m.w.c); !t.bad && Within(t.free, m.free)
    ensures Safe(RunMatch(e, R, used, m, plan), TouchMatch(e, S, m.w.c), T)
    decreases e, 1
  {
    var a := Touch(e.scrutinee, S, true, m.w.c);
    var args, ty := ConcreteArgs(e.scrutinee, a.frames, m.w.c), RealTy(e.scrutinee, e.span, T, m.w);
    var t := TouchArms(e.span, e.arms, a.frames, args, m.w.c);
    assert Within(a.free, m.free) && Within(t.free, m.free);
    SimTouch(e.scrutinee, R, S, T, true, true, m, plan);
    var r := Run(e.scrutinee, R, true, true, m, plan);
    if r.out.Running? && e.arms != [] {
      OrderlyShape(S, a.frames, T, m.w.c);
      SameRealTy(e.scrutinee, e.span, r.out.frames, T, m.w);
      SimArms(e.span, e.arms, Choice(r.plan) % |e.arms|, r.out.frames, a.frames, T, args, ty, used, m, Rest(r.plan));
    }
  }

  lemma {:induction false} SimArms(
      span: nat, arms: seq<Arm>, k: nat, R: Frames, S: Frames, T: Frames, args: Option<seq<Ty>>, ty: Ty, used: bool, m: Machine, plan: seq<nat>)
    requires k < |arms| && Under(R, S, T) && Orderly(S, T, m.w.c) && TameArms(span, arms, S, T, args, ty, used, m.w)
    requires var t := TouchArms(span, arms, S, args, m.w.c); !t.bad && Within(t.free, m.free)
    ensures Safe(RunArm(span, k, arms[k], R, ty, used, m, plan), TouchArms(span, arms, S, args, m.w.c), T)
    decreases arms
  {
    EachArm(span, arms, k, S, T, args, ty, used, m.w, m.free);
    SimArm(span, k, arms[k], R, S, T, args, ty, used, m, plan);
    var q := RunArm(span, k, arms[k], R, ty, used, m, plan);
    if q.out.Running? { ArmUnder(span, arms, k, q.out.frames, S, T, args, m.w.c); }
  }

  /** What holds of all arms of a match holds of each. */
  lemma EachArm(span: nat, arms: seq<Arm>, k: nat, S: Frames, T: Frames, args: Option<seq<Ty>>, ty: Ty, used: bool, w: World, all: FreeMap)
    requires k < |arms| && TameArms(span, arms, S, T, args, ty, used, w)
    requires var t := TouchArms(span, arms, S, args, w.c); !t.bad && Within(t.free, all)
    ensures var b := TouchArm(span, k, arms[k], S, args, w.c);
            TameArm(span, k, arms[k], S, T, args, ty, used, w) && !b.bad && Within(b.free, all)
  {
    JoinFine(S, ArmOuts(span, arms, S, args, w.c), |arms|, k, all);
  }

  lemma {:induction false} JoinFine(S: Frames, outs: seq<Out>, n: nat, k: nat, all: FreeMap)
    requires k < n <= |outs| && AllApart(outs) && !Join(S, outs, n).bad && Within(Join(S, outs, n).free, all)
    ensures !outs[k].bad && Within(outs[k].free, all)
  {
    forall key | key in outs[k].free ensures key in all && all[key] == outs[k].free[key] { JoinRecords(S, outs, n, k, key); }
    JoinBad(S, outs, n, k);
  }

  lemma {:induction false} JoinBad(S: Frames, outs: seq<Out>, n: nat, k: nat)
    requires k < n <= |outs| && !Join(S, outs, n).bad
    ensures !outs[k].bad
  {
    if k < n - 1 { JoinBad(S, outs, n - 1, k); }
  }

  lemma {:induction false} JoinRecords(S: Frames, outs: seq<Out>, n: nat, k: nat, key: Key)
    requires k < n <= |outs| && AllApart(outs) && key in outs[k].free
    ensures key in Join(S, outs, n).free && Join(S, outs, n).free[key] == outs[k].free[key]
  {
    if k < n - 1 {
      JoinRecords(S, outs, n - 1, k, key);
      assert Apart(outs[k], outs[n - 1]);
    }
  }

  /** What one arm leaves is below what the match leaves. */
  lemma ArmUnder(span: nat, arms: seq<Arm>, k: nat, R: Frames, S: Frames, T: Frames, args: Option<seq<Ty>>, c: Ctx)
    requires k < |arms| && Under(R, TouchArm(span, k, arms[k], S, args, c).frames, T)
    ensures Under(R, TouchArms(span, arms, S, args, c).frames, T)
  {
    JoinAbove(R, S, T, ArmOuts(span, arms, S, args, c), |arms|, k);
  }

  lemma {:induction false} JoinAbove(R: Frames, S: Frames, T: Frames, outs: seq<Out>, n: nat, k: nat)
    requires k < n <= |outs| && Under(R, outs[k].frames, T) && forall j :: 0 <= j < |outs| ==> Shape(S, outs[j].frames)
    ensures Under(R, Join(S, outs, n).frames, T)
  {
    if n > 1 {
      if k < n - 1 { JoinAbove(R, S, T, outs, n - 1, k); }
      JoinShape(S, outs, n - 1);
      SameStart(S, Join(S, outs, n - 1).frames, outs[n - 1].frames);
      UnderMerge(R, Join(S, outs, n - 1).frames, outs[n - 1].frames, T);
    }
  }

  lemma {:induction false} SimArm(
      span: nat, index: nat, arm: Arm, R: Frames, S: Frames, T: Frames, args: Option<seq<Ty>>, ty: Ty, used: bool, m: Machine, plan: seq<nat>)
    requires Under(R, S, T) && Orderly(S, T, m.w.c) && TameArm(span, index, arm, S, T, args, ty, used, m.w)
    requires var t := TouchArm(span, index, arm, S, args, m.w.c); !t.bad && Within(t.free, m.free)
    ensures Safe(RunArm(span, index, arm, R, ty, used, m, plan), TouchArm(span, index, arm, S, args, m.w.c), T)
    decreases arm
  {
    var top, actual := ArmScope(arm, args, m.w.c), RealScope(arm, ty, m.w.c.table);
    var a := Touch(arm.body, S + [top], true, m.w.c);
    assert Within(a.free, m.free);
    UnderPush(R, S, T, top, actual);
    OrderlyPush(S, T, top, actual, m.w.c);
    SimTouch(arm.body, R + [actual], S + [top], T + [actual], true, used, m, plan);
    var r := Run(arm.body, R + [actual], true, used, m, plan);
    if r.out.Running? {
      UnderClose(r.out.frames, a, T + [actual], AtArm(span, index), m, r.plan);
      assert (T + [actual])[..|T|] == T;
    }
  }

  lemma {:induction false} SimBlock(key: Key, b: seq<Stmt>, R: Frames, S: Frames, T: Frames, used: bool, m: Machine, plan: seq<nat>)
    requires Under(R, S, T) && Orderly(S, T, m.w.c) && TameBlock(key, b, S, T, used, m.w)
    requires var t := Block(key, b, S, m.w.c); !t.bad && Within(t.free, m.free)
    ensures Safe(RunBlock(key, b, R, used, m, plan), Block(key, b, S, m.w.c), T)
    decreases b, 1, |plan|
  {
    var top: Scope := map[];
    var a, T2 := Stmts(b, S + [top], m.w.c), TypedAll(b, T + [top]);
    assert Within(a.free, m.free);
    PushEmpty(R, S, T, m.w.c);
    SimStmts(b, R + [top], S + [top], T + [top], used, m, plan);
    var r := RunStmts(b, R + [top], used, m, plan);
    if r.out.Running? {
      UnderClose(r.out.frames, a, T2, key, m, r.plan);
      SameBelow(T, top, T2);
    }
  }

  lemma PushEmpty(R: Frames, S: Frames, T: Frames, c: Ctx)
    requires Under(R, S, T) && Orderly(S, T, c)
    ensures Under(R + [map[]], S + [map[]], T + [map[]]) && Orderly(S + [map[]], T + [map[]], c)
  {
    var top: Scope := map[];
    UnderPush(R, S, T, top, top);
    OrderlyPush(S, T, top, top, c);
  }

  lemma SameBelow(T: Frames, top: Scope, T2: Frames)
    requires |T2| == |T| + 1 && forall i :: 0 <= i < |T| ==> T2[i] == (T + [top])[i]
    ensures T2[..|T2| - 1] == T
  {}

  lemma {:induction false} SimStmts(b: seq<Stmt>, R: Frames, S: Frames, T: Frames, used: bool, m: Machine, plan: seq<nat>)
    requires S != [] && Under(R, S, T) && Orderly(S, T, m.w.c) && TameStmts(b, S, T, used, m.w)
    requires var t := Stmts(b, S, m.w.c); !t.bad && Within(t.free, m.free)
    ensures Safe(RunStmts(b, R, used, m, plan), Stmts(b, S, m.w.c), TypedAll(b, T))
    decreases b, 0, |plan|
  {
    if b != [] {
      var a := One(b[0], S, m.w.c);
      var t := Stmts(b[1..], a.frames, m.w.c);
      assert Within(a.free, m.free) && Within(t.free, m.free);
      SimOne(b[0], R, S, T, used && b[1..] == [], m, plan);
      OrderlyOne(b[0], S, T, used && b[1..] == [], m.w);
      var r := RunOne(b[0], R, used && b[1..] == [], m, plan);
      if r.out.Running? { SimStmts(b[1..], r.out.frames, a.frames, Typed(b[0], T), used, m, r.plan); }
    }
  }

  lemma {:induction false} SimOne(s: Stmt, R: Frames, S: Frames, T: Frames, used: bool, m: Machine, plan: seq<nat>)
    requires S != [] && Under(R, S, T) && Orderly(S, T, m.w.c) && TameOne(s, S, T, used, m.w)
    requires var t := One(s, S, m.w.c); !t.bad && Within(t.free, m.free)
    ensures Safe(RunOne(s, R, used, m, plan), One(s, S, m.w.c), Typed(s, T))
    decreases s, 2, |plan|
  {
    match s
    case Let(_, _, _) => SimLet(s, R, S, T, used, m, plan);
    case Return(_, _) => SimReturn(s, R, S, T, used, m, plan);
    case While(_, _, _) => SimWhile(s, R, S, T, m, plan);
    case ExprStmt(e) => SimTouch(e, R, S, T, true, used, m, plan);
    case Audited(span, body) => SimBlock(AtAudited(span), body, R, S, T, false, m, plan);
  }

  lemma {:induction false} SimLet(s: Stmt, R: Frames, S: Frames, T: Frames, used: bool, m: Machine, plan: seq<nat>)
    requires s.Let? && S != [] && Under(R, S, T) && Orderly(S, T, m.w.c) && TameOne(s, S, T, used, m.w)
    requires var t := One(s, S, m.w.c); !t.bad && Within(t.free, m.free)
    ensures Safe(RunOne(s, R, used, m, plan), One(s, S, m.w.c), Typed(s, T))
    decreases s, 1
  {
    var a := Touch(s.value, S, true, m.w.c);
    SimTouch(s.value, R, S, T, true, true, m, plan);
    var r := Run(s.value, R, true, true, m, plan);
    if r.out.Running? { UnderDefine(r.out.frames, a.frames, T, s.name, s.ty); }
  }

  lemma {:induction false} SimReturn(s: Stmt, R: Frames, S: Frames, T: Frames, used: bool, m: Machine, plan: seq<nat>)
    requires s.Return? && S != [] && Under(R, S, T) && Orderly(S, T, m.w.c) && TameOne(s, S, T, used, m.w)
    requires var t := One(s, S, m.w.c); !t.bad && Within(t.free, m.free)
    ensures Safe(RunOne(s, R, used, m, plan), One(s, S, m.w.c), T)
    decreases s, 1
  {
    var key := AtReturn(s.span);
    var t := One(s, S, m.w.c);
    assert key in t.free && t.free[key] == AllStillOwned(m.w.c, t.frames);
    if s.result.Some? {
      var a := Touch(s.result.value, S, true, m.w.c);
      assert Within(a.free, m.free);
      SimTouch(s.result.value, R, S, T, true, true, m, plan);
      OrderlyShape(S, a.frames, T, m.w.c);
      var r := Run(s.result.value, R, true, true, m, plan);
      if r.out.Running? { CanFreeAll(r.out.frames, a.frames, T, m.w.c); }
    } else {
      CanFreeAll(R, S, T, m.w.c);
    }
  }

  lemma {:induction false} SimWhile(s: Stmt, R: Frames, S: Frames, T: Frames, m: Machine, plan: seq<nat>)
    requires s.While? && S != [] && Under(R, S, T) && Orderly(S, T, m.w.c) && TameOne(s, S, T, false, m.w)
    requires var t := One(s, S, m.w.c); !t.bad && Within(t.free, m.free)
    ensures Safe(RunLoop(s, R, m, plan), One(s, S, m.w.c), T)
    decreases s, 1, |plan| + 1
  {
    var a := Touch(s.cond, S, true, m.w.c);
    var E := Entry(s, a.frames, m.w.c);
    SecondWalkIsFixedPoint(s, a.frames, m.w.c);
    WithinThen(a, Loop(s, a.frames, m.w.c), m.free);
    BelowEntry(a.frames, E, S);
    SimRounds(s, R, S, T, a.frames, m, plan);
  }

  lemma BelowEntry(A: Frames, E: Frames, S: Frames)
    requires Shape(S, A) && Below(A, E)
    ensures Shape(S, E)
  {}

  lemma WithinThen(a: Out, b: Out, all: FreeMap)
    requires Apart(a, b) && Within(a.Then(b).free, all)
    ensures Within(a.free, all) && Within(b.free, all)
  {}

  /** Rounds of a loop. The condition is evaluated from a state below `X`: the state before the loop, or
      the one the second walk started from; every iteration starts and ends below the latter. */
  lemma {:induction false} SimRounds(s: Stmt, R: Frames, X: Frames, T: Frames, A: Frames, m: Machine, plan: seq<nat>)
    requires s.While? && A != [] && Orderly(X, T, m.w.c) && Under(R, X, T) && Shape(X, A)
    requires var E := Entry(s, A, m.w.c);
             TameBlock(AtWhileEnd(s.span), s.body, E, T, false, m.w) && Tame(s.cond, X, T, true, true, m.w) && Tame(s.cond, E, T, true, true, m.w)
             && (var t := Touch(s.cond, X, true, m.w.c); !t.bad && Within(t.free, m.free) && Below(t.frames, E))
             && (var t := Touch(s.cond, E, true, m.w.c); !t.bad && Within(t.free, m.free) && Below(t.frames, E))
    requires var t := Loop(s, A, m.w.c); !t.bad && Within(t.free, m.free)
    ensures Safe(RunLoop(s, R, m, plan), Loop(s, A, m.w.c), T)
    decreases s, 1, |plan|
  {
    var E, key := Entry(s, A, m.w.c), AtWhileEnd(s.span);
    SecondWalkIsFixedPoint(s, A, m.w.c);
    OrderlyShape(X, E, T, m.w.c);
    SimTouch(s.cond, R, X, T, true, true, m, plan);
    var r := Run(s.cond, R, true, true, m, plan);
    if r.out.Running? {
      UnderTwice(r.out.frames, Touch(s.cond, X, true, m.w.c).frames, E, T);
      if Choice(r.plan) != 0 {
        SimBlock(key, s.body, r.out.frames, E, T, false, m, Rest(r.plan));
        var q := RunBlock(key, s.body, r.out.frames, false, m, Rest(r.plan));
        if q.out.Running? {
          UnderTwice(q.out.frames, Iterate(s, E, m.w.c), E, T);
          SimRounds(s, q.out.frames, E, T, A, m, q.plan);
        }
      }
    }
  }

  // ---------------------------------------------------------------- the theorem

  lemma StartOrderly(f: FnDecl, c: Ctx)
    requires forall p :: p in f.params ==> Tracked(p.ty, c)
    ensures var S := [ParamScope(f.params)]; Orderly(S, S, c) && Under(S, S, S)
  {
    var S: Frames := [ParamScope(f.params)];
    forall x | x in S[0] ensures Tracked(S[0][x].ty, c) && !S[0][x].moved { var i := ParamBound(f.params, x); }
    assert Covers(S[0], S[0], c);
  }

  /** A parameter is bound, unmoved, at its declared type; of two of one name the later counts. */
  lemma {:induction false} ParamBound(params: seq<Param>, x: string) returns (i: nat)
    requires x in ParamScope(params)
    ensures i < |params| && params[i].name == x && ParamScope(params)[x] == Slot(params[i].ty, false)
    ensures forall j :: i < j < |params| ==> params[j].name != x
  {
    var n := |params| - 1;
    i := n;
    if params[n].name != x { i := ParamBound(params[..n], x); }
  }

  lemma {:induction false} ParamsBound(params: seq<Param>, i: nat)
    requires i < |params|
    ensures params[i].name in ParamScope(params)
  {
    var n := |params| - 1;
    if i < n { ParamsBound(params[..n], i); }
  }

  /** An accepted function never faults, whatever choices a run meets: it never uses a binding after
      moving out of it, and every name it frees anywhere is listed once and still owned there. */
  lemma AcceptedIsSafe(f: FnDecl, m: Machine, plan: seq<nat>)
    requires !CheckFn(f, m.w.c).bad && TameFn(f, m.w) && Within(CheckFn(f, m.w.c).free, m.free)
    ensures RunFn(f, m, plan).Returned?
  {
    var S := [ParamScope(f.params)];
    var t := Stmts(f.body, S, m.w.c);
    var all := CheckFn(f, m.w.c).free;
    var key := AtFnEnd(f.name);
    assert Within(t.free, m.free);
    StartOrderly(f, m.w.c);
    SimStmts(f.body, S, S, S, false, m, plan);
    var r := RunStmts(f.body, S, false, m, plan);
    if r.out.Running? {
      assert key in all;
      CanFreeTop(r.out.frames, t.frames, TypedAll(f.body, S), m.Listed(key), m.w.c);
    }
  }
}
