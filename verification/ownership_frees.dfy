/** What the free map lists: everything the walk still takes to be owned, as often as scopes own it, so
    what a run still owns there is freed unless some other path may have moved it. */
module OwnershipFrees {
  import opened Prelude
  import opened Types
  import opened Registry
  import opened Ownership
  import opened OwnershipLoops
  import opened OwnershipTypes
  import opened OwnershipRun
  import opened OwnershipSound

  /** The scopes of `S` with an affine binding called `x` that is not moved. */
  function OwnersOf(S: Frames, x: string, c: Ctx): set<nat> {
    set i: nat | i < |S| && x in S[i] && c.Affine(S[i][x].ty) && !S[i][x].moved
  }

  predicate OwnsHere(scope: Scope, x: string, c: Ctx) { x in scope && c.Affine(scope[x].ty) && !scope[x].moved }

  lemma OwnedHere(scope: Scope, x: string, c: Ctx)
    ensures StillOwned(c, scope)[x] == if OwnsHere(scope, x, c) then 1 else 0
  {}

  lemma OwnersSplit(S: Frames, x: string, c: Ctx)
    requires S != []
    ensures var n := |S| - 1; var before := OwnersOf(S[..n], x, c);
            n !in before && OwnersOf(S, x, c) == if OwnsHere(S[n], x, c) then before + {n} else before
  {
    var n := |S| - 1;
    forall i: nat ensures i in OwnersOf(S, x, c) <==> i in OwnersOf(S[..n], x, c) || (i == n && OwnsHere(S[n], x, c)) {}
  }

  lemma {:induction false} ListedAsOwned(S: Frames, x: string, c: Ctx)
    ensures AllStillOwned(c, S)[x] == |OwnersOf(S, x, c)|
  {
    if S == [] {
      assert OwnersOf(S, x, c) == {};
    } else {
      var n := |S| - 1;
      ListedAsOwned(S[..n], x, c);
      OwnersSplit(S, x, c);
      OwnedHere(S[n], x, c);
    }
  }

  /** A `return` lists a name once for every scope that owns something by that name after the value. */
  lemma ReturnLists(span: nat, v: Option<Expr>, S: Frames, c: Ctx, x: string)
    requires S != []
    ensures var o := One(Return(span, v), S, c); AtReturn(span) in o.free && o.free[AtReturn(span)][x] == |OwnersOf(o.frames, x, c)|
  {
    ListedAsOwned(One(Return(span, v), S, c).frames, x, c);
  }

  /** The end of a scope lists what that scope owns. */
  lemma CloseLists(o: Out, key: Key, c: Ctx, x: string)
    requires o.frames != []
    ensures var n := |o.frames| - 1;
            key in o.Close(key, c).free && o.Close(key, c).free[key][x] == if n in OwnersOf(o.frames, x, c) then 1 else 0
  {}

  /** The end of a function lists what its parameters and its body's own bindings still own. */
  lemma FunctionEndLists(f: FnDecl, c: Ctx, x: string)
    ensures var S := Stmts(f.body, [ParamScope(f.params)], c).frames;
            AtFnEnd(f.name) in CheckFn(f, c).free && CheckFn(f, c).free[AtFnEnd(f.name)][x] == |OwnersOf(S, x, c)|
  {
    var S := Stmts(f.body, [ParamScope(f.params)], c).frames;
    assert OwnersOf(S, x, c) == if 0 in OwnersOf(S, x, c) then {0} else {};
  }

  /** Every block, branch and arm lists what its scope still owns at its end, under its own key. */
  lemma ScopeEndsList(key: Key, b: seq<Stmt>, S: Frames, c: Ctx, x: string)
    ensures var U := Stmts(b, S + [map[]], c).frames;
            key in Block(key, b, S, c).free && Block(key, b, S, c).free[key][x] == if |S| in OwnersOf(U, x, c) then 1 else 0
  {
    CloseLists(Stmts(b, S + [map[]], c), key, c, x);
  }

  lemma ArmEndLists(span: nat, index: nat, arm: Arm, S: Frames, args: Option<seq<Ty>>, c: Ctx, x: string)
    ensures var U := Touch(arm.body, S + [ArmScope(arm, args, c)], true, c).frames; var free := TouchArm(span, index, arm, S, args, c).free;
            AtArm(span, index) in free && free[AtArm(span, index)][x] == if |S| in OwnersOf(U, x, c) then 1 else 0
  {
    CloseLists(Touch(arm.body, S + [ArmScope(arm, args, c)], true, c), AtArm(span, index), c, x);
  }

  /** What a run really owns and the walk has not moved is listed. */
  lemma OwnedIsListed(R: Frames, S: Frames, T: Frames, i: nat, x: string, c: Ctx)
    requires Under(R, S, T) && CoversAll(S, T, c) && i < |R| && x in R[i] && Owning(c, R[i][x].ty) && !S[i][x].moved
    ensures x in AllStillOwned(c, S)
  {
    assert Covers(S[i], T[i], c) && R[i][x].ty == T[i][x].ty;
    ListedAsOwned(S, x, c);
    assert i in OwnersOf(S, x, c);
  }

  /** The same at the end of a scope. */
  lemma OwnedOnTopIsListed(R: Frames, S: Frames, T: Frames, x: string, c: Ctx)
    requires Under(R, S, T) && CoversAll(S, T, c) && R != [] && x in R[|R| - 1] && Owning(c, R[|R| - 1][x].ty) && !S[|S| - 1][x].moved
    ensures x in StillOwned(c, S[|S| - 1])
  {
    var n := |R| - 1;
    assert Covers(S[n], T[n], c) && R[n][x].ty == T[n][x].ty;
  }

  /** At a `return` of an accepted function, a run's bindings that still own something are freed, other
      than those that the walk takes to be moved because another way there moves them. */
  lemma ReturnFrees(s: Stmt, R: Frames, S: Frames, T: Frames, used: bool, m: Machine, plan: seq<nat>, i: nat, x: string)
    requires s.Return? && s.result.Some? && S != [] && Under(R, S, T) && Orderly(S, T, m.w.c) && TameOne(s, S, T, used, m.w)
    requires var t := One(s, S, m.w.c); !t.bad && Within(t.free, m.free)
    requires var r := Run(s.result.value, R, true, true, m, plan);
             r.out.Running? && i < |r.out.frames| && x in r.out.frames[i] && Owning(m.w.c, r.out.frames[i][x].ty)
    ensures i < |One(s, S, m.w.c).frames| && x in One(s, S, m.w.c).frames[i]
    ensures One(s, S, m.w.c).frames[i][x].moved || x in m.Listed(AtReturn(s.span))
  {
    var a, r := Touch(s.result.value, S, true, m.w.c), Run(s.result.value, R, true, true, m, plan);
    assert Within(a.free, m.free);
    SimTouch(s.result.value, R, S, T, true, true, m, plan);
    OrderlyShape(S, a.frames, T, m.w.c);
    if !a.frames[i][x].moved { OwnedIsListed(r.out.frames, a.frames, T, i, x, m.w.c); }
    assert AtReturn(s.span) in One(s, S, m.w.c).free;
  }

  // ---------------------------------------------------------------- scopes

  /** Setting a flag touches the innermost binding of that name and nothing else. */
  lemma SetsInnermost(S: Frames, x: string, moved: bool, i: nat, y: string)
    requires i < |S| && y in S[i]
    ensures var U := SetMoved(S, x, moved);
            Shape(S, U) && U[i][y].moved
            == if y == x && (forall j :: i < j < |S| ==> x !in S[j]) then moved else S[i][y].moved
  {}

  /** A `let` binds in the top scope, unmoved, and hides or replaces nothing else. */
  lemma DefinesOnTop(S: Frames, x: string, ty: Ty, i: nat, y: string)
    requires S != [] && i < |S|
    ensures var U := Define(S, x, ty);
            |U| == |S| && (y in U[i] <==> y in S[i] || (i == |S| - 1 && y == x))
            && (y in U[i] ==> U[i][y] == if i == |S| - 1 && y == x then Slot(ty, false) else S[i][y])
  {}
}
