/** Walking a loop body twice reaches an exact fixed point, and errors only grow with what has been
    moved. Both follow from one fact: what the walk does to the moved flag of a variable is a
    monotone function of that flag alone. */
module OwnershipLoops {
  import opened Prelude
  import opened Types
  import opened Registry
  import opened Ownership

  predicate At(S: Frames, i: int, x: string) { 0 <= i < |S| && x in S[i] && S[i][x].moved }

  /** Same shape, and everything moved in `A` is moved in `B`. */
  ghost predicate Below(A: Frames, B: Frames) {
    Shape(A, B) && forall i, x :: At(A, i, x) ==> At(B, i, x)
  }

  /** Going from `S` to `T` and from `S2` to `T2` does the same to every flag. */
  ghost predicate Follows(S: Frames, S2: Frames, T: Frames, T2: Frames) {
    forall i, x :: (At(S, i, x) ==> At(S2, i, x)) ==> (At(T, i, x) ==> At(T2, i, x))
  }

  /** How the walks of one piece of code from `S` and from `S2` compare. */
  ghost predicate Alike(S: Frames, S2: Frames, a: Out, b: Out) {
    Shape(a.frames, b.frames) && a.free.Keys == b.free.Keys && Follows(S, S2, a.frames, b.frames)
    && (Below(S, S2) && a.bad ==> b.bad)
  }

  // ---------------------------------------------------------------- scopes

  lemma SameFind(S: Frames, S2: Frames, x: string)
    requires Shape(S, S2)
    ensures Find(S, x) == Find(S2, x)
  {}

  lemma AlikeSkip(S: Frames, S2: Frames)
    requires Shape(S, S2)
    ensures Alike(S, S2, Skip(S), Skip(S2))
  {}

  lemma AlikeSet(S: Frames, S2: Frames, x: string, moved: bool)
    requires Shape(S, S2)
    ensures Shape(SetMoved(S, x, moved), SetMoved(S2, x, moved))
    ensures Follows(S, S2, SetMoved(S, x, moved), SetMoved(S2, x, moved))
  {
    SameFind(S, S2, x);
  }

  lemma AlikeIdent(S: Frames, S2: Frames, x: string, consume: bool, c: Ctx)
    requires Shape(S, S2)
    ensures Alike(S, S2, TouchIdent(S, x, consume, c), TouchIdent(S2, x, consume, c))
  {
    SameFind(S, S2, x);
    if Find(S, x).Some? { AlikeFound(S, S2, Find(S, x).value, x, consume, c); }
  }

  lemma AlikeFound(S: Frames, S2: Frames, k: nat, x: string, consume: bool, c: Ctx)
    requires Shape(S, S2) && Find(S, x) == Some(k) && Find(S2, x) == Some(k)
    ensures Alike(S, S2, TouchIdent(S, x, consume, c), TouchIdent(S2, x, consume, c))
  {
    var a, b := TouchIdent(S, x, consume, c), TouchIdent(S2, x, consume, c);
    assert At(S, k, x) == S[k][x].moved && At(S2, k, x) == S2[k][x].moved;
    forall i, y | At(S, i, y) ==> At(S2, i, y) ensures At(a.frames, i, y) ==> At(b.frames, i, y) {
      if i != k || y != x { assert At(a.frames, i, y) == At(S, i, y) && At(b.frames, i, y) == At(S2, i, y); }
    }
  }

  lemma AlikeDefine(S: Frames, S2: Frames, x: string, ty: Ty)
    requires S != [] && Shape(S, S2)
    ensures Shape(Define(S, x, ty), Define(S2, x, ty)) && Follows(S, S2, Define(S, x, ty), Define(S2, x, ty))
  {}

  lemma AlikeThen(S: Frames, S2: Frames, a: Out, a2: Out, b: Out, b2: Out)
    requires Alike(S, S2, a, a2) && Alike(a.frames, a2.frames, b, b2)
    ensures Alike(S, S2, a.Then(b), a2.Then(b2))
  {}

  lemma MergeAt(A: Frames, B: Frames, i: int, x: string)
    requires Shape(A, B)
    ensures Shape(A, Merge(A, B)) && At(Merge(A, B), i, x) == (At(A, i, x) || At(B, i, x))
  {}

  lemma MergeFollows(S: Frames, S2: Frames, A: Frames, A2: Frames, B: Frames, B2: Frames)
    requires Shape(A, B) && Shape(A, A2) && Shape(A2, B2) && Follows(S, S2, A, A2) && Follows(S, S2, B, B2)
    ensures Shape(Merge(A, B), Merge(A2, B2)) && Follows(S, S2, Merge(A, B), Merge(A2, B2))
  {
    forall i, x | At(S, i, x) ==> At(S2, i, x) ensures At(Merge(A, B), i, x) ==> At(Merge(A2, B2), i, x) {
      MergeAt(A, B, i, x);
      MergeAt(A2, B2, i, x);
    }
  }

  lemma AlikeBranches(S: Frames, S2: Frames, a: Out, a2: Out, b: Out, b2: Out)
    requires Alike(S, S2, a, a2) && Alike(S, S2, b, b2) && Shape(a.frames, b.frames)
    ensures Alike(S, S2, Branches(a, b), Branches(a2, b2))
  {
    MergeFollows(S, S2, a.frames, a2.frames, b.frames, b2.frames);
  }

  lemma FollowsPush(S: Frames, S2: Frames, top: Scope)
    requires Shape(S, S2)
    ensures Shape(S + [top], S2 + [top]) && (Below(S, S2) ==> Below(S + [top], S2 + [top]))
  {
    if Below(S, S2) {
      forall i, x | At(S + [top], i, x) ensures At(S2 + [top], i, x) { assert i < |S| ==> At(S, i, x); }
    }
  }

  lemma AlikeClose(S: Frames, S2: Frames, top: Scope, a: Out, a2: Out, key: Key, c: Ctx)
    requires Shape(S, S2) && Alike(S + [top], S2 + [top], a, a2) && |a.frames| == |S| + 1
    ensures Alike(S, S2, a.Close(key, c), a2.Close(key, c))
  {
    FollowsPush(S, S2, top);
    forall i, x | At(S, i, x) ==> At(S2, i, x)
      ensures At(a.Close(key, c).frames, i, x) ==> At(a2.Close(key, c).frames, i, x)
    {
      if i < |S| {
        assert At(S + [top], i, x) ==> At(S2 + [top], i, x);
        assert At(a.frames, i, x) ==> At(a2.frames, i, x);
      }
    }
  }

  // ---------------------------------------------------------------- the walk

  lemma {:induction false} AlikeTouch(e: Expr, S: Frames, S2: Frames, consume: bool, c: Ctx)
    requires Shape(S, S2)
    ensures Alike(S, S2, Touch(e, S, consume, c), Touch(e, S2, consume, c))
    decreases e, 2
  {
    match e
    case Lit => AlikeSkip(S, S2);
    case Ident(x) => AlikeIdent(S, S2, x, consume, c);
    case Logic(l, r) =>
      AlikeTouch(l, S, S2, true, c);
      var a, a2 := Touch(l, S, true, c), Touch(l, S2, true, c);
      AlikeTouch(r, a.frames, a2.frames, true, c);
    case Call(f, args) => AlikeArgs(f, args, 0, S, S2, c);
    case Read(inner) => AlikeTouch(inner, S, S2, false, c);
    case Project(base, part) =>
      if base.Ident? {
        SameFind(S, S2, base.name);
        AlikeIdent(S, S2, base.name, ExtractsFrom(S, base.name, part, c), c);
      } else { AlikeTouch(base, S, S2, false, c); }
    case If(_, _, _, _) => AlikeIf(e, S, S2, c);
    case Assign(x, rhs) =>
      AlikeTouch(rhs, S, S2, true, c);
      AlikeSet(Touch(rhs, S, true, c).frames, Touch(rhs, S2, true, c).frames, x, false);
    case Match(_, _, _) => AlikeMatch(e, S, S2, c);
  }

  lemma {:induction false} AlikeArgs(f: string, args: seq<Expr>, i: nat, S: Frames, S2: Frames, c: Ctx)
    requires Shape(S, S2)
    ensures Alike(S, S2, TouchArgs(f, args, i, S, c), TouchArgs(f, args, i, S2, c))
    decreases args
  {
    if args == [] { AlikeSkip(S, S2); }
    else {
      AlikeTouch(args[0], S, S2, Consumes(f, i), c);
      var a, a2 := Touch(args[0], S, Consumes(f, i), c), Touch(args[0], S2, Consumes(f, i), c);
      AlikeArgs(f, args[1..], i + 1, a.frames, a2.frames, c);
    }
  }

  lemma {:induction false} AlikeIf(e: Expr, S: Frames, S2: Frames, c: Ctx)
    requires e.If? && Shape(S, S2)
    ensures Alike(S, S2, TouchIf(e, S, c), TouchIf(e, S2, c))
    decreases e, 1
  {
    AlikeTouch(e.cond, S, S2, true, c);
    var a, a2 := Touch(e.cond, S, true, c), Touch(e.cond, S2, true, c);
    var U, U2 := a.frames, a2.frames;
    AlikeBlock(AtIf(e.span, true), e.thn, U, U2, c);
    AlikeElse(e.span, e.els, U, U2, c);
    var b, b2 := Block(AtIf(e.span, true), e.thn, U, c), Block(AtIf(e.span, true), e.thn, U2, c);
    var d, d2 := TouchElse(e.span, e.els, U, c), TouchElse(e.span, e.els, U2, c);
    AlikeBranches(U, U2, b, b2, d, d2);
    AlikeThen(S, S2, a, a2, Branches(b, d), Branches(b2, d2));
  }

  lemma {:induction false} AlikeElse(span: nat, els: Else, S: Frames, S2: Frames, c: Ctx)
    requires Shape(S, S2)
    ensures Alike(S, S2, TouchElse(span, els, S, c), TouchElse(span, els, S2, c))
    decreases els
  {
    match els
    case NoElse => AlikeSkip(S, S2);
    case ElseBlock(b) => AlikeBlock(AtIf(span, false), b, S, S2, c);
    case ElseIf(e) => AlikeTouch(e, S, S2, true, c);
  }

  lemma {:induction false} AlikeMatch(e: Expr, S: Frames, S2: Frames, c: Ctx)
    requires e.Match? && Shape(S, S2)
    ensures Alike(S, S2, TouchMatch(e, S, c), TouchMatch(e, S2, c))
    decreases e, 1
  {
    AlikeTouch(e.scrutinee, S, S2, true, c);
    var a, a2 := Touch(e.scrutinee, S, true, c), Touch(e.scrutinee, S2, true, c);
    SameArgs(e.scrutinee, a.frames, a2.frames, c);
    AlikeArms(e.span, e.arms, a.frames, a2.frames, ConcreteArgs(e.scrutinee, a.frames, c), c);
  }

  lemma SameArgs(e: Expr, S: Frames, S2: Frames, c: Ctx)
    requires Shape(S, S2)
    ensures ConcreteArgs(e, S, c) == ConcreteArgs(e, S2, c)
  {
    if e.Ident? { SameFind(S, S2, e.name); }
  }

  lemma {:induction false} AlikeArms(span: nat, arms: seq<Arm>, S: Frames, S2: Frames, args: Option<seq<Ty>>, c: Ctx)
    requires Shape(S, S2)
    ensures Alike(S, S2, TouchArms(span, arms, S, args, c), TouchArms(span, arms, S2, args, c))
    decreases arms
  {
    var a, b := ArmOuts(span, arms, S, args, c), ArmOuts(span, arms, S2, args, c);
    forall k | 0 <= k < |arms| ensures Alike(S, S2, a[k], b[k]) { AlikeArm(span, k, arms[k], S, S2, args, c); }
    AlikeJoin(S, S2, a, b, |arms|);
  }

  lemma {:induction false} AlikeJoin(S: Frames, S2: Frames, a: seq<Out>, b: seq<Out>, n: nat)
    requires Shape(S, S2) && |a| == |b| && n <= |a|
    requires forall k :: 0 <= k < n ==> Alike(S, S2, a[k], b[k]) && Shape(S, a[k].frames)
    ensures Alike(S, S2, Join(S, a, n), Join(S2, b, n))
  {
    if n == 0 { AlikeSkip(S, S2); }
    else if n > 1 {
      AlikeJoin(S, S2, a, b, n - 1);
      JoinShape(S, a, n - 1);
      SameStart(S, Join(S, a, n - 1).frames, a[n - 1].frames);
      AlikeBranches(S, S2, Join(S, a, n - 1), Join(S2, b, n - 1), a[n - 1], b[n - 1]);
    }
  }

  lemma SameStart(S: Frames, A: Frames, B: Frames)
    requires Shape(S, A) && Shape(S, B)
    ensures Shape(A, B)
  {}

  lemma {:induction false} AlikeArm(span: nat, index: nat, arm: Arm, S: Frames, S2: Frames, args: Option<seq<Ty>>, c: Ctx)
    requires Shape(S, S2)
    ensures Alike(S, S2, TouchArm(span, index, arm, S, args, c), TouchArm(span, index, arm, S2, args, c))
    decreases arm
  {
    var top := ArmScope(arm, args, c);
    AlikeTouch(arm.body, S + [top], S2 + [top], true, c);
    AlikeClose(S, S2, top, Touch(arm.body, S + [top], true, c), Touch(arm.body, S2 + [top], true, c), AtArm(span, index), c);
  }

  lemma {:induction false} AlikeBlock(key: Key, b: seq<Stmt>, S: Frames, S2: Frames, c: Ctx)
    requires Shape(S, S2)
    ensures Alike(S, S2, Block(key, b, S, c), Block(key, b, S2, c))
    decreases b, 1
  {
    AlikeStmts(b, S + [map[]], S2 + [map[]], c);
    AlikeClose(S, S2, map[], Stmts(b, S + [map[]], c), Stmts(b, S2 + [map[]], c), key, c);
  }

  lemma {:induction false} AlikeStmts(b: seq<Stmt>, S: Frames, S2: Frames, c: Ctx)
    requires S != [] && Shape(S, S2)
    ensures Alike(S, S2, Stmts(b, S, c), Stmts(b, S2, c))
    decreases b, 0
  {
    if b == [] { AlikeSkip(S, S2); }
    else {
      AlikeOne(b[0], S, S2, c);
      var a, a2 := One(b[0], S, c), One(b[0], S2, c);
      AlikeStmts(b[1..], a.frames, a2.frames, c);
    }
  }

  lemma {:induction false} AlikeOne(s: Stmt, S: Frames, S2: Frames, c: Ctx)
    requires S != [] && Shape(S, S2)
    ensures Alike(S, S2, One(s, S, c), One(s, S2, c))
    decreases s, 2
  {
    match s
    case Let(x, ty, e) =>
      AlikeTouch(e, S, S2, true, c);
      AlikeDefine(Touch(e, S, true, c).frames, Touch(e, S2, true, c).frames, x, ty);
    case Return(_, v) => if v.Some? { AlikeTouch(v.value, S, S2, true, c); } else { AlikeSkip(S, S2); }
    case While(_, cond, _) =>
      AlikeTouch(cond, S, S2, true, c);
      AlikeLoop(s, Touch(cond, S, true, c).frames, Touch(cond, S2, true, c).frames, c);
    case ExprStmt(e) => AlikeTouch(e, S, S2, true, c);
    case Audited(span, body) => AlikeBlock(AtAudited(span), body, S, S2, c);
  }

  lemma {:induction false} AlikeLoop(s: Stmt, S: Frames, S2: Frames, c: Ctx)
    requires s.While? && Shape(S, S2)
    ensures Alike(S, S2, Loop(s, S, c), Loop(s, S2, c))
    decreases s, 1
  {
    var key := AtWhileEnd(s.span);
    AlikeBlock(key, s.body, S, S2, c);
    var E, E2 := Entry(s, S, c), Entry(s, S2, c);
    MergeFollows(S, S2, S, S2, Block(key, s.body, S, c).frames, Block(key, s.body, S2, c).frames);
    assert Follows(S, S2, E, E2);
    AlikeBlock(key, s.body, E, E2, c);
    MergeFollows(S, S2, S, S2, Block(key, s.body, E, c).frames, Block(key, s.body, E2, c).frames);
  }

  // ---------------------------------------------------------------- the fixed point

  /** What one iteration of a loop body does to the scope stack. */
  function Iterate(s: Stmt, S: Frames, c: Ctx): (r: Frames)
    requires s.While?
    ensures Shape(S, r)
  {
    Block(AtWhileEnd(s.span), s.body, S, c).frames
  }

  lemma SameFlags(A: Frames, B: Frames)
    requires Shape(A, B) && forall i, x :: At(A, i, x) == At(B, i, x)
    ensures A == B
  {
    forall i | 0 <= i < |A| ensures A[i] == B[i] {
      forall x | x in A[i] ensures A[i][x] == B[i][x] { assert At(A, i, x) == At(B, i, x); }
    }
  }

  /** The state entering the second walk is closed under one more iteration, and is also the state
      after the loop. */
  lemma SecondWalkIsFixedPoint(s: Stmt, S: Frames, c: Ctx)
    requires s.While?
    ensures Merge(S, Iterate(s, Entry(s, S, c), c)) == Entry(s, S, c)
    ensures Loop(s, S, c).frames == Entry(s, S, c)
    ensures Below(S, Entry(s, S, c)) && Below(Iterate(s, Entry(s, S, c), c), Entry(s, S, c))
  {
    var E, key := Entry(s, S, c), AtWhileEnd(s.span);
    var f, g := Iterate(s, S, c), Iterate(s, E, c);
    AlikeBlock(key, s.body, S, E, c);
    AlikeBlock(key, s.body, E, S, c);
    var r := Merge(S, g);
    forall i, x ensures At(E, i, x) == (At(S, i, x) || At(f, i, x)) && At(r, i, x) == At(E, i, x) && (At(g, i, x) ==> At(E, i, x)) {
      MergeAt(S, f, i, x);
      MergeAt(S, g, i, x);
    }
    SameFlags(r, E);
  }

  /** The state before iteration `n + 1`, counting from 0, when the body runs `n` times. */
  function Before(s: Stmt, S: Frames, n: nat, c: Ctx): (r: Frames)
    requires s.While?
    ensures Shape(S, r)
  {
    if n == 0 then S else Iterate(s, Before(s, S, n - 1, c), c)
  }

  lemma OneMore(s: Stmt, S: Frames, E: Frames, c: Ctx)
    requires s.While? && Below(S, E) && Below(Iterate(s, E, c), E)
    ensures Below(Iterate(s, S, c), E)
  {
    AlikeBlock(AtWhileEnd(s.span), s.body, S, E, c);
    var a, b := Iterate(s, S, c), Iterate(s, E, c);
    forall i, x | At(a, i, x) ensures At(E, i, x) { assert At(b, i, x); }
  }

  lemma {:induction false} IterationsStayBelow(s: Stmt, S: Frames, n: nat, E: Frames, c: Ctx)
    requires s.While? && Below(S, E) && Below(Iterate(s, E, c), E)
    ensures Below(Before(s, S, n, c), E)
  {
    if n > 0 {
      IterationsStayBelow(s, S, n - 1, E, c);
      OneMore(s, Before(s, S, n - 1, c), E, c);
      assert Before(s, S, n, c) == Iterate(s, Before(s, S, n - 1, c), c);
    }
  }

  /** However often the body has run, the second walk started from a state that covers it, so it
      reports every error that any later iteration would. */
  lemma EveryIterationIsCovered(s: Stmt, S: Frames, n: nat, c: Ctx)
    requires s.While?
    ensures Below(Before(s, S, n, c), Entry(s, S, c))
    ensures Block(AtWhileEnd(s.span), s.body, Before(s, S, n, c), c).bad ==> Loop(s, S, c).bad
  {
    SecondWalkIsFixedPoint(s, S, c);
    IterationsStayBelow(s, S, n, Entry(s, S, c), c);
    AlikeBlock(AtWhileEnd(s.span), s.body, Before(s, S, n, c), Entry(s, S, c), c);
  }

  /** More moved, more errors; the places where something is freed do not depend on it. */
  lemma ErrorsGrow(b: seq<Stmt>, S: Frames, S2: Frames, c: Ctx)
    requires S != [] && Below(S, S2)
    ensures Stmts(b, S, c).bad ==> Stmts(b, S2, c).bad
    ensures Below(Stmts(b, S, c).frames, Stmts(b, S2, c).frames)
    ensures Stmts(b, S, c).free.Keys == Stmts(b, S2, c).free.Keys
  {
    AlikeStmts(b, S, S2, c);
  }
}
