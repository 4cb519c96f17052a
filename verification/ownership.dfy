/** The move checker, as a function from the scope stack before a piece of code to the scope stack
    after it, whether a moved value was used, and what `FreeMap` records. */
module Ownership {
  import opened Prelude
  import opened Types
  import opened Registry
  import opened Affinity

  /** A part read through a binding. */
  datatype Part = Content | FieldNamed(field: string)

  /** `Call` stands for every form whose operands are evaluated left to right: calls, operators,
      `box`, `spawn`, `join`, `stop`. `Read` stands for the forms that only look at their operand:
      `&`, `recv`, `accept`. */
  datatype Expr =
    | Lit
    | Ident(name: string)
    | Logic(l: Expr, r: Expr)
    | Call(callee: string, args: seq<Expr>)
    | Read(e: Expr)
    | Project(base: Expr, part: Part)
    | If(span: nat, cond: Expr, thn: seq<Stmt>, els: Else)
    | Assign(name: string, rhs: Expr)
    | Match(span: nat, scrutinee: Expr, arms: seq<Arm>)

  datatype Else = NoElse | ElseBlock(body: seq<Stmt>) | ElseIf(elif: Expr)
  datatype Arm = Arm(variant: string, bindings: seq<string>, body: Expr)

  datatype Stmt =
    | Let(name: string, ty: Ty, value: Expr)
    | Return(span: nat, result: Option<Expr>)
    | While(span: nat, cond: Expr, body: seq<Stmt>)
    | ExprStmt(e: Expr)
    | Audited(span: nat, body: seq<Stmt>)

  datatype Param = Param(name: string, ty: Ty)
  datatype FnDecl = FnDecl(name: string, params: seq<Param>, ret: Ty, body: seq<Stmt>)

  /** Declared types and functions' return types. */
  datatype Ctx = Ctx(table: Table, rets: map<string, Ty>) {
    predicate Affine(ty: Ty) { IsAffine(table, ty) }
  }

  // ---------------------------------------------------------------- scopes

  datatype Slot = Slot(ty: Ty, moved: bool)
  type Scope = map<string, Slot>
  type Frames = seq<Scope>

  /** The innermost scope that declares `name`. */
  function Find(S: Frames, name: string): (r: Option<nat>)
    ensures r.Some? ==> r.value < |S| && name in S[r.value]
    ensures forall i :: 0 <= i < |S| && name in S[i] ==> r.Some? && i <= r.value
  {
    if S == [] then None
    else if name in S[|S| - 1] then Some(|S| - 1)
    else Find(S[..|S| - 1], name)
  }

  function SetMoved(S: Frames, name: string, moved: bool): Frames {
    match Find(S, name)
    case None => S
    case Some(i) => S[i := S[i][name := S[i][name].(moved := moved)]]
  }

  function Define(S: Frames, name: string, ty: Ty): Frames
    requires S != []
  {
    S[|S| - 1 := S[|S| - 1][name := Slot(ty, false)]]
  }

  function MergeScope(a: Scope, b: Scope): Scope {
    map x | x in a :: Slot(a[x].ty, a[x].moved || (if x in b then b[x].moved else a[x].moved))
  }

  /** Moved on either side. */
  function Merge(A: Frames, B: Frames): (r: Frames)
    ensures |A| == |B| ==> |r| == |A| && forall i :: 0 <= i < |A| ==> r[i] == MergeScope(A[i], B[i])
  {
    if A == [] || B == [] then [] else [MergeScope(A[0], B[0])] + Merge(A[1..], B[1..])
  }

  /** Same scopes, names and types; only the moved flags may differ. */
  predicate SameScope(a: Scope, b: Scope) {
    a.Keys == b.Keys && forall x :: x in a && x in b ==> a[x].ty == b[x].ty
  }

  predicate Shape(A: Frames, B: Frames) {
    |A| == |B| && forall i :: 0 <= i < |A| ==> SameScope(A[i], B[i])
  }

  /** Same shape below the top scope. */
  predicate ShapeBelow(A: Frames, B: Frames) {
    |A| == |B| && forall i :: 0 <= i < |A| - 1 ==> SameScope(A[i], B[i])
  }

  // ---------------------------------------------------------------- what gets freed where

  datatype Key =
    | AtReturn(span: nat) | AtWhileEnd(span: nat) | AtIf(span: nat, thn: bool)
    | AtAudited(span: nat) | AtArm(span: nat, index: nat) | AtFnEnd(name: string)

  type FreeMap = map<Key, multiset<string>>

  function StillOwned(c: Ctx, scope: Scope): multiset<string> {
    multiset(set x | x in scope && c.Affine(scope[x].ty) && !scope[x].moved)
  }

  function AllStillOwned(c: Ctx, S: Frames): multiset<string> {
    if S == [] then multiset{} else AllStillOwned(c, S[..|S| - 1]) + StillOwned(c, S[|S| - 1])
  }

  /** The scope stack afterwards, whether an error was found on the way, and what was recorded. */
  datatype Out = Out(frames: Frames, bad: bool, free: FreeMap) {
    function Then(next: Out): Out { Out(next.frames, bad || next.bad, free + next.free) }
    /** Closes the top scope, recording under `key` what it still owns. */
    function Close(key: Key, c: Ctx): Out
      requires frames != []
    {
      Out(frames[..|frames| - 1], bad, free[key := StillOwned(c, frames[|frames| - 1])])
    }
  }

  function Skip(S: Frames): Out { Out(S, false, map[]) }

  /** Both ways a branch can go, from a common start. */
  function Branches(a: Out, b: Out): Out { Out(Merge(a.frames, b.frames), a.bad || b.bad, a.free + b.free) }

  /** The first `n` of several ways a run can go from `S`. */
  function Join(S: Frames, outs: seq<Out>, n: nat): Out
    requires n <= |outs|
  {
    if n == 0 then Skip(S)
    else if n == 1 then outs[0]
    else Branches(Join(S, outs, n - 1), outs[n - 1])
  }

  lemma {:induction false} JoinShape(S: Frames, outs: seq<Out>, n: nat)
    requires n <= |outs| && forall k :: 0 <= k < n ==> Shape(S, outs[k].frames)
    ensures Shape(S, Join(S, outs, n).frames)
  {
    if n > 1 { JoinShape(S, outs, n - 1); }
  }

  // ---------------------------------------------------------------- the walk

  function TouchIdent(S: Frames, name: string, consume: bool, c: Ctx): (r: Out)
    ensures Shape(S, r.frames)
  {
    match Find(S, name)
    case None => Skip(S)
    case Some(i) =>
      if !c.Affine(S[i][name].ty) then Skip(S)
      else if S[i][name].moved then Out(S, true, map[])
      else if consume then Skip(SetMoved(S, name, true))
      else Skip(S)
  }

  function FieldTy(fields: seq<Field>, name: string): Option<Ty> {
    if fields == [] then None
    else if fields[0].name == name then Some(fields[0].ty)
    else FieldTy(fields[1..], name)
  }

  /** The type of a part of a value of type `ty`. */
  function PartTy(ty: Ty, part: Part, c: Ctx): Option<Ty> {
    match part
    case Content => if ty.Box? then Some(ty.inner) else None
    case FieldNamed(f) =>
      if !ty.Named? || ty.name !in c.table.structs then None
      else
        var d := c.table.structs[ty.name];
        match FieldTy(d.fields, f)
        case None => None
        case Some(t) => Some(Substitute(t, ZipTypeParams(d.typeParams, ty.args)))
  }

  /** Whether taking `part` out of a value of type `ty` takes an affine value out of it. */
  predicate Extracts(ty: Ty, part: Part, c: Ctx) { PartTy(ty, part, c).Some? && c.Affine(PartTy(ty, part, c).value) }

  predicate ExtractsFrom(S: Frames, name: string, part: Part, c: Ctx) {
    match Find(S, name) case None => false case Some(i) => Extracts(S[i][name].ty, part, c)
  }

  /** Connection arguments of a few builtins are read, not consumed. */
  predicate Consumes(callee: string, i: nat) {
    !((i == 0 && (callee == "db_query" || callee == "db_execute" || callee == "mq_publish" || callee == "mq_consume"
                  || callee == "send_email" || callee == "send_sms" || callee == "send_push" || callee == "notify"))
      || (i == 1 && callee == "notify"))
  }

  /** What a builtin that returns a generic type returns; one representative per payload. */
  function BuiltinReturnTy(name: string): Option<Ty> {
    if name == "json_parse" then Some(Named("Result", [Json, Str]))
    else if name == "db_connect" then Some(Named("Result", [Db, Str]))
    else if name == "env" then Some(Named("Result", [Str, Str]))
    else None
  }

  /** The type arguments of a scrutinee, where they can be told without inference. */
  function ConcreteArgs(scrutinee: Expr, S: Frames, c: Ctx): Option<seq<Ty>> {
    match scrutinee
    case Ident(x) =>
      (match Find(S, x)
       case None => None
       case Some(i) => if S[i][x].ty.Named? then Some(S[i][x].ty.args) else None)
    case Call(f, _) =>
      var t := if f in c.rets then Some(c.rets[f]) else BuiltinReturnTy(f);
      if t.Some? && t.value.Named? then Some(t.value.args) else None
    case _ => None
  }

  function AllSentinel(params: seq<string>): Subst {
    map p | p in params :: Box(Unit)
  }

  function BindAll(names: seq<string>, tys: seq<Ty>): Scope {
    if names == [] || tys == [] then map[]
    else var n := (if |names| < |tys| then |names| else |tys|) - 1;
         BindAll(names[..n], tys[..n])[names[n] := Slot(tys[n], false)]
  }

  /** The scope of an arm: its bindings at the payload's types, instantiated by the scrutinee's type
      arguments, or by something affine when those are unknown. */
  function ArmScope(arm: Arm, args: Option<seq<Ty>>, c: Ctx): Scope {
    match FindVariant(c.table, arm.variant)
    case None => map[]
    case Some((owner, v)) =>
      var params := if owner in c.table.enums then c.table.enums[owner].typeParams else [];
      var subst := if args.Some? && |args.value| == |params| then ZipTypeParams(params, args.value) else AllSentinel(params);
      BindAll(arm.bindings, SubstituteAll(v.payload, subst))
  }

  function Touch(e: Expr, S: Frames, consume: bool, c: Ctx): (r: Out)
    ensures Shape(S, r.frames)
    decreases e, 2
  {
    match e
    case Lit => Skip(S)
    case Ident(x) => TouchIdent(S, x, consume, c)
    case Logic(l, r) => var a := Touch(l, S, true, c); a.Then(Touch(r, a.frames, true, c))
    case Call(f, args) => TouchArgs(f, args, 0, S, c)
    case Read(inner) => Touch(inner, S, false, c)
    case Project(base, part) =>
      if base.Ident? then TouchIdent(S, base.name, ExtractsFrom(S, base.name, part, c), c)
      else Touch(base, S, false, c)
    case If(_, _, _, _) => TouchIf(e, S, c)
    case Assign(x, rhs) => var a := Touch(rhs, S, true, c); a.(frames := SetMoved(a.frames, x, false))
    case Match(_, _, _) => TouchMatch(e, S, c)
  }

  function TouchArgs(callee: string, args: seq<Expr>, i: nat, S: Frames, c: Ctx): (r: Out)
    ensures Shape(S, r.frames)
    decreases args
  {
    if args == [] then Skip(S)
    else
      var a := Touch(args[0], S, Consumes(callee, i), c);
      a.Then(TouchArgs(callee, args[1..], i + 1, a.frames, c))
  }

  function TouchIf(e: Expr, S: Frames, c: Ctx): (r: Out)
    requires e.If?
    ensures Shape(S, r.frames)
    decreases e, 1
  {
    var a := Touch(e.cond, S, true, c);
    a.Then(Branches(Block(AtIf(e.span, true), e.thn, a.frames, c), TouchElse(e.span, e.els, a.frames, c)))
  }

  function TouchElse(span: nat, els: Else, S: Frames, c: Ctx): (r: Out)
    ensures Shape(S, r.frames)
    decreases els
  {
    match els
    case NoElse => Skip(S)
    case ElseBlock(b) => Block(AtIf(span, false), b, S, c)
    case ElseIf(e) => Touch(e, S, true, c)
  }

  function TouchMatch(e: Expr, S: Frames, c: Ctx): (r: Out)
    requires e.Match?
    ensures Shape(S, r.frames)
    decreases e, 1
  {
    var a := Touch(e.scrutinee, S, true, c);
    a.Then(TouchArms(e.span, e.arms, a.frames, ConcreteArgs(e.scrutinee, a.frames, c), c))
  }

  /** Every arm from the same start; what any of them moved is moved. */
  function TouchArms(span: nat, arms: seq<Arm>, S: Frames, args: Option<seq<Ty>>, c: Ctx): (r: Out)
    ensures Shape(S, r.frames)
    decreases arms, 1
  {
    var outs := ArmOuts(span, arms, S, args, c);
    JoinShape(S, outs, |outs|);
    Join(S, outs, |outs|)
  }

  function ArmOuts(span: nat, arms: seq<Arm>, S: Frames, args: Option<seq<Ty>>, c: Ctx): (r: seq<Out>)
    ensures |r| == |arms| && forall k :: 0 <= k < |r| ==> r[k] == TouchArm(span, k, arms[k], S, args, c)
    ensures forall k :: 0 <= k < |r| ==> Shape(S, r[k].frames)
    decreases arms, 0
  {
    seq(|arms|, k requires 0 <= k < |arms| => TouchArm(span, k, arms[k], S, args, c))
  }

  function TouchArm(span: nat, index: nat, arm: Arm, S: Frames, args: Option<seq<Ty>>, c: Ctx): (r: Out)
    ensures Shape(S, r.frames)
    decreases arm
  {
    Touch(arm.body, S + [ArmScope(arm, args, c)], true, c).Close(AtArm(span, index), c)
  }

  /** A block in a scope of its own. */
  function Block(key: Key, stmts: seq<Stmt>, S: Frames, c: Ctx): (r: Out)
    ensures Shape(S, r.frames)
    decreases stmts, 1
  {
    Stmts(stmts, S + [map[]], c).Close(key, c)
  }

  function Stmts(stmts: seq<Stmt>, S: Frames, c: Ctx): (r: Out)
    requires S != []
    ensures ShapeBelow(S, r.frames)
    decreases stmts, 0
  {
    if stmts == [] then Skip(S)
    else var a := One(stmts[0], S, c); a.Then(Stmts(stmts[1..], a.frames, c))
  }

  function One(s: Stmt, S: Frames, c: Ctx): (r: Out)
    requires S != []
    ensures ShapeBelow(S, r.frames)
    decreases s, 2
  {
    match s
    case Let(x, ty, e) => var a := Touch(e, S, true, c); a.(frames := Define(a.frames, x, ty))
    case Return(span, v) =>
      var a := if v.Some? then Touch(v.value, S, true, c) else Skip(S);
      a.(free := a.free[AtReturn(span) := AllStillOwned(c, a.frames)])
    case While(span, cond, body) =>
      var a := Touch(cond, S, true, c);
      a.Then(Loop(s, a.frames, c))
    case ExprStmt(e) => Touch(e, S, true, c)
    case Audited(span, body) => Block(AtAudited(span), body, S, c)
  }

  /** A loop body is walked twice: once to see what one iteration moves, and for real from there. */
  function Loop(s: Stmt, S: Frames, c: Ctx): (r: Out)
    requires s.While?
    ensures Shape(S, r.frames)
    decreases s, 1
  {
    var o := Block(AtWhileEnd(s.span), s.body, Entry(s, S, c), c);
    o.(frames := Merge(S, o.frames))
  }

  /** The state entering the second walk of a loop body. */
  function Entry(s: Stmt, S: Frames, c: Ctx): (r: Frames)
    requires s.While?
    ensures Shape(S, r)
    decreases s, 0
  {
    Merge(S, Block(AtWhileEnd(s.span), s.body, S, c).frames)
  }

  function ParamScope(params: seq<Param>): Scope {
    if params == [] then map[]
    else var n := |params| - 1; ParamScope(params[..n])[params[n].name := Slot(params[n].ty, false)]
  }

  /** A whole function: its parameters' scope is also its body's. */
  function CheckFn(f: FnDecl, c: Ctx): Out {
    var o := Stmts(f.body, [ParamScope(f.params)], c);
    Out([], o.bad, o.free[AtFnEnd(f.name) := StillOwned(c, o.frames[0])])
  }
}
