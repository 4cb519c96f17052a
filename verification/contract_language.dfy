/** The part of the language that contract checking looks at, with its run-time meaning.

    A run threads an environment of values, is bounded by `fuel` (spent by calls and by loop
    iterations), and traps where compiled code would abort: an out-of-range `let`, argument or
    `return`, and a division by zero. Inside `audited` the range guards are not emitted and the
    value is stored truncated instead. Integer arithmetic is exact. */
module ContractLanguage {
  import opened Prelude
  import opened Types

  /** The value kept by an unguarded store: the low bits, reinterpreted. */
  function Truncate(ty: Ty, v: int): int {
    if ty.I8? || ty.I16? || ty.I32? || ty.U8? || ty.U16? || ty.U32? then
      (v - ty.Lo()) % (ty.Hi() - ty.Lo() + 1) + ty.Lo()
    else v
  }

  /** Two to the width of a type narrower than 64 bits. */
  function Modulus(ty: Ty): int {
    if ty.I8? || ty.U8? then 0x100 else if ty.I16? || ty.U16? then 0x1_0000 else 0x1_0000_0000
  }

  predicate Signed(ty: Ty) { ty.I8? || ty.I16? || ty.I32? }

  /** A narrow store keeps the low bits: the one value of the type, read as two's complement or as
      unsigned, that differs from `v` by a multiple of two to the width. */
  lemma TruncateWraps(ty: Ty, v: int)
    requires Signed(ty) || ty.U8? || ty.U16? || ty.U32?
    ensures var w, half := Truncate(ty, v), Modulus(ty) / 2;
            (w - v) % Modulus(ty) == 0 && (if Signed(ty) then -half <= w < half else 0 <= w < 2 * half)
    ensures forall w :: ty.InRange(w) <==> if Signed(ty) then -Modulus(ty) / 2 <= w < Modulus(ty) / 2 else 0 <= w < Modulus(ty)
  {
    var lo, m := ty.Lo(), Modulus(ty);
    var w, q := Truncate(ty, v), (v - lo) / m;
    assert v - lo == q * m + (w - lo);
    assert w - v == (-q) * m;
    MultipleOf(-q, m);
  }

  lemma MultipleOf(q: int, m: int)
    requires m == 0x100 || m == 0x1_0000 || m == 0x1_0000_0000
    ensures (q * m) % m == 0
  {}

  datatype UnOp = Neg | Not
  datatype BinOp = Add | Sub | Mul | Div | Rem | Eq | NotEq | Lt | Gt | LtEq | GtEq | And | Or {
    predicate IsLogic() { And? || Or? }
    predicate IsEquality() { Eq? || NotEq? }
    predicate IsComparison() { IsEquality() || Lt? || Gt? || LtEq? || GtEq? }
  }

  /** `Unmodelled` stands for every other expression form; a run gets stuck on it. */
  datatype Expr =
    | Int(n: int)
    | Bool(b: bool)
    | Ident(name: string)
    | Unary(uop: UnOp, arg: Expr)
    | Binary(op: BinOp, l: Expr, r: Expr)
    | If(cond: Expr, thn: seq<Stmt>, els: Else)
    | Call(callee: string, args: seq<Expr>)
    | Unmodelled

  datatype Else = NoElse | ElseBlock(body: seq<Stmt>) | ElseIf(elif: Expr)

  datatype Stmt =
    | Let(name: string, ty: Ty, value: Expr)
    | Return(result: Option<Expr>)
    | While(cond: Expr, body: seq<Stmt>)
    | ExprStmt(e: Expr)
    | Audited(body: seq<Stmt>)

  datatype Param = Param(name: string, ty: Ty)
  datatype FnDecl = FnDecl(name: string, params: seq<Param>, ret: Ty, body: seq<Stmt>)
  type Program = seq<FnDecl>

  /** The first declaration called `name`, as `program.fns.iter().find` picks it. */
  function FindFn(fns: Program, name: string): (r: Option<FnDecl>)
    ensures r.Some? ==> r.value in fns && r.value.name == name
    ensures r.None? ==> forall f :: f in fns ==> f.name != name
  {
    if fns == [] then None
    else if fns[0].name == name then Some(fns[0])
    else FindFn(fns[1..], name)
  }

  // ---------------------------------------------------------------- run-time meaning

  datatype Value = IntV(i: int) | BoolV(t: bool) | UnitV
  type Env = map<string, Value>

  /** `Ret` is a `return` on its way out of the function; it can start inside an expression. */
  datatype Res<+T> = Val(v: T) | Ret(r: Value) | Trap | Stuck | OutOfFuel {
    predicate IsFailure() { !Val? }
    function PropagateFailure<U>(): Res<U>
      requires !Val?
    {
      match this case Ret(r) => Ret(r) case Trap => Trap case Stuck => Stuck case OutOfFuel => OutOfFuel
    }
    function Extract(): T requires Val? { v }
  }

  /** What the code being run is part of: the program, the enclosing function's return type, and
      whether range guards are switched off. */
  datatype Frame = Frame(fns: Program, ret: Ty, audited: bool)

  function Store(ty: Ty, v: Value, audited: bool): (r: Res<Value>)
    ensures !r.Ret? && !r.OutOfFuel?
  {
    if !ty.IsInteger() then Val(v)
    else if !v.IntV? then Stuck
    else if ty.InRange(v.i) then Val(v)
    else if audited then Val(IntV(Truncate(ty, v.i)))
    else Trap
  }

  function Bind(params: seq<Param>, vs: seq<Value>, audited: bool): (r: Res<Env>)
    requires |params| == |vs|
    ensures !r.Ret? && !r.OutOfFuel?
  {
    if params == [] then Val(map[])
    else
      var n := |params| - 1;
      var env :- Bind(params[..n], vs[..n], audited);
      var v :- Store(params[n].ty, vs[n], audited);
      Val(env[params[n].name := v])
  }

  function Arith(op: BinOp, a: int, b: int): Res<Value> {
    match op
    case Add => Val(IntV(a + b))
    case Sub => Val(IntV(a - b))
    case Mul => Val(IntV(a * b))
    case Div => if b == 0 then Trap else Val(IntV(Quotient(a, b)))
    case Rem => if b == 0 then Trap else Val(IntV(a - b * Quotient(a, b)))
    case Eq => Val(BoolV(a == b))
    case NotEq => Val(BoolV(a != b))
    case Lt => Val(BoolV(a < b))
    case Gt => Val(BoolV(a > b))
    case LtEq => Val(BoolV(a <= b))
    case GtEq => Val(BoolV(a >= b))
    case And | Or => Stuck
  }

  /** Division truncated toward zero. */
  function Quotient(a: int, b: int): int
    requires b != 0
  {
    var q := (if a < 0 then -a else a) / (if b < 0 then -b else b);
    if (a < 0) == (b < 0) then q else -q
  }

  /** A strict operator on two values. */
  function Operate(op: BinOp, a: Value, b: Value): Res<Value> {
    if a.IntV? && b.IntV? then Arith(op, a.i, b.i)
    else if a.BoolV? && b.BoolV? && op.Eq? then Val(BoolV(a.t == b.t))
    else if a.BoolV? && b.BoolV? && op.NotEq? then Val(BoolV(a.t != b.t))
    else Stuck
  }

  function Eval(e: Expr, env: Env, fr: Frame, fuel: nat): Res<Value>
    decreases fuel, e, 1
  {
    match e
    case Int(n) => Val(IntV(n))
    case Bool(b) => Val(BoolV(b))
    case Ident(x) => if x in env then Val(env[x]) else Stuck
    case Unary(uop, a) =>
      var v :- Eval(a, env, fr, fuel);
      if uop.Neg? && v.IntV? then Val(IntV(-v.i))
      else if uop.Not? && v.BoolV? then Val(BoolV(!v.t))
      else Stuck
    case Binary(op, l, r) =>
      var a :- Eval(l, env, fr, fuel);
      if op.IsLogic() then
        if !a.BoolV? then Stuck
        else if a.t == op.Or? then Val(a)      // short circuit: `r` is not evaluated
        else var b :- Eval(r, env, fr, fuel); if b.BoolV? then Val(b) else Stuck
      else
        var b :- Eval(r, env, fr, fuel);
        Operate(op, a, b)
    case If(_, _, _) => EvalIf(e, env, fr, fuel)
    case Call(_, _) => EvalCall(e, env, fr, fuel)
    case Unmodelled => Stuck
  }

  function EvalIf(e: Expr, env: Env, fr: Frame, fuel: nat): Res<Value>
    requires e.If?
    decreases fuel, e, 0
  {
    var b :- Eval(e.cond, env, fr, fuel);
    if !b.BoolV? then Stuck
    else if b.t then EvalBlock(e.thn, env, fr, fuel)
    else EvalElse(e.els, env, fr, fuel)
  }

  function EvalElse(els: Else, env: Env, fr: Frame, fuel: nat): Res<Value>
    decreases fuel, els
  {
    match els
    case NoElse => Val(UnitV)
    case ElseBlock(body) => EvalBlock(body, env, fr, fuel)
    case ElseIf(e) => Eval(e, env, fr, fuel)
  }

  function EvalBlock(body: seq<Stmt>, env: Env, fr: Frame, fuel: nat): Res<Value>
    decreases fuel, body, 1
  {
    var r :- Exec(body, env, UnitV, fr, fuel);
    Val(r.1)
  }

  function EvalCall(e: Expr, env: Env, fr: Frame, fuel: nat): Res<Value>
    requires e.Call?
    decreases fuel, e, 0
  {
    var vs :- EvalAll(e.args, env, fr, fuel);
    match FindFn(fr.fns, e.callee)
    case None => Stuck
    case Some(d) =>
      if |d.params| != |vs| then Stuck
      else
        var inner :- Bind(d.params, vs, fr.audited);
        if fuel == 0 then OutOfFuel else RunBody(d, inner, fr.fns, fuel - 1)
  }

  function EvalAll(es: seq<Expr>, env: Env, fr: Frame, fuel: nat): (r: Res<seq<Value>>)
    ensures r.Val? ==> |r.v| == |es|
    decreases fuel, es
  {
    if es == [] then Val([])
    else
      var v :- Eval(es[0], env, fr, fuel);
      var vs :- EvalAll(es[1..], env, fr, fuel);
      Val([v] + vs)
  }

  /** Runs a statement list; the result carries the environment after it and the value of its last
      statement. */
  function Exec(stmts: seq<Stmt>, env: Env, last: Value, fr: Frame, fuel: nat): Res<(Env, Value)>
    decreases fuel, stmts, 0
  {
    if stmts == [] then Val((env, last))
    else
      var r :- ExecOne(stmts[0], env, fr, fuel);
      Exec(stmts[1..], r.0, r.1, fr, fuel)
  }

  function ExecOne(s: Stmt, env: Env, fr: Frame, fuel: nat): Res<(Env, Value)>
    decreases fuel, s
  {
    match s
    case Let(x, ty, e) =>
      var v :- Eval(e, env, fr, fuel);
      var w :- Store(ty, v, fr.audited);
      Val((env[x := w], UnitV))
    case Return(Some(e)) =>
      var v :- Eval(e, env, fr, fuel);
      var w :- Store(fr.ret, v, fr.audited);
      Ret(w)
    case Return(None) => if fr.ret.IsInteger() then Stuck else Ret(UnitV)
    case While(c, body) =>
      var b :- Eval(c, env, fr, fuel);
      if !b.BoolV? then Stuck
      else if !b.t then Val((env, UnitV))
      else
        var _ :- Exec(body, env, UnitV, fr, fuel);
        if fuel == 0 then OutOfFuel else ExecOne(s, env, fr, fuel - 1)
    case ExprStmt(e) => var v :- Eval(e, env, fr, fuel); Val((env, v))
    case Audited(body) =>
      var _ :- Exec(body, env, UnitV, fr.(audited := true), fuel); Val((env, UnitV))
  }

  /** A function body in the environment of its arguments: the value it returns. An integer function
      that ran off its end would reach unreachable code, which type checking rules out. */
  function RunBody(d: FnDecl, env: Env, fns: Program, fuel: nat): (r: Res<Value>)
    ensures !r.Ret?
    decreases fuel, d.body, 1
  {
    match Exec(d.body, env, UnitV, Frame(fns, d.ret, false), fuel)
    case Ret(v) => Val(v)
    case Val(_) => if d.ret.IsInteger() then Stuck else Val(UnitV)
    case Trap => Trap
    case Stuck => Stuck
    case OutOfFuel => OutOfFuel
  }

  /** A contract clause holds in `env` when it evaluates to true. */
  predicate Holds(e: Expr, env: Env, fns: Program) {
    Eval(e, env, Frame(fns, Ty.Bool, false), 0) == Val(BoolV(true))
  }
}
