/** The expression grammar: tokens, trees, and recursive descent as functions from the tokens still to
    be read. Every function that succeeds has read at least one token. */
module Grammar {
  import opened Prelude

  datatype Token =
    | IntLit(n: int) | True | False | Name(s: string)
    | LParen | RParen | LBracket | RBracket | Comma | Dot | ColonColon | AssignTok | Arrow
    | OrOr | AndAnd | EqEq | NotEq | Lt | Gt | LtEq | GtEq
    | Plus | Minus | Star | Slash | Percent | DotStar | DotSlash
    | Bang | Amp | BoxKw | FrozeKw | JoinKw | StopKw | SpawnKw
    | IfKw | MatchKw | TransactKw
    | ThreadKw | ChanKw | SandboxKw | VectorKw | MatrixKw | HandleKw | FnKw | TypeName(s: string)
    | EndOfInput | Other

  /** What is left to read; past the end only `EndOfInput` is seen. */
  datatype Toks = Nil | Cons(head: Token, tail: Toks)

  function Peek(ts: Toks): Token { if ts.Nil? then EndOfInput else ts.head }
  function Len(ts: Toks): nat { if ts.Nil? then 0 else 1 + Len(ts.tail) }

  datatype BinOp = Or | And | Eq | Ne | LtOp | GtOp | LeOp | GeOp | Add | Sub | Mul | Div | Rem | ElemMul | ElemDiv
  datatype PreOp = Not | Neg | Deref | BoxOp | FrozeOp | Join | Stop

  datatype Expr =
    | Int(n: int)
    | Bool(b: bool)
    | Ident(name: string)
    | ArrayLit(elems: seq<Expr>)
    | Index(base: Expr, indices: seq<Expr>)
    | Field(base: Expr, field: string)
    | Call(callee: string, args: seq<Expr>)
    | Spawn(callee: string, args: seq<Expr>)
    | Ref(name: string)
    | Prefix(pre: PreOp, arg: Expr)
    | Binary(op: BinOp, l: Expr, r: Expr)
    | Assign(name: string, rhs: Expr)

  datatype ParseError = TooDeep | Unexpected(t: Token) | NotAssignable | NotBorrowable | NotCallable | NotSpawnable | NotModelled

  datatype P<+T> = Ok(v: T, rest: Toks) | Err(e: ParseError) {
    predicate IsFailure() { Err? }
    function PropagateFailure<U>(): P<U> requires Err? { Err(e) }
    function Extract(): (T, Toks) requires Ok? { (v, rest) }
  }

  const MAX_PARSE_DEPTH := 50

  /** Binary levels, loosest first: 1 `||`, 2 `&&`, 3 equality, 4 comparison, 5 additive, 6
      multiplicative. Level 0 is assignment, 7 a prefix operator. */
  function BinaryAt(k: nat, t: Token): Option<BinOp> {
    match t
    case OrOr => if k == 1 then Some(Or) else None
    case AndAnd => if k == 2 then Some(And) else None
    case EqEq => if k == 3 then Some(Eq) else None
    case NotEq => if k == 3 then Some(Ne) else None
    case Lt => if k == 4 then Some(LtOp) else None
    case Gt => if k == 4 then Some(GtOp) else None
    case LtEq => if k == 4 then Some(LeOp) else None
    case GtEq => if k == 4 then Some(GeOp) else None
    case Plus => if k == 5 then Some(Add) else None
    case Minus => if k == 5 then Some(Sub) else None
    case Star => if k == 6 then Some(Mul) else None
    case Slash => if k == 6 then Some(Div) else None
    case Percent => if k == 6 then Some(Rem) else None
    case DotStar => if k == 6 then Some(ElemMul) else None
    case DotSlash => if k == 6 then Some(ElemDiv) else None
    case _ => None
  }

  function PrefixAt(t: Token): Option<PreOp> {
    match t
    case Bang => Some(Not)
    case Minus => Some(Neg)
    case Star => Some(Deref)
    case BoxKw => Some(BoxOp)
    case FrozeKw => Some(FrozeOp)
    case JoinKw => Some(Join)
    case StopKw => Some(Stop)
    case _ => None
  }

  function Expect(t: Token, ts: Toks): (r: P<()>)
    ensures r.Ok? ==> Len(r.rest) < Len(ts)
  {
    if ts.Cons? && ts.head == t then Ok((), ts.tail) else Err(Unexpected(Peek(ts)))
  }

  function ExpectName(ts: Toks): (r: P<string>)
    ensures r.Ok? ==> Len(r.rest) < Len(ts)
  {
    if ts.Cons? && ts.head.Name? then Ok(ts.head.s, ts.tail) else Err(Unexpected(Peek(ts)))
  }

  /** `Name ("::" Name)*`, joined back into one string. */
  function QualifiedName(ts: Toks): (r: P<string>)
    ensures r.Ok? ==> Len(r.rest) < Len(ts)
  {
    var (s, rest) :- ExpectName(ts);
    Segments(s, rest)
  }

  function Segments(sofar: string, ts: Toks): (r: P<string>)
    ensures r.Ok? ==> Len(r.rest) <= Len(ts)
    decreases Len(ts)
  {
    if Peek(ts) != ColonColon then Ok(sofar, ts)
    else
      var (s, rest) :- ExpectName(ts.tail);
      Segments(sofar + "::" + s, rest)
  }

  function ParseExpr(ts: Toks, depth: nat): (r: P<Expr>)
    ensures r.Ok? ==> Len(r.rest) < Len(ts)
    decreases Len(ts), 20
  {
    if depth + 1 > MAX_PARSE_DEPTH then Err(TooDeep)
    else if Peek(ts).IfKw? || Peek(ts).MatchKw? || Peek(ts).TransactKw? then Err(NotModelled)
    else ParseAt(0, ts, depth + 1)
  }

  /** Everything that binds at least as tightly as level `k`. */
  function ParseAt(k: nat, ts: Toks, depth: nat): (r: P<Expr>)
    requires k <= 7
    ensures r.Ok? ==> Len(r.rest) < Len(ts)
    decreases Len(ts), 19 - k
  {
    if k == 7 then ParseUnary(ts, depth)
    else
      var r := ParseAt(k + 1, ts, depth);
      if r.Err? then r else Continue(k, r.v, r.rest, depth)
  }

  /** What level `k` does after its first operand. */
  function Continue(k: nat, e: Expr, ts: Toks, depth: nat): (r: P<Expr>)
    requires k <= 6
    ensures r.Ok? ==> Len(r.rest) <= Len(ts)
    decreases Len(ts), 21
  {
    if k == 0 then ContinueAssign(e, ts, depth) else ContinueBinary(k, e, ts, depth)
  }

  function ContinueAssign(e: Expr, ts: Toks, depth: nat): (r: P<Expr>)
    ensures r.Ok? ==> Len(r.rest) <= Len(ts)
    decreases Len(ts), 20
  {
    if Peek(ts) != AssignTok then Ok(e, ts)
    else if !e.Ident? then Err(NotAssignable)
    else
      var r := ParseAt(0, ts.tail, depth);
      if r.Err? then r else Ok(Assign(e.name, r.v), r.rest)
  }

  /** Left-associative: the loop folds each further operand into `e`. */
  function ContinueBinary(k: nat, e: Expr, ts: Toks, depth: nat): (r: P<Expr>)
    requires 1 <= k <= 6
    ensures r.Ok? ==> Len(r.rest) <= Len(ts)
    decreases Len(ts), 20
  {
    match BinaryAt(k, Peek(ts))
    case None => Ok(e, ts)
    case Some(op) =>
      var r := ParseAt(k + 1, ts.tail, depth);
      if r.Err? then r else ContinueBinary(k, Binary(op, e, r.v), r.rest, depth)
  }

  function ParseUnary(ts: Toks, depth: nat): (r: P<Expr>)
    ensures r.Ok? ==> Len(r.rest) < Len(ts)
    decreases Len(ts), 11
  {
    if depth + 1 > MAX_PARSE_DEPTH then Err(TooDeep) else ParseUnaryInner(ts, depth + 1)
  }

  function ParseUnaryInner(ts: Toks, depth: nat): (r: P<Expr>)
    ensures r.Ok? ==> Len(r.rest) < Len(ts)
    decreases Len(ts), 10
  {
    match PrefixAt(Peek(ts))
    case Some(op) =>
      var (e, rest) :- ParseUnary(ts.tail, depth);
      Ok(Prefix(op, e), rest)
    case None =>
      if Peek(ts).Amp? then
        var (e, rest) :- ParseUnary(ts.tail, depth);
        if e.Ident? then Ok(Ref(e.name), rest) else Err(NotBorrowable)
      else if Peek(ts).SpawnKw? then
        var (e, rest) :- ParseCall(ts.tail, depth);
        if e.Call? then Ok(Spawn(e.callee, e.args), rest) else Err(NotSpawnable)
      else ParseCall(ts, depth)
  }

  function ParseCall(ts: Toks, depth: nat): (r: P<Expr>)
    ensures r.Ok? ==> Len(r.rest) < Len(ts)
    decreases Len(ts), 9
  {
    var (e, rest) :- ParsePostfix(ts, depth);
    ContinueCall(e, rest, depth)
  }

  function ContinueCall(e: Expr, ts: Toks, depth: nat): (r: P<Expr>)
    ensures r.Ok? ==> Len(r.rest) <= Len(ts)
    decreases Len(ts), 22
  {
    if !Peek(ts).LParen? then Ok(e, ts)
    else if !e.Ident? then Err(NotCallable)
    else if Peek(ts.tail).RParen? then Ok(Call(e.name, []), ts.tail.tail)
    else
      var (args, rest) :- ParseList(RParen, ts.tail, depth);
      Ok(Call(e.name, args), rest)
  }

  /** One or more expressions separated by commas, up to and including `close`. */
  function ParseList(close: Token, ts: Toks, depth: nat): (r: P<seq<Expr>>)
    ensures r.Ok? ==> Len(r.rest) < Len(ts) && |r.v| > 0
    decreases Len(ts), 21
  {
    var (e, rest) :- ParseExpr(ts, depth);
    if Peek(rest).Comma? then
      var (more, rest2) :- ParseList(close, rest.tail, depth);
      Ok([e] + more, rest2)
    else
      var (_, rest2) :- Expect(close, rest);
      Ok([e], rest2)
  }

  function ParsePostfix(ts: Toks, depth: nat): (r: P<Expr>)
    ensures r.Ok? ==> Len(r.rest) < Len(ts)
    decreases Len(ts), 8
  {
    var (e, rest) :- ParsePrimary(ts, depth);
    ContinuePostfix(e, rest, depth)
  }

  function ContinuePostfix(e: Expr, ts: Toks, depth: nat): (r: P<Expr>)
    ensures r.Ok? ==> Len(r.rest) <= Len(ts)
    decreases Len(ts), 22
  {
    if Peek(ts).LBracket? then
      var (indices, rest) :- ParseList(RBracket, ts.tail, depth);
      ContinuePostfix(Index(e, indices), rest, depth)
    else if Peek(ts).Dot? then
      var (field, rest) :- ExpectName(ts.tail);
      ContinuePostfix(Field(e, field), rest, depth)
    else Ok(e, ts)
  }

  function ParsePrimary(ts: Toks, depth: nat): (r: P<Expr>)
    ensures r.Ok? ==> Len(r.rest) < Len(ts)
    decreases Len(ts), 7
  {
    match Peek(ts)
    case IntLit(n) => Ok(Int(n), ts.tail)
    case True => Ok(Bool(true), ts.tail)
    case False => Ok(Bool(false), ts.tail)
    case Name(_) =>
      var (name, rest) :- QualifiedName(ts);
      Ok(Ident(name), rest)
    case LParen =>
      var (e, rest) :- ParseExpr(ts.tail, depth);
      var (_, rest2) :- Expect(RParen, rest);
      Ok(e, rest2)
    case LBracket =>
      var (elems, rest) :- ParseList(RBracket, ts.tail, depth);
      Ok(ArrayLit(elems), rest)
    case t => Err(Unexpected(t))
  }
}
