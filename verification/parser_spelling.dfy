/** Expressions as they are written: a concrete tree keeps every operator, name and parenthesis in its
    place, `Write` gives its tokens and `Tree` what they mean. */
module Spelling {
  import opened Prelude
  import opened Grammar

  datatype Syntax =
    | Number(n: int)
    | Truth(b: bool)
    | Path(segments: seq<string>)
    | Listed(elems: seq<Syntax>)
    | Paren(inner: Syntax)
    | Indexed(base: Syntax, indices: seq<Syntax>)
    | Dotted(base: Syntax, field: string)
    | Applied(fn: Syntax, args: seq<Syntax>)
    | Spawned(call: Syntax)
    | Borrowed(arg: Syntax)
    | Prefixed(pre: PreOp, arg: Syntax)
    | Infix(op: BinOp, l: Syntax, r: Syntax)
    | Assigned(target: Syntax, rhs: Syntax)

  // ---------------------------------------------------------------- the tables

  function OpLevel(op: BinOp): (k: nat)
    ensures 1 <= k <= 6
  {
    match op
    case Or => 1
    case And => 2
    case Eq | Ne => 3
    case LtOp | GtOp | LeOp | GeOp => 4
    case Add | Sub => 5
    case Mul | Div | Rem | ElemMul | ElemDiv => 6
  }

  function OpToken(op: BinOp): (t: Token)
    ensures BinaryAt(OpLevel(op), t) == Some(op) && forall k :: k != OpLevel(op) ==> BinaryAt(k, t).None?
  {
    match op
    case Or => OrOr case And => AndAnd case Eq => EqEq case Ne => NotEq
    case LtOp => Lt case GtOp => Gt case LeOp => LtEq case GeOp => GtEq
    case Add => Plus case Sub => Minus
    case Mul => Star case Div => Slash case Rem => Percent case ElemMul => DotStar case ElemDiv => DotSlash
  }

  function PreToken(op: PreOp): (t: Token)
    ensures PrefixAt(t) == Some(op)
  {
    match op
    case Not => Bang case Neg => Minus case Deref => Star case BoxOp => BoxKw case FrozeOp => FrozeKw
    case Join => JoinKw case Stop => StopKw
  }

  /** A token is an operator of a level exactly when it is written so. */
  lemma OperatorIff(k: nat, t: Token, op: BinOp, pre: PreOp)
    ensures BinaryAt(k, t) == Some(op) <==> k == OpLevel(op) && t == OpToken(op)
    ensures PrefixAt(t) == Some(pre) <==> t == PreToken(pre)
  {}

  const OPERATORS: set<(nat, Token, BinOp)> :=
    {(1, OrOr, Or), (2, AndAnd, And), (3, EqEq, Eq), (3, NotEq, Ne), (4, Lt, LtOp), (4, Gt, GtOp), (4, LtEq, LeOp), (4, GtEq, GeOp),
     (5, Plus, Add), (5, Minus, Sub), (6, Star, Mul), (6, Slash, Div), (6, Percent, Rem), (6, DotStar, ElemMul), (6, DotSlash, ElemDiv)}
  const PREFIXES: set<(Token, PreOp)> :=
    {(Bang, Not), (Minus, Neg), (Star, Deref), (BoxKw, BoxOp), (FrozeKw, FrozeOp), (JoinKw, Join), (StopKw, Stop)}

  /** The operators of the language, loosest first, and the prefix operators. */
  lemma OperatorTable(op: BinOp, pre: PreOp)
    ensures (OpLevel(op), OpToken(op), op) in OPERATORS && (PreToken(pre), pre) in PREFIXES
  {}

  /** The loosest level at which a token continues what stands before it; -1 for none. */
  function Binds(t: Token): int {
    match t
    case ColonColon => 10
    case LBracket | Dot | LParen => 9
    case AssignTok => 0
    case OrOr => 1
    case AndAnd => 2
    case EqEq | NotEq => 3
    case Lt | Gt | LtEq | GtEq => 4
    case Plus | Minus => 5
    case Star | Slash | Percent | DotStar | DotSlash => 6
    case _ => -1
  }

  // ---------------------------------------------------------------- meaning

  function JoinPath(segments: seq<string>): string {
    if segments == [] then ""
    else if |segments| == 1 then segments[0]
    else var n := |segments| - 1; JoinPath(segments[..n]) + "::" + segments[n]
  }

  /** The name that stands in a place that takes only a name. */
  function NameOf(e: Expr): string { if e.Ident? then e.name else "" }

  function Tree(c: Syntax): Expr {
    match c
    case Number(n) => Int(n)
    case Truth(b) => Bool(b)
    case Path(segments) => Ident(JoinPath(segments))
    case Listed(es) => ArrayLit(Trees(es))
    case Paren(x) => Tree(x)
    case Indexed(b, es) => Index(Tree(b), Trees(es))
    case Dotted(b, f) => Field(Tree(b), f)
    case Applied(f, args) => Call(NameOf(Tree(f)), Trees(args))
    case Spawned(x) => (match Tree(x) case Call(f, args) => Spawn(f, args) case e => e)
    case Borrowed(x) => Ref(NameOf(Tree(x)))
    case Prefixed(op, x) => Prefix(op, Tree(x))
    case Infix(op, l, r) => Binary(op, Tree(l), Tree(r))
    case Assigned(t, rhs) => Assign(NameOf(Tree(t)), Tree(rhs))
  }

  function Trees(cs: seq<Syntax>): (es: seq<Expr>)
    ensures |es| == |cs|
  {
    if cs == [] then [] else [Tree(cs[0])] + Trees(cs[1..])
  }

  /** How tightly a form binds: 0 assignment, 1 to 6 the binary levels, 7 prefix forms, 8 calls, 9
      everything a postfix can follow. */
  function Rank(c: Syntax): (k: nat)
    ensures k <= 9
  {
    match c
    case Applied(_, _) => 8
    case Spawned(_) | Borrowed(_) | Prefixed(_, _) => 7
    case Infix(op, _, _) => OpLevel(op)
    case Assigned(_, _) => 0
    case _ => 9
  }

  /** Every operand binds tightly enough where it stands: binary operators associate to the left,
      assignment to the right. Only names are called, borrowed and assigned, only calls are spawned, and
      array literals and indices are not empty. */
  predicate Grammatical(c: Syntax) {
    match c
    case Number(_) | Truth(_) => true
    case Path(segments) => segments != []
    case Listed(es) => es != [] && AllGrammatical(es)
    case Paren(x) => Grammatical(x)
    case Indexed(b, es) => Rank(b) == 9 && Grammatical(b) && es != [] && AllGrammatical(es)
    case Dotted(b, _) => Rank(b) == 9 && Grammatical(b)
    case Applied(f, args) => Rank(f) == 9 && Grammatical(f) && Tree(f).Ident? && AllGrammatical(args)
    case Spawned(x) => Rank(x) >= 8 && Grammatical(x) && Tree(x).Call?
    case Borrowed(x) => Rank(x) >= 7 && Grammatical(x) && Tree(x).Ident?
    case Prefixed(_, x) => Rank(x) >= 7 && Grammatical(x)
    case Infix(op, l, r) => Rank(l) >= OpLevel(op) && Grammatical(l) && Rank(r) > OpLevel(op) && Grammatical(r)
    case Assigned(t, rhs) => Rank(t) >= 1 && Grammatical(t) && Tree(t).Ident? && Grammatical(rhs)
  }

  predicate AllGrammatical(cs: seq<Syntax>) { cs == [] || (Grammatical(cs[0]) && AllGrammatical(cs[1..])) }

  // ---------------------------------------------------------------- tokens

  function WritePath(segments: seq<string>, rest: Toks): Toks {
    if segments == [] then rest
    else if |segments| == 1 then Cons(Name(segments[0]), rest)
    else var n := |segments| - 1; WritePath(segments[..n], Cons(ColonColon, Cons(Name(segments[n]), rest)))
  }

  /** The tokens of `c`, in front of `rest`. */
  function Write(c: Syntax, rest: Toks): Toks
    decreases c
  {
    match c
    case Number(n) => Cons(IntLit(n), rest)
    case Truth(b) => Cons(if b then True else False, rest)
    case Path(segments) => WritePath(segments, rest)
    case Listed(es) => Cons(LBracket, WriteList(es, RBracket, rest))
    case Paren(x) => Cons(LParen, Write(x, Cons(RParen, rest)))
    case Indexed(b, es) => Write(b, Cons(LBracket, WriteList(es, RBracket, rest)))
    case Dotted(b, f) => Write(b, Cons(Dot, Cons(Name(f), rest)))
    case Applied(f, args) => Write(f, Cons(LParen, WriteList(args, RParen, rest)))
    case Spawned(x) => Cons(SpawnKw, Write(x, rest))
    case Borrowed(x) => Cons(Amp, Write(x, rest))
    case Prefixed(op, x) => Cons(PreToken(op), Write(x, rest))
    case Infix(op, l, r) => Write(l, Cons(OpToken(op), Write(r, rest)))
    case Assigned(t, rhs) => Write(t, Cons(AssignTok, Write(rhs, rest)))
  }

  function WriteList(cs: seq<Syntax>, close: Token, rest: Toks): Toks
    decreases cs
  {
    if cs == [] then Cons(close, rest)
    else Write(cs[0], if |cs| == 1 then Cons(close, rest) else Cons(Comma, WriteList(cs[1..], close, rest)))
  }

  // ---------------------------------------------------------------- nesting

  function Max(a: nat, b: nat): nat { if a < b then b else a }

  /** Nesting levels entered while reading `c` from a level that goes through a prefix operator. */
  function Need(c: Syntax): (n: nat)
    ensures n >= 1
    decreases c, 1
  {
    match c
    case Spawned(x) => 1 + NeedInner(x)
    case Borrowed(x) => 1 + Need(x)
    case Prefixed(_, x) => 1 + Need(x)
    case Infix(_, l, r) => Max(Need(l), Need(r))
    case Assigned(t, rhs) => Max(Need(t), Need(rhs))
    case _ => 1 + NeedInner(c)
  }

  /** The same, once past the prefix operators. */
  function NeedInner(c: Syntax): nat
    decreases c, 0
  {
    match c
    case Listed(es) => NeedList(es)
    case Paren(x) => 1 + Need(x)
    case Indexed(b, es) => Max(NeedInner(b), NeedList(es))
    case Dotted(b, _) => NeedInner(b)
    case Applied(f, args) => Max(NeedInner(f), NeedList(args))
    case _ => 0
  }

  function NeedList(cs: seq<Syntax>): nat
    decreases cs
  {
    if cs == [] then 0 else Max(1 + Need(cs[0]), NeedList(cs[1..]))
  }

  /** How deep a spelling nests, counted as the parser counts. */
  function Nesting(c: Syntax): nat { 1 + Need(c) }

  /** `ts` is `c` written in front of `rest`, and means `e`. */
  predicate Spells(c: Syntax, ts: Toks, e: Expr, rest: Toks) {
    Grammatical(c) && Tree(c) == e && Write(c, rest) == ts
  }
}
