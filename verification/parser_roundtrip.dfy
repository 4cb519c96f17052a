/** Reading a spelling gives exactly the expression it means and what follows it, and reports "nested too
    deeply" exactly when the spelling nests deeper than the limit. */
module RoundTrip {
  import opened Prelude
  import opened Grammar
  import opened Spelling
  import opened Print

  // ---------------------------------------------------------------- climbing down the levels

  /** From an operand of level `k` to level `low`. */
  function Climb(k: nat, low: nat, e: Expr, ts: Toks, depth: nat): P<Expr>
    requires low <= k <= 7
  {
    if k == low then Ok(e, ts)
    else
      var (e1, rest) :- Continue(k - 1, e, ts, depth);
      Climb(k - 1, low, e1, rest, depth)
  }

  function AndClimb(r: P<Expr>, k: nat, low: nat, depth: nat): P<Expr>
    requires low <= k <= 7
  {
    var (e, rest) :- r;
    Climb(k, low, e, rest, depth)
  }

  lemma {:induction false} ClimbLast(k: nat, low: nat, e: Expr, ts: Toks, depth: nat)
    requires low < k <= 7
    ensures Climb(k, low, e, ts, depth)
            == (var r := Climb(k, low + 1, e, ts, depth); if r.Err? then r else Continue(low, r.v, r.rest, depth))
    decreases k
  {
    if k > low + 1 {
      var r := Continue(k - 1, e, ts, depth);
      if r.Ok? { ClimbLast(k - 1, low, r.v, r.rest, depth); }
    }
  }

  /** Parsing at a loose level is parsing at a tight one and climbing. */
  lemma {:induction false} ParseVia(low: nat, k: nat, ts: Toks, depth: nat)
    requires low <= k <= 7
    ensures ParseAt(low, ts, depth) == AndClimb(ParseAt(k, ts, depth), k, low, depth)
    decreases k - low
  {
    if low < k {
      ParseVia(low + 1, k, ts, depth);
      var r := ParseAt(k, ts, depth);
      if r.Ok? { ClimbLast(k, low, r.v, r.rest, depth); }
    }
  }

  function PostCall(e: Expr, ts: Toks, depth: nat): P<Expr> {
    var (e1, rest) :- ContinuePostfix(e, ts, depth);
    ContinueCall(e1, rest, depth)
  }

  /** What the parser does after reading something of level `level` that starts an operand of `low`. */
  function Finish(level: nat, low: nat, e: Expr, ts: Toks, depth: nat): P<Expr>
    requires low <= level <= 9 && low <= 7
  {
    if level == 0 then Ok(e, ts)
    else if level <= 6 then AndClimb(Continue(level, e, ts, depth), level, low, depth)
    else if level == 9 then AndClimb(PostCall(e, ts, depth + 1), 7, low, depth)
    else Climb(7, low, e, ts, depth)
  }

  lemma Stop(k: nat, e: Expr, ts: Toks, depth: nat)
    requires k <= 6 && Binds(Peek(ts)) != k
    ensures Continue(k, e, ts, depth) == Ok(e, ts)
  {
    if k > 0 { assert BinaryAt(k, Peek(ts)).None?; }
  }

  /** A token that binds looser than `low` ends the operand. */
  lemma {:induction false} ClimbStop(k: nat, low: nat, e: Expr, ts: Toks, depth: nat)
    requires low <= k <= 7 && Binds(Peek(ts)) < low
    ensures Climb(k, low, e, ts, depth) == Ok(e, ts)
    decreases k
  {
    if k > low {
      Stop(k - 1, e, ts, depth);
      ClimbStop(k - 1, low, e, ts, depth);
    }
  }

  lemma FinishStop(level: nat, low: nat, e: Expr, ts: Toks, depth: nat)
    requires low <= level <= 9 && low <= 7 && Binds(Peek(ts)) < low
    ensures Finish(level, low, e, ts, depth) == Ok(e, ts)
  {
    if 1 <= level <= 6 {
      Stop(level, e, ts, depth);
      ClimbStop(level, low, e, ts, depth);
    } else if level > 6 {
      ClimbStop(7, low, e, ts, depth);
      if level == 9 { PostStop(e, ts, depth + 1); }
    }
  }

  lemma PostStop(e: Expr, ts: Toks, depth: nat)
    requires Binds(Peek(ts)) < 9
    ensures PostCall(e, ts, depth) == Ok(e, ts)
  {}

  /** An operator of level `op` is reached by climbing to its level. */
  lemma {:induction false} ClimbTo(k: nat, op: nat, low: nat, e: Expr, ts: Toks, depth: nat)
    requires low <= op < k <= 7 && Binds(Peek(ts)) == op
    ensures Climb(k, low, e, ts, depth) == AndClimb(Continue(op, e, ts, depth), op, low, depth)
    decreases k
  {
    if k > op + 1 {
      Stop(k - 1, e, ts, depth);
      ClimbTo(k - 1, op, low, e, ts, depth);
    }
  }

  lemma FinishTo(level: nat, op: nat, low: nat, e: Expr, ts: Toks, depth: nat)
    requires low <= op <= level <= 9 && 1 <= op <= 6 && Binds(Peek(ts)) == op
    ensures Finish(level, low, e, ts, depth) == AndClimb(Continue(op, e, ts, depth), op, low, depth)
  {
    PostStop(e, ts, depth + 1);
    if level > 6 { ClimbTo(7, op, low, e, ts, depth); }
    else if level > op {
      Stop(level, e, ts, depth);
      ClimbTo(level, op, low, e, ts, depth);
    }
  }

  // ---------------------------------------------------------------- names and first tokens

  lemma {:induction false} PathBack(segments: seq<string>, rest: Toks)
    requires segments != []
    ensures QualifiedName(WritePath(segments, rest)) == Segments(JoinPath(segments), rest)
    ensures WritePath(segments, rest).Cons? && Peek(WritePath(segments, rest)).Name?
  {
    if |segments| > 1 {
      var n := |segments| - 1;
      var first, tail := JoinPath(segments[..n]), Cons(ColonColon, Cons(Name(segments[n]), rest));
      PathBack(segments[..n], tail);
      assert Segments(first, tail) == Segments(first + "::" + segments[n], rest);
    }
  }

  lemma NamesBack(name: string, rest: Toks)
    ensures QualifiedName(NameToks(name, rest)) == Segments(name, rest)
    ensures NameToks(name, rest).Cons? && Peek(NameToks(name, rest)).Name?
  {
    PathBack(Split(name), rest);
    SplitJoins(name);
  }

  predicate Opener(t: Token) { PrefixAt(t).None? && !t.Amp? && !t.SpawnKw? }

  lemma {:induction false} FirstToken(c: Syntax, rest: Toks)
    requires Grammatical(c)
    ensures var t := Peek(Write(c, rest)); !t.IfKw? && !t.MatchKw? && !t.TransactKw? && !t.RParen? && (Rank(c) >= 8 ==> Opener(t))
  {
    match c
    case Path(segments) => PathBack(segments, rest);
    case Applied(f, args) => FirstToken(f, Cons(LParen, WriteList(args, RParen, rest)));
    case Assigned(t, rhs) => FirstToken(t, Cons(AssignTok, Write(rhs, rest)));
    case Indexed(b, es) => FirstToken(b, Cons(LBracket, WriteList(es, RBracket, rest)));
    case Dotted(b, f) => FirstToken(b, Cons(Dot, Cons(Name(f), rest)));
    case Infix(op, l, r) => FirstToken(l, Cons(OpToken(op), Write(r, rest)));
    case _ =>
  }

  // ---------------------------------------------------------------- the round trip

  function Fits<T>(depth: nat, need: nat, r: P<T>): P<T> {
    if depth + need <= MAX_PARSE_DEPTH then r else Err(TooDeep)
  }

  /** The tightest token that may follow a form. */
  function Allows(c: Syntax): int { if Rank(c) == 0 then -1 else Rank(c) }

  /** From any level at most its own, a spelling reads as what it means, at any nesting depth. */
  lemma {:induction false} SpellingBack(c: Syntax, low: nat, rest: Toks, depth: nat)
    requires Grammatical(c) && low <= Rank(c) && low <= 7 && Binds(Peek(rest)) <= Allows(c)
    ensures ParseAt(low, Write(c, rest), depth) == Fits(depth, Need(c), Finish(Rank(c), low, Tree(c), rest, depth))
    decreases c, 3
  {
    match c
    case Infix(_, _, _) => InfixBack(c, low, rest, depth);
    case Assigned(_, _) => AssignedBack(c, rest, depth);
    case Prefixed(_, _) => PrefixedBack(c, low, rest, depth);
    case Borrowed(_) => BorrowedBack(c, low, rest, depth);
    case Spawned(_) => SpawnedBack(c, low, rest, depth);
    case _ => TightBack(c, low, rest, depth);
  }

  /** An operand that nothing continues. */
  lemma {:induction false} OperandBack(c: Syntax, low: nat, rest: Toks, depth: nat)
    requires Grammatical(c) && low <= Rank(c) && low <= 7 && Binds(Peek(rest)) < low
    ensures ParseAt(low, Write(c, rest), depth) == Fits(depth, Need(c), Ok(Tree(c), rest))
    decreases c, 4
  {
    SpellingBack(c, low, rest, depth);
    FinishStop(Rank(c), low, Tree(c), rest, depth);
  }

  lemma {:induction false} ExprBack(c: Syntax, rest: Toks, depth: nat)
    requires Grammatical(c) && Binds(Peek(rest)) < 0
    ensures ParseExpr(Write(c, rest), depth) == Fits(depth, Nesting(c), Ok(Tree(c), rest))
    decreases c, 5
  {
    FirstToken(c, rest);
    ExprIsAssignment(Write(c, rest), depth);
    if depth + 1 <= MAX_PARSE_DEPTH { OperandBack(c, 0, rest, depth + 1); }
  }

  lemma {:induction false} ExprIsAssignment(ts: Toks, depth: nat)
    requires !Peek(ts).IfKw? && !Peek(ts).MatchKw? && !Peek(ts).TransactKw?
    ensures ParseExpr(ts, depth) == if depth + 1 <= MAX_PARSE_DEPTH then ParseAt(0, ts, depth + 1) else Err(TooDeep)
  {}

  lemma {:induction false} ListBack(cs: seq<Syntax>, close: Token, rest: Toks, depth: nat)
    requires cs != [] && AllGrammatical(cs) && (close.RParen? || close.RBracket?)
    ensures ParseList(close, WriteList(cs, close, rest), depth) == Fits(depth, NeedList(cs), Ok(Trees(cs), rest))
    decreases cs, 0
  {
    var after := if |cs| == 1 then Cons(close, rest) else Cons(Comma, WriteList(cs[1..], close, rest));
    ExprBack(cs[0], after, depth);
    if |cs| > 1 {
      ListBack(cs[1..], close, rest, depth);
    } else {
      assert cs[1..] == [] && NeedList(cs[1..]) == 0 && Trees(cs) == [Tree(cs[0])];
    }
  }

  lemma {:induction false} InfixBack(c: Syntax, low: nat, rest: Toks, depth: nat)
    requires c.Infix? && Grammatical(c) && low <= Rank(c) && Binds(Peek(rest)) <= Rank(c)
    ensures ParseAt(low, Write(c, rest), depth) == Fits(depth, Need(c), Finish(Rank(c), low, Tree(c), rest, depth))
    decreases c, 1
  {
    var k := OpLevel(c.op);
    var right := Write(c.r, rest);
    var ts := Cons(OpToken(c.op), right);
    SpellingBack(c.l, low, ts, depth);
    FinishTo(Rank(c.l), k, low, Tree(c.l), ts, depth);
    OperandBack(c.r, k + 1, rest, depth);
  }

  lemma {:induction false} AssignedBack(c: Syntax, rest: Toks, depth: nat)
    requires c.Assigned? && Grammatical(c) && Binds(Peek(rest)) < 0
    ensures ParseAt(0, Write(c, rest), depth) == Fits(depth, Need(c), Ok(Tree(c), rest))
    decreases c, 1
  {
    var ts := Cons(AssignTok, Write(c.rhs, rest));
    OperandBack(c.target, 1, ts, depth);
    OperandBack(c.rhs, 0, rest, depth);
    assert ContinueAssign(Tree(c.target), ts, depth) == Fits(depth, Need(c.rhs), Ok(Tree(c), rest));
  }

  lemma {:induction false} PrefixedBack(c: Syntax, low: nat, rest: Toks, depth: nat)
    requires c.Prefixed? && Grammatical(c) && low <= 7 && Binds(Peek(rest)) <= 6
    ensures ParseAt(low, Write(c, rest), depth) == Fits(depth, Need(c), Climb(7, low, Tree(c), rest, depth))
    decreases c, 1
  {
    var inner := Write(c.arg, rest);
    var ts := Cons(PreToken(c.pre), inner);
    ParseVia(low, 7, ts, depth);
    UnaryIsInner(ts, depth);
    UnaryIsInner(inner, depth + 1);
    OperandBack(c.arg, 7, rest, depth + 1);
  }

  lemma {:induction false} BorrowedBack(c: Syntax, low: nat, rest: Toks, depth: nat)
    requires c.Borrowed? && Grammatical(c) && low <= 7 && Binds(Peek(rest)) <= 6
    ensures ParseAt(low, Write(c, rest), depth) == Fits(depth, Need(c), Climb(7, low, Tree(c), rest, depth))
    decreases c, 1
  {
    var ts, inner := Write(c, rest), Write(c.arg, rest);
    ParseVia(low, 7, ts, depth);
    UnaryIsInner(ts, depth);
    UnaryIsInner(inner, depth + 1);
    OperandBack(c.arg, 7, rest, depth + 1);
  }

  lemma {:induction false} SpawnedBack(c: Syntax, low: nat, rest: Toks, depth: nat)
    requires c.Spawned? && Grammatical(c) && low <= 7 && Binds(Peek(rest)) <= 6
    ensures ParseAt(low, Write(c, rest), depth) == Fits(depth, Need(c), Climb(7, low, Tree(c), rest, depth))
    decreases c, 1
  {
    var ts := Write(c, rest);
    ParseVia(low, 7, ts, depth);
    SpawnBack(c, rest, depth);
  }

  lemma {:induction false} SpawnBack(c: Syntax, rest: Toks, depth: nat)
    requires c.Spawned? && Grammatical(c) && Binds(Peek(rest)) <= 6
    ensures ParseAt(7, Write(c, rest), depth) == Fits(depth, Need(c), Ok(Tree(c), rest))
    decreases c, 0
  {
    var ts := Write(c, rest);
    UnaryIsInner(ts, depth);
    InnerIsSpawn(ts, depth + 1);
    if depth + 1 <= MAX_PARSE_DEPTH { StopBack(c.call, rest, depth + 1); }
  }

  lemma InnerIsSpawn(ts: Toks, depth: nat)
    requires Peek(ts).SpawnKw?
    ensures var r := ParseCall(ts.tail, depth);
            ParseUnaryInner(ts, depth)
            == if r.Err? then Err(r.e) else if r.v.Call? then Ok(Spawn(r.v.callee, r.v.args), r.rest) else Err(NotSpawnable)
  {}

  lemma {:induction false} StopBack(c: Syntax, rest: Toks, depth: nat)
    requires Grammatical(c) && Rank(c) >= 8 && Binds(Peek(rest)) <= 6 && depth <= MAX_PARSE_DEPTH
    ensures ParseCall(Write(c, rest), depth) == Fits(depth, NeedInner(c), Ok(Tree(c), rest))
    decreases c, 2
  {
    CallBack(c, rest, depth);
    PostStop(Tree(c), rest, depth);
  }

  /** What stands behind the prefix operators, from `ParseCall` on. */
  function PostForm(c: Syntax, rest: Toks, depth: nat): P<Expr> {
    if Rank(c) == 9 then PostCall(Tree(c), rest, depth) else Ok(Tree(c), rest)
  }

  lemma {:induction false} CallBack(c: Syntax, rest: Toks, depth: nat)
    requires Grammatical(c) && Rank(c) >= 8 && Binds(Peek(rest)) <= 9 && depth <= MAX_PARSE_DEPTH
    ensures ParseCall(Write(c, rest), depth) == Fits(depth, NeedInner(c), PostForm(c, rest, depth))
    decreases c, 1
  {
    if c.Applied? { AppliedBack(c, rest, depth); } else { PostfixBack(c, rest, depth); }
  }

  lemma {:induction false} AppliedBack(c: Syntax, rest: Toks, depth: nat)
    requires c.Applied? && Grammatical(c) && depth <= MAX_PARSE_DEPTH
    ensures ParseCall(Write(c, rest), depth) == Fits(depth, NeedInner(c), Ok(Tree(c), rest))
    decreases c, 0
  {
    var ts := Cons(LParen, WriteList(c.args, RParen, rest));
    PostfixBack(c.fn, ts, depth);
    assert ContinuePostfix(Tree(c.fn), ts, depth) == Ok(Tree(c.fn), ts);
    if c.args != [] {
      ListBack(c.args, RParen, rest, depth);
      FirstToken(c.args[0], if |c.args| == 1 then Cons(RParen, rest) else Cons(Comma, WriteList(c.args[1..], RParen, rest)));
    }
  }

  /** Whatever a postfix can follow, and calls. */
  lemma {:induction false} TightBack(c: Syntax, low: nat, rest: Toks, depth: nat)
    requires Rank(c) >= 8 && Grammatical(c) && low <= 7 && Binds(Peek(rest)) <= 9
    ensures ParseAt(low, Write(c, rest), depth) == Fits(depth, Need(c), Finish(Rank(c), low, Tree(c), rest, depth))
    decreases c, 2
  {
    var ts := Write(c, rest);
    FirstToken(c, rest);
    ParseVia(low, 7, ts, depth);
    UnaryIsCall(ts, depth);
    if depth + 1 <= MAX_PARSE_DEPTH { CallBack(c, rest, depth + 1); }
  }

  lemma UnaryIsInner(ts: Toks, depth: nat)
    ensures ParseAt(7, ts, depth) == ParseUnary(ts, depth) == Fits(depth, 1, ParseUnaryInner(ts, depth + 1))
  {}

  lemma UnaryIsCall(ts: Toks, depth: nat)
    requires Opener(Peek(ts))
    ensures ParseAt(7, ts, depth) == Fits(depth, 1, ParseCall(ts, depth + 1))
  {
    assert ParseAt(7, ts, depth) == ParseUnary(ts, depth);
    assert ParseUnaryInner(ts, depth + 1) == ParseCall(ts, depth + 1);
  }

  lemma {:induction false} PostfixBack(c: Syntax, rest: Toks, depth: nat)
    requires Rank(c) == 9 && Grammatical(c) && Binds(Peek(rest)) <= 9 && depth <= MAX_PARSE_DEPTH
    ensures ParsePostfix(Write(c, rest), depth) == Fits(depth, NeedInner(c), ContinuePostfix(Tree(c), rest, depth))
    decreases c, 0
  {
    match c
    case Indexed(_, _) => IndexedBack(c, rest, depth);
    case Dotted(b, f) =>
      var after := Cons(Dot, Cons(Name(f), rest));
      PostfixBack(b, after, depth);
      assert ContinuePostfix(Tree(b), after, depth) == ContinuePostfix(Field(Tree(b), f), rest, depth);
    case _ => PrimaryBack(c, rest, depth);
  }

  lemma {:induction false} IndexedBack(c: Syntax, rest: Toks, depth: nat)
    requires c.Indexed? && Grammatical(c) && Binds(Peek(rest)) <= 9 && depth <= MAX_PARSE_DEPTH
    ensures ParsePostfix(Write(c, rest), depth) == Fits(depth, NeedInner(c), ContinuePostfix(Tree(c), rest, depth))
    decreases c, -1
  {
    var after := Cons(LBracket, WriteList(c.indices, RBracket, rest));
    PostfixBack(c.base, after, depth);
    ListBack(c.indices, RBracket, rest, depth);
    assert depth + NeedList(c.indices) <= MAX_PARSE_DEPTH ==>
             ContinuePostfix(Tree(c.base), after, depth) == ContinuePostfix(Tree(c), rest, depth);
  }

  lemma {:induction false} PrimaryBack(c: Syntax, rest: Toks, depth: nat)
    requires Rank(c) == 9 && !c.Indexed? && !c.Dotted? && Grammatical(c) && Binds(Peek(rest)) <= 9 && depth <= MAX_PARSE_DEPTH
    ensures ParsePostfix(Write(c, rest), depth) == Fits(depth, NeedInner(c), ContinuePostfix(Tree(c), rest, depth))
    decreases c, -1
  {
    match c
    case Path(segments) => PathIsPrimary(segments, rest, depth);
    case Listed(es) => ListBack(es, RBracket, rest, depth);
    case Paren(x) => ExprBack(x, Cons(RParen, rest), depth);
    case _ =>
  }

  lemma PathIsPrimary(segments: seq<string>, rest: Toks, depth: nat)
    requires segments != [] && Binds(Peek(rest)) <= 9
    ensures ParsePrimary(WritePath(segments, rest), depth) == Ok(Ident(JoinPath(segments)), rest)
  {
    PathBack(segments, rest);
  }

  /** What a spelling means is what the parser makes of it, within the nesting limit; beyond it the parser
      says so. */
  lemma SpelledIsRead(c: Syntax, ts: Toks, e: Expr, rest: Toks)
    requires Spells(c, ts, e, rest) && Binds(Peek(rest)) < 0
    ensures ParseExpr(ts, 0) == if Nesting(c) <= MAX_PARSE_DEPTH then Ok(e, rest) else Err(TooDeep)
  {
    ExprBack(c, rest, 0);
  }

  /** In particular printing and parsing undo each other. */
  lemma PrintThenParse(e: Expr, rest: Toks)
    requires Printable(e) && Binds(Peek(rest)) < 0
    ensures ParseExpr(Write(Canon(e), rest), 0) == if Nesting(Canon(e)) <= MAX_PARSE_DEPTH then Ok(e, rest) else Err(TooDeep)
  {
    CanonSpells(e);
    SpelledIsRead(Canon(e), Write(Canon(e), rest), e, rest);
  }
}
