/** Whatever the parser accepts is a spelling of the tree it gives; the canonical print of that tree is
    one that nests least, so it is accepted too. */
module Canonical {
  import opened Prelude
  import opened Grammar
  import opened Spelling
  import opened Print
  import opened RoundTrip

  // ---------------------------------------------------------------- what is read is spelled

  /** `c` spells what was read. */
  ghost predicate ReadAs(c: Syntax, ts: Toks, r: P<Expr>) { r.Ok? && Spells(c, ts, r.v, r.rest) }

  ghost predicate AllReadAs(cs: seq<Syntax>, close: Token, ts: Toks, r: P<seq<Expr>>) {
    r.Ok? && cs != [] && AllGrammatical(cs) && Trees(cs) == r.v && WriteList(cs, close, r.rest) == ts
  }

  lemma {:induction false} ReadExpr(ts: Toks, depth: nat) returns (c: Syntax)
    requires ParseExpr(ts, depth).Ok?
    ensures ReadAs(c, ts, ParseExpr(ts, depth)) && depth + Nesting(c) <= MAX_PARSE_DEPTH
    decreases Len(ts), 20
  {
    c := ReadAt(0, ts, depth + 1);
  }

  lemma {:induction false} ReadAt(k: nat, ts: Toks, depth: nat) returns (c: Syntax)
    requires k <= 7 && ParseAt(k, ts, depth).Ok?
    ensures var r := ParseAt(k, ts, depth); Begins(c, k, r.v, ts, r.rest, depth)
    decreases Len(ts), 19 - k
  {
    if k == 7 {
      c := ReadUnary(ts, depth);
    } else {
      var first := ReadAt(k + 1, ts, depth);
      var r := ParseAt(k + 1, ts, depth);
      if k == 0 { c := ReadAssign(first, r.v, ts, r.rest, depth); } else { c := ReadInfix(k, first, r.v, ts, r.rest, depth); }
    }
  }

  /** `c` binds at level `k` or tighter, means `e`, and is written as `start` up to `ts`. */
  ghost predicate Begins(c: Syntax, k: nat, e: Expr, start: Toks, ts: Toks, depth: nat) {
    Spells(c, start, e, ts) && Rank(c) >= k && depth + Need(c) <= MAX_PARSE_DEPTH
  }

  lemma {:induction false} ReadAssign(first: Syntax, e: Expr, start: Toks, ts: Toks, depth: nat) returns (c: Syntax)
    requires Begins(first, 1, e, start, ts, depth) && ContinueAssign(e, ts, depth).Ok?
    ensures var r := ContinueAssign(e, ts, depth); Begins(c, 0, r.v, start, r.rest, depth)
    decreases Len(ts), 20
  {
    c := first;
    if Peek(ts).AssignTok? {
      AssignOf(e, ts, depth);
      var r := ParseAt(0, ts.tail, depth);
      var rhs := ReadAt(0, ts.tail, depth);
      c := AssignJoins(first, e, rhs, start, ts, r.v, r.rest, depth);
    }
  }

  /** Only a name stands before `=`. */
  lemma {:induction false} AssignOf(e: Expr, ts: Toks, depth: nat)
    requires Peek(ts).AssignTok? && ContinueAssign(e, ts, depth).Ok?
    ensures e.Ident? && ParseAt(0, ts.tail, depth).Ok?
    ensures var r := ParseAt(0, ts.tail, depth); ContinueAssign(e, ts, depth) == Ok(Assign(e.name, r.v), r.rest)
  {}

  lemma {:induction false} AssignJoins(t: Syntax, x: Expr, r: Syntax, start: Toks, ts: Toks, e: Expr, rest: Toks, depth: nat) returns (c: Syntax)
    requires Begins(t, 1, x, start, ts, depth) && Peek(ts).AssignTok? && x.Ident? && Begins(r, 0, e, ts.tail, rest, depth)
    ensures Begins(c, 0, Assign(x.name, e), start, rest, depth)
  {
    c := Assigned(t, r);
  }

  lemma {:induction false} ReadInfix(k: nat, first: Syntax, e: Expr, start: Toks, ts: Toks, depth: nat) returns (c: Syntax)
    requires 1 <= k <= 6 && Begins(first, k, e, start, ts, depth) && ContinueBinary(k, e, ts, depth).Ok?
    ensures var r := ContinueBinary(k, e, ts, depth); Begins(c, k, r.v, start, r.rest, depth)
    decreases Len(ts), 20
  {
    var op := BinaryAt(k, Peek(ts));
    c := first;
    if op.Some? {
      OperatorThere(k, ts);
      OperandOf(k, e, ts, depth, op.value);
      var r := ParseAt(k + 1, ts.tail, depth);
      var second := ReadAt(k + 1, ts.tail, depth);
      var pair := InfixJoins(k, op.value, first, e, second, start, ts, r.v, r.rest, depth);
      c := ReadInfix(k, pair, Binary(op.value, e, r.v), start, r.rest, depth);
    }
  }

  lemma OperatorThere(k: nat, ts: Toks)
    requires BinaryAt(k, Peek(ts)).Some?
    ensures Len(ts.tail) < Len(ts)
  {}

  /** After an operator comes its right operand; the rest of the level goes on from the pair. */
  lemma {:induction false} OperandOf(k: nat, e: Expr, ts: Toks, depth: nat, op: BinOp)
    requires 1 <= k <= 6 && BinaryAt(k, Peek(ts)) == Some(op) && ContinueBinary(k, e, ts, depth).Ok?
    ensures var r := ParseAt(k + 1, ts.tail, depth);
            r.Ok? && ContinueBinary(k, e, ts, depth) == ContinueBinary(k, Binary(op, e, r.v), r.rest, depth)
  {}

  lemma {:induction false} InfixJoins(k: nat, op: BinOp, l: Syntax, x: Expr, r: Syntax, start: Toks, ts: Toks, e: Expr, rest: Toks, depth: nat)
    returns (c: Syntax)
    requires BinaryAt(k, Peek(ts)) == Some(op) && Begins(l, k, x, start, ts, depth) && Begins(r, k + 1, e, ts.tail, rest, depth)
    ensures Begins(c, k, Binary(op, x, e), start, rest, depth)
  {
    OperatorIff(k, Peek(ts), op, Not);
    c := Infix(op, l, r);
  }

  lemma {:induction false} ReadUnary(ts: Toks, depth: nat) returns (c: Syntax)
    requires ParseUnary(ts, depth).Ok?
    ensures var r := ParseUnary(ts, depth); Begins(c, 7, r.v, ts, r.rest, depth)
    decreases Len(ts), 11
  {
    match PrefixAt(Peek(ts))
    case Some(op) =>
      var arg := ReadUnary(ts.tail, depth + 1);
      OperatorIff(0, Peek(ts), Or, op);
      c := Prefixed(op, arg);
    case None =>
      if Peek(ts).Amp? {
        var arg := ReadUnary(ts.tail, depth + 1);
        c := Borrowed(arg);
      } else if Peek(ts).SpawnKw? {
        var call := ReadCall(ts.tail, depth + 1);
        c := Spawned(call);
      } else {
        c := ReadCall(ts, depth + 1);
      }
  }

  lemma {:induction false} ReadCall(ts: Toks, depth: nat) returns (c: Syntax)
    requires depth <= MAX_PARSE_DEPTH && ParseCall(ts, depth).Ok?
    ensures ReadAs(c, ts, ParseCall(ts, depth)) && Rank(c) >= 8 && depth + NeedInner(c) <= MAX_PARSE_DEPTH
    decreases Len(ts), 9
  {
    c := ReadPostfix(ts, depth);
    var r := ParsePostfix(ts, depth);
    if Peek(r.rest).LParen? {
      var args := [];
      if !Peek(r.rest.tail).RParen? { args := ReadList(RParen, r.rest.tail, depth); }
      c := ReadArgs(c, args, r.rest, depth);
    }
  }

  lemma {:induction false} ReadArgs(first: Syntax, args: seq<Syntax>, ts: Toks, depth: nat) returns (c: Syntax)
    requires Grammatical(first) && Rank(first) == 9 && depth + NeedInner(first) <= MAX_PARSE_DEPTH
    requires Peek(ts).LParen? && ContinueCall(Tree(first), ts, depth).Ok?
    requires if Peek(ts.tail).RParen? then args == []
             else AllReadAs(args, RParen, ts.tail, ParseList(RParen, ts.tail, depth)) && depth + NeedList(args) <= MAX_PARSE_DEPTH
    ensures ReadAs(c, Write(first, ts), ContinueCall(Tree(first), ts, depth)) && c.Applied? && depth + NeedInner(c) <= MAX_PARSE_DEPTH
  {
    c := Applied(first, args);
    var r := ContinueCall(Tree(first), ts, depth);
    assert ts == Cons(LParen, WriteList(args, RParen, r.rest));
    assert Tree(c) == r.v;
    assert Tree(first).Ident? && AllGrammatical(args);
    assert Grammatical(c);
    assert Write(c, r.rest) == Write(first, ts);
    assert NeedInner(c) <= Max(NeedInner(first), NeedList(args));
  }

  lemma {:induction false} ReadList(close: Token, ts: Toks, depth: nat) returns (cs: seq<Syntax>)
    requires ParseList(close, ts, depth).Ok?
    ensures AllReadAs(cs, close, ts, ParseList(close, ts, depth)) && depth + NeedList(cs) <= MAX_PARSE_DEPTH
    decreases Len(ts), 21
  {
    var first := ReadExpr(ts, depth);
    var r := ParseExpr(ts, depth);
    if Peek(r.rest).Comma? {
      var more := ReadList(close, r.rest.tail, depth);
      cs := [first] + more;
      assert cs[1..] == more;
    } else {
      cs := [first];
      assert cs[1..] == [] && Trees(cs) == [Tree(first)];
    }
  }

  lemma {:induction false} ReadPostfix(ts: Toks, depth: nat) returns (c: Syntax)
    requires depth <= MAX_PARSE_DEPTH && ParsePostfix(ts, depth).Ok?
    ensures ReadAs(c, ts, ParsePostfix(ts, depth)) && Rank(c) == 9 && depth + NeedInner(c) <= MAX_PARSE_DEPTH
    decreases Len(ts), 8
  {
    var first := ReadPrimary(ts, depth);
    c := ReadMore(first, ParsePrimary(ts, depth).rest, depth);
  }

  lemma {:induction false} ReadMore(first: Syntax, ts: Toks, depth: nat) returns (c: Syntax)
    requires Grammatical(first) && Rank(first) == 9 && depth + NeedInner(first) <= MAX_PARSE_DEPTH
    requires ContinuePostfix(Tree(first), ts, depth).Ok?
    ensures ReadAs(c, Write(first, ts), ContinuePostfix(Tree(first), ts, depth))
    ensures Rank(c) == 9 && depth + NeedInner(c) <= MAX_PARSE_DEPTH
    decreases Len(ts), 22
  {
    if Peek(ts).LBracket? {
      var indices := ReadList(RBracket, ts.tail, depth);
      c := ReadMore(Indexed(first, indices), ParseList(RBracket, ts.tail, depth).rest, depth);
    } else if Peek(ts).Dot? {
      var r := ExpectName(ts.tail);
      c := ReadMore(Dotted(first, r.v), r.rest, depth);
    } else {
      c := first;
    }
  }

  lemma {:induction false} ReadPrimary(ts: Toks, depth: nat) returns (c: Syntax)
    requires depth <= MAX_PARSE_DEPTH && ParsePrimary(ts, depth).Ok?
    ensures ReadAs(c, ts, ParsePrimary(ts, depth)) && Rank(c) == 9 && depth + NeedInner(c) <= MAX_PARSE_DEPTH
    decreases Len(ts), 7
  {
    match Peek(ts)
    case IntLit(n) => c := Number(n);
    case True => c := Truth(true);
    case False => c := Truth(false);
    case Name(s) =>
      var segments := ReadPath([s], ts.tail);
      c := Path(segments);
    case LParen =>
      var inner := ReadExpr(ts.tail, depth);
      c := Paren(inner);
    case LBracket =>
      var elems := ReadList(RBracket, ts.tail, depth);
      c := Listed(elems);
  }

  lemma {:induction false} ReadPath(first: seq<string>, ts: Toks) returns (segments: seq<string>)
    requires first != [] && Segments(JoinPath(first), ts).Ok?
    ensures var r := Segments(JoinPath(first), ts);
            segments != [] && JoinPath(segments) == r.v && WritePath(segments, r.rest) == WritePath(first, ts)
    decreases Len(ts)
  {
    if Peek(ts) == ColonColon {
      var r := ExpectName(ts.tail);
      var longer := first + [r.v];
      assert longer[..|first|] == first;
      segments := ReadPath(longer, r.rest);
    } else {
      segments := first;
    }
  }

  /** The parser accepts exactly the spellings within the nesting limit, and gives what they mean. */
  lemma ReadIffSpelled(ts: Toks, e: Expr, rest: Toks)
    requires Binds(Peek(rest)) < 0
    ensures ParseExpr(ts, 0) == Ok(e, rest) <==> exists c :: Spells(c, ts, e, rest) && Nesting(c) <= 50
  {
    if ParseExpr(ts, 0) == Ok(e, rest) { var c := ReadExpr(ts, 0); }
    if c :| Spells(c, ts, e, rest) && Nesting(c) <= 50 { SpelledIsRead(c, ts, e, rest); }
  }

  /** Whatever follows, only a spelling is accepted. */
  lemma ReadIsSpelled(ts: Toks) returns (c: Syntax)
    requires ParseExpr(ts, 0).Ok?
    ensures Spells(c, ts, ParseExpr(ts, 0).v, ParseExpr(ts, 0).rest) && Nesting(c) <= MAX_PARSE_DEPTH
  {
    c := ReadExpr(ts, 0);
  }

  // ---------------------------------------------------------------- the canonical print nests least

  /** No spelling of a tree nests less than its canonical print. */
  lemma {:induction false} NestsLeast(c: Syntax, k: nat)
    requires Grammatical(c) && k <= Rank(c)
    ensures Printable(Tree(c)) && Need(CanonAt(k, Tree(c))) <= Need(c)
    ensures k >= 8 ==> NeedInner(CanonAt(k, Tree(c))) <= NeedInner(c)
    decreases c, 1
  {
    if c.Paren? {
      ParenLeast(c, k);
    } else {
      FormLeast(c);
    }
  }

  lemma {:induction false} ParenLeast(c: Syntax, k: nat)
    requires c.Paren? && Grammatical(c)
    ensures Printable(Tree(c)) && Need(CanonAt(k, Tree(c))) <= Need(c)
    ensures k >= 8 ==> NeedInner(CanonAt(k, Tree(c))) <= NeedInner(c)
    decreases c, 0
  {
    var e := Tree(c);
    NestsLeast(c.inner, 0);
    assert CanonAt(0, e) == Canon(e);
    CanonSpells(e);
    if Level(e) < k { assert CanonAt(k, e) == Paren(Canon(e)); }
  }

  lemma {:induction false} FormLeast(c: Syntax)
    requires !c.Paren? && Grammatical(c)
    ensures var e := Tree(c);
            Printable(e) && Level(e) == Rank(c) && Need(Canon(e)) <= Need(c) && (Rank(c) >= 8 ==> NeedInner(Canon(e)) <= NeedInner(c))
    decreases c, 0
  {
    match c
    case Listed(_) => PostLeast(c);
    case Indexed(_, _) => PostLeast(c);
    case Dotted(_, _) => PostLeast(c);
    case Infix(op, l, r) => NestsLeast(l, OpLevel(op)); NestsLeast(r, OpLevel(op) + 1);
    case Prefixed(_, x) => NestsLeast(x, 7);
    case Paren(_) =>
    case _ => NamedLeast(c);
  }

  lemma {:induction false} PostLeast(c: Syntax)
    requires (c.Listed? || c.Indexed? || c.Dotted?) && Grammatical(c)
    ensures var e := Tree(c); Printable(e) && Level(e) == 9 && NeedInner(Canon(e)) <= NeedInner(c) && Need(Canon(e)) <= Need(c)
    decreases c, -1
  {
    match c
    case Listed(es) => AllLeast(es);
    case Indexed(b, es) => NestsLeast(b, 9); AllLeast(es);
    case Dotted(b, _) => NestsLeast(b, 9);
  }

  /** The forms that hold a name, and the ones that hold nothing. */
  lemma {:induction false} NamedLeast(c: Syntax)
    requires !c.Paren? && !c.Listed? && !c.Indexed? && !c.Dotted? && !c.Infix? && !c.Prefixed? && Grammatical(c)
    ensures var e := Tree(c);
            Printable(e) && Level(e) == Rank(c) && Need(Canon(e)) <= Need(c) && (Rank(c) >= 8 ==> NeedInner(Canon(e)) <= NeedInner(c))
    decreases c, -1
  {
    assert forall segments :: NeedInner(Path(segments)) == 0 && Need(Path(segments)) == 1;
    match c
    case Applied(_, args) => AllLeast(args);
    case Spawned(x) => NestsLeast(x, 8);
    case Assigned(_, rhs) => NestsLeast(rhs, 0);
    case _ =>
  }

  lemma {:induction false} AllLeast(cs: seq<Syntax>)
    requires AllGrammatical(cs)
    ensures AllPrintable(Trees(cs)) && NeedList(CanonAll(Trees(cs))) <= NeedList(cs)
    decreases cs
  {
    if cs != [] {
      NestsLeast(cs[0], 0);
      AllLeast(cs[1..]);
      var es := Trees(cs);
      assert es[1..] == Trees(cs[1..]);
      assert CanonAll(es)[1..] == CanonAll(es[1..]);
    }
  }

  /** Reading any accepted input, printing the tree canonically and reading it again gives the tree. */
  lemma CanonicalPrintIsAccepted(ts: Toks)
    requires ParseExpr(ts, 0).Ok?
    ensures var e := ParseExpr(ts, 0).v;
            Printable(e) && Nesting(Canon(e)) <= MAX_PARSE_DEPTH && ParseExpr(Write(Canon(e), Nil), 0) == Ok(e, Nil)
  {
    var e := ParseExpr(ts, 0).v;
    var c := ReadIsSpelled(ts);
    NestsLeast(c, 0);
    assert CanonAt(0, e) == Canon(e);
    PrintThenParse(e, Nil);
  }
}
