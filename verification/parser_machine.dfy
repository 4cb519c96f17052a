/** The parser as the stateful object it is: a token buffer, a position, and the shared nesting
    counter. Every method reads exactly what the grammar's function reads, and leaves the counter as it
    found it whether it succeeds or fails. */
module ParserMachine {
  import opened Prelude
  import opened Grammar
  import opened TypeSyntax
  import Types

  datatype Result<+T> = Good(v: T) | Bad(e: ParseError) {
    predicate IsFailure() { Bad? }
    function PropagateFailure<U>(): Result<U> requires Bad? { Bad(e) }
    function Extract(): T requires Good? { v }
  }

  /** The tokens from position `i`; the buffer's last token is the end of input. */
  function From(toks: seq<Token>, i: nat): (ts: Toks)
    requires i < |toks|
    ensures Len(ts) == |toks| - 1 - i
    decreases |toks| - i
  {
    if i == |toks| - 1 then Nil else Cons(toks[i], From(toks, i + 1))
  }

  /** `r`, and the tokens left when it is a success, are what `p` says. */
  ghost predicate Agrees<T>(r: Result<T>, p: P<T>, left: Toks) {
    match p case Ok(v, rest) => r == Good(v) && left == rest case Err(e) => r == Bad(e)
  }

  /** `p` with `done` read before it. */
  ghost function After(done: seq<Expr>, p: P<seq<Expr>>): P<seq<Expr>> {
    match p case Ok(es, rest) => Ok(done + es, rest) case Err(e) => Err(e)
  }

  /** The closing token, after the last element. */
  ghost function Closed(close: Token, ts: Toks): P<seq<Expr>> {
    match Expect(close, ts) case Ok(_, rest) => Ok([], rest) case Err(e) => Err(e)
  }

  class Parser {
    const toks: seq<Token>
    var pos: nat
    var depth: nat

    constructor (toks: seq<Token>)
      requires toks != [] && toks[|toks| - 1] == EndOfInput
      ensures Valid() && Rest() == From(toks, 0) && depth == 0
    {
      this.toks, pos, depth := toks, 0, 0;
    }

    ghost predicate Valid() reads this { pos < |toks| && toks[|toks| - 1] == EndOfInput }
    ghost function Rest(): Toks reads this requires Valid() { From(toks, pos) }

    method PeekTok() returns (t: Token)
      requires Valid()
      ensures t == Peek(Rest())
    {
      t := toks[pos];
    }

    method Bump() returns (t: Token)
      requires Valid()
      modifies this`pos
      ensures Valid() && t == Peek(old(Rest()))
      ensures Rest() == if old(Rest()).Cons? then old(Rest()).tail else Nil
    {
      t := toks[pos];
      if pos + 1 < |toks| { pos := pos + 1; }
    }

    method ExpectTok(want: Token) returns (r: Result<()>)
      requires Valid() && !want.EndOfInput?
      modifies this`pos
      ensures Valid() && Agrees(r, Expect(want, old(Rest())), Rest())
    {
      var t := PeekTok();
      if t == want { var _ := Bump(); r := Good(()); } else { r := Bad(Unexpected(t)); }
    }

    method ExpectIdent() returns (r: Result<string>)
      requires Valid()
      modifies this`pos
      ensures Valid() && Agrees(r, ExpectName(old(Rest())), Rest())
    {
      var t := PeekTok();
      if t.Name? { var _ := Bump(); r := Good(t.s); } else { r := Bad(Unexpected(t)); }
    }

    method ParseQualifiedName() returns (r: Result<string>)
      requires Valid()
      modifies this`pos
      ensures Valid() && Agrees(r, QualifiedName(old(Rest())), Rest())
    {
      ghost var whole := QualifiedName(Rest());
      var out :- ExpectIdent();
      var t := PeekTok();
      while t.ColonColon?
        invariant Valid() && t == Peek(Rest()) && whole == Segments(out, Rest())
        decreases Len(Rest())
      {
        var _ := Bump();
        var seg :- ExpectIdent();
        out := out + "::" + seg;
        t := PeekTok();
      }
      r := Good(out);
    }

    method EnterNesting() returns (r: Result<()>)
      requires Valid()
      modifies this`depth
      ensures if old(depth) + 1 > MAX_PARSE_DEPTH then r == Bad(TooDeep) && depth == old(depth)
              else r == Good(()) && depth == old(depth) + 1
    {
      depth := depth + 1;
      if depth > MAX_PARSE_DEPTH {
        depth := depth - 1;
        return Bad(TooDeep);
      }
      r := Good(());
    }

    method ExitNesting()
      requires depth > 0
      modifies this`depth
      ensures depth == old(depth) - 1
    {
      depth := depth - 1;
    }

    method ParseExpression() returns (r: Result<Expr>)
      requires Valid()
      modifies this`pos, this`depth
      ensures Valid() && depth == old(depth) && Agrees(r, ParseExpr(old(Rest()), depth), Rest())
      decreases Len(Rest()), 20
    {
      var _ :- EnterNesting();
      var t := PeekTok();
      if t.IfKw? || t.MatchKw? || t.TransactKw? { r := Bad(NotModelled); }
      else { r := ParseAssignment(); }
      ExitNesting();
    }

    method ParseAssignment() returns (r: Result<Expr>)
      requires Valid()
      modifies this`pos, this`depth
      ensures Valid() && depth == old(depth) && Agrees(r, ParseAt(0, old(Rest()), depth), Rest())
      decreases Len(Rest()), 19
    {
      ghost var ts := Rest();
      var lhs :- ParseBinary(1);
      assert ParseAt(0, ts, depth) == ContinueAssign(lhs, Rest(), depth) by {
        assert Continue(0, lhs, Rest(), depth) == ContinueAssign(lhs, Rest(), depth);
      }
      var t := PeekTok();
      if !t.AssignTok? { return Good(lhs); }
      if !lhs.Ident? { return Bad(NotAssignable); }
      var _ := Bump();
      var rhs :- ParseAssignment();
      r := Good(Assign(lhs.name, rhs));
    }

    /** One of the six binary levels: operands of the next level, folded to the left. */
    method ParseBinary(k: nat) returns (r: Result<Expr>)
      requires Valid() && 1 <= k <= 6
      modifies this`pos, this`depth
      ensures Valid() && depth == old(depth) && Agrees(r, ParseAt(k, old(Rest()), depth), Rest())
      decreases Len(Rest()), 19 - k, 0
    {
      ghost var start := Len(Rest());
      ghost var whole := ParseAt(k, Rest(), depth);
      var lhs :- ParseOperand(k);
      assert whole == Continue(k, lhs, Rest(), depth);
      var t := PeekTok();
      while BinaryAt(k, t).Some?
        invariant Valid() && depth == old(depth) && t == Peek(Rest()) && Len(Rest()) < start
        invariant whole == ContinueBinary(k, lhs, Rest(), depth)
        decreases Len(Rest())
      {
        var op := BinaryAt(k, t).value;
        var _ := Bump();
        var rhs :- ParseOperand(k);
        lhs := Binary(op, lhs, rhs);
        t := PeekTok();
      }
      r := Good(lhs);
    }

    /** An operand of level `k`. */
    method ParseOperand(k: nat) returns (r: Result<Expr>)
      requires Valid() && 1 <= k <= 6
      modifies this`pos, this`depth
      ensures Valid() && depth == old(depth) && Agrees(r, ParseAt(k + 1, old(Rest()), depth), Rest())
      decreases Len(Rest()), 18 - k, 1
    {
      if k == 6 { r := ParseUnaryLevel(); } else { r := ParseBinary(k + 1); }
    }

    method ParseUnaryLevel() returns (r: Result<Expr>)
      requires Valid()
      modifies this`pos, this`depth
      ensures Valid() && depth == old(depth) && Agrees(r, ParseUnary(old(Rest()), depth), Rest())
      decreases Len(Rest()), 11
    {
      var _ :- EnterNesting();
      r := ParseUnaryForm();
      ExitNesting();
    }

    method ParseUnaryForm() returns (r: Result<Expr>)
      requires Valid()
      modifies this`pos, this`depth
      ensures Valid() && depth == old(depth) && Agrees(r, ParseUnaryInner(old(Rest()), depth), Rest())
      decreases Len(Rest()), 10
    {
      var t := PeekTok();
      if PrefixAt(t).Some? {
        var _ := Bump();
        var e :- ParseUnaryLevel();
        r := Good(Prefix(PrefixAt(t).value, e));
      } else if t.Amp? {
        var _ := Bump();
        var e :- ParseUnaryLevel();
        r := if e.Ident? then Good(Ref(e.name)) else Bad(NotBorrowable);
      } else if t.SpawnKw? {
        var _ := Bump();
        var e :- ParseCallForm();
        r := if e.Call? then Good(Spawn(e.callee, e.args)) else Bad(NotSpawnable);
      } else {
        r := ParseCallForm();
      }
    }

    method ParseCallForm() returns (r: Result<Expr>)
      requires Valid()
      modifies this`pos, this`depth
      ensures Valid() && depth == old(depth) && Agrees(r, ParseCall(old(Rest()), depth), Rest())
      decreases Len(Rest()), 9
    {
      var primary :- ParsePostfixForm();
      var t := PeekTok();
      if !t.LParen? { return Good(primary); }
      if !primary.Ident? { return Bad(NotCallable); }
      var _ := Bump();
      t := PeekTok();
      if t.RParen? {
        var _ := Bump();
        return Good(Call(primary.name, []));
      }
      var args :- ParseExprs(RParen);
      r := Good(Call(primary.name, args));
    }

    /** Expressions separated by commas, up to and including `close`. */
    method ParseExprs(close: Token) returns (r: Result<seq<Expr>>)
      requires Valid() && !close.EndOfInput?
      modifies this`pos, this`depth
      ensures Valid() && depth == old(depth) && Agrees(r, ParseList(close, old(Rest()), depth), Rest())
      decreases Len(Rest()), 21
    {
      ghost var start := Len(Rest());
      ghost var whole := ParseList(close, Rest(), depth);
      var es: seq<Expr> := [];
      var more := true;
      AfterNone(whole);
      while more
        invariant Valid() && depth == old(depth) && Len(Rest()) <= start
        invariant whole == After(es, if more then ParseList(close, Rest(), depth) else Closed(close, Rest()))
        decreases more, Len(Rest())
      {
        ListStep(es, close, Rest(), depth);
        var e :- ParseExpression();
        es := es + [e];
        var t := PeekTok();
        more := t.Comma?;
        if more { var _ := Bump(); }
      }
      assert es + [] == es;
      var _ :- ExpectTok(close);
      r := Good(es);
    }

    method ParsePostfixForm() returns (r: Result<Expr>)
      requires Valid()
      modifies this`pos, this`depth
      ensures Valid() && depth == old(depth) && Agrees(r, ParsePostfix(old(Rest()), depth), Rest())
      decreases Len(Rest()), 8
    {
      ghost var start := Len(Rest());
      ghost var whole := ParsePostfix(Rest(), depth);
      var e :- ParsePrimaryForm();
      var t := PeekTok();
      while t.LBracket? || t.Dot?
        invariant Valid() && depth == old(depth) && t == Peek(Rest()) && Len(Rest()) < start
        invariant whole == ContinuePostfix(e, Rest(), depth)
        decreases Len(Rest())
      {
        var _ := Bump();
        if t.LBracket? {
          var indices :- ParseExprs(RBracket);
          e := Index(e, indices);
        } else {
          var field :- ExpectIdent();
          e := Field(e, field);
        }
        t := PeekTok();
      }
      r := Good(e);
    }

    method ParsePrimaryForm() returns (r: Result<Expr>)
      requires Valid()
      modifies this`pos, this`depth
      ensures Valid() && depth == old(depth) && Agrees(r, ParsePrimary(old(Rest()), depth), Rest())
      decreases Len(Rest()), 7
    {
      var t := PeekTok();
      if t.IntLit? {
        var _ := Bump();
        r := Good(Int(t.n));
      } else if t.True? || t.False? {
        var _ := Bump();
        r := Good(Bool(t.True?));
      } else if t.Name? {
        var name :- ParseQualifiedName();
        r := Good(Ident(name));
      } else if t.LParen? {
        var _ := Bump();
        var e :- ParseExpression();
        var _ :- ExpectTok(RParen);
        r := Good(e);
      } else if t.LBracket? {
        var _ := Bump();
        var elems :- ParseExprs(RBracket);
        r := Good(ArrayLit(elems));
      } else {
        r := Bad(Unexpected(t));
      }
    }

    // -------------------------------------------------------------- types

    method ExpectType() returns (r: Result<Types.Ty>)
      requires Valid()
      modifies this`pos
      ensures Valid() && Agrees(r, ParseType(old(Rest())), Rest())
      decreases Len(Rest()), 1
    {
      var t := PeekTok();
      if t.Amp? || t.BoxKw? || t.FrozeKw? || t.ThreadKw? || t.ChanKw? {
        r := ExpectWrappedType();
      } else if t.SandboxKw? {
        var _ := Bump();
        r := Good(Types.Sandbox);
      } else if t.VectorKw? || t.MatrixKw? {
        r := ExpectArrayType();
      } else if t.HandleKw? {
        r := ExpectHandleType();
      } else if t.FnKw? {
        r := ExpectFnType();
      } else if t.TypeName? {
        var ty := FromName(t.s);
        if ty.None? { return Bad(Unexpected(t)); }
        var _ := Bump();
        r := Good(ty.value);
      } else if t.Name? {
        r := ExpectNamedType();
      } else {
        r := Bad(Unexpected(t));
      }
    }

    method ExpectWrappedType() returns (r: Result<Types.Ty>)
      requires Valid() && (var t := Peek(Rest()); t.Amp? || t.BoxKw? || t.FrozeKw? || t.ThreadKw? || t.ChanKw?)
      modifies this`pos
      ensures Valid() && Agrees(r, ParseType(old(Rest())), Rest())
      decreases Len(Rest()), 0
    {
      var t := Bump();
      var inner :- ExpectType();
      r := Good(Wrap(t, inner));
    }

    method ExpectNamedType() returns (r: Result<Types.Ty>)
      requires Valid() && Peek(Rest()).Name?
      modifies this`pos
      ensures Valid() && Agrees(r, ParseType(old(Rest())), Rest())
      decreases Len(Rest()), 0
    {
      var name :- ParseQualifiedName();
      var t := PeekTok();
      if !t.LParen? { return Good(Types.Named(name, [])); }
      var _ := Bump();
      var args :- ExpectTypes();
      r := Good(Types.Named(name, args));
    }

    method ExpectHandleType() returns (r: Result<Types.Ty>)
      requires Valid() && Peek(Rest()).HandleKw?
      modifies this`pos
      ensures Valid() && Agrees(r, ParseType(old(Rest())), Rest())
    {
      var _ := Bump();
      var _ :- ExpectTok(LParen);
      var kind :- ExpectIdent();
      var _ :- ExpectTok(RParen);
      r := Good(Types.Handle(kind));
    }

    method ExpectDimension() returns (r: Result<nat>)
      requires Valid()
      modifies this`pos
      ensures Valid() && Agrees(r, ExpectSize(old(Rest())), Rest())
    {
      var t := PeekTok();
      if t.IntLit? && t.n >= 0 { var _ := Bump(); r := Good(t.n); } else { r := Bad(Unexpected(t)); }
    }

    method ExpectArrayType() returns (r: Result<Types.Ty>)
      requires Valid() && (Peek(Rest()).VectorKw? || Peek(Rest()).MatrixKw?)
      modifies this`pos
      ensures Valid() && Agrees(r, ParseArrayType(old(Rest())), Rest())
      decreases Len(Rest()), 0
    {
      var t := Bump();
      var _ :- ExpectTok(LParen);
      var elem :- ExpectType();
      var _ :- ExpectTok(Comma);
      var n :- ExpectDimension();
      if t.VectorKw? {
        var _ :- ExpectTok(RParen);
        r := Good(Types.Vector(elem, n));
      } else {
        var _ :- ExpectTok(Comma);
        var cols :- ExpectDimension();
        var _ :- ExpectTok(RParen);
        r := Good(Types.Matrix(elem, n, cols));
      }
    }

    method ExpectFnType() returns (r: Result<Types.Ty>)
      requires Valid() && Peek(Rest()).FnKw?
      modifies this`pos
      ensures Valid() && Agrees(r, ParseFnType(old(Rest())), Rest())
      decreases Len(Rest()), 0
    {
      var _ := Bump();
      var _ :- ExpectTok(LParen);
      var params :- ExpectTypes();
      var t := PeekTok();
      if !t.Arrow? { return Good(Types.Fn(params, Types.Unit)); }
      var _ := Bump();
      var ret :- ExpectType();
      r := Good(Types.Fn(params, ret));
    }

    /** The types up to and including a closing parenthesis. */
    method ExpectTypes() returns (r: Result<seq<Types.Ty>>)
      requires Valid()
      modifies this`pos
      ensures Valid() && Agrees(r, ParseTypes(old(Rest())), Rest())
      decreases Len(Rest()), 3
    {
      ghost var start := Len(Rest());
      ghost var whole := ParseTypes(Rest());
      var t := PeekTok();
      var tys: seq<Types.Ty> := [];
      var more := !t.RParen?;
      if whole.Ok? { assert [] + whole.v == whole.v; }
      while more
        invariant Valid() && Len(Rest()) <= start
        invariant whole == AfterTypes(tys, if more then ParseSomeTypes(Rest()) else ClosedTypes(Rest()))
        decreases more, Len(Rest())
      {
        TypeStep(tys, Rest());
        var ty :- ExpectType();
        tys := tys + [ty];
        t := PeekTok();
        more := t.Comma?;
        if more { var _ := Bump(); }
      }
      assert tys + [] == tys;
      var _ :- ExpectTok(RParen);
      r := Good(tys);
    }
  }

  ghost function AfterTypes(done: seq<Types.Ty>, p: P<seq<Types.Ty>>): P<seq<Types.Ty>> {
    match p case Ok(tys, rest) => Ok(done + tys, rest) case Err(e) => Err(e)
  }

  ghost function ClosedTypes(ts: Toks): P<seq<Types.Ty>> {
    match Expect(RParen, ts) case Ok(_, rest) => Ok([], rest) case Err(e) => Err(e)
  }

  lemma TypeStep(done: seq<Types.Ty>, ts: Toks)
    ensures var p := ParseType(ts);
            AfterTypes(done, ParseSomeTypes(ts))
            == if p.Err? then Err(p.e)
               else AfterTypes(done + [p.v], if Peek(p.rest).Comma? then ParseSomeTypes(p.rest.tail) else ClosedTypes(p.rest))
  {
    var p := ParseType(ts);
    if p.Ok? {
      if Peek(p.rest).Comma? {
        var q := ParseSomeTypes(p.rest.tail);
        if q.Ok? { assert done + ([p.v] + q.v) == done + [p.v] + q.v; }
      } else {
        assert done + [p.v] + [] == done + [p.v];
      }
    }
  }

  lemma AfterNone(p: P<seq<Expr>>)
    ensures After([], p) == p
  {
    if p.Ok? { assert [] + p.v == p.v; }
  }

  /** One element of a list, after `done`. */
  lemma ListStep(done: seq<Expr>, close: Token, ts: Toks, depth: nat)
    ensures var p := ParseExpr(ts, depth);
            After(done, ParseList(close, ts, depth))
            == if p.Err? then Err(p.e)
               else After(done + [p.v], if Peek(p.rest).Comma? then ParseList(close, p.rest.tail, depth) else Closed(close, p.rest))
  {
    var p := ParseExpr(ts, depth);
    if p.Ok? {
      if Peek(p.rest).Comma? {
        var q := ParseList(close, p.rest.tail, depth);
        if q.Ok? { Regroup(done, p.v, q.v); }
      } else {
        Regroup(done, p.v, []);
      }
    }
  }

  lemma Regroup<T>(done: seq<T>, x: T, more: seq<T>)
    ensures done + ([x] + more) == done + [x] + more && [x] + [] == [x]
  {}
}
