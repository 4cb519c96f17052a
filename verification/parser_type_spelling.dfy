/** Types as they may be written, not only as they are printed: a function type without an arrow, and a
    declared type with an empty argument list. */
module TypeSpelling {
  import opened Prelude
  import opened Types
  import opened Grammar
  import opened Spelling
  import opened TypeSyntax
  import RoundTrip
  import Canonical

  /** The tokens `ts` in front of `rest` are a way to write `ty`. */
  ghost predicate SpellsTy(ty: Ty, ts: Toks, rest: Toks)
    decreases ty
  {
    match ty
    case Ref(i) => Peek(ts).Amp? && SpellsTy(i, ts.tail, rest)
    case Box(i) => Peek(ts).BoxKw? && SpellsTy(i, ts.tail, rest)
    case Froze(i) => Peek(ts).FrozeKw? && SpellsTy(i, ts.tail, rest)
    case Thread(i) => Peek(ts).ThreadKw? && SpellsTy(i, ts.tail, rest)
    case Channel(i) => Peek(ts).ChanKw? && SpellsTy(i, ts.tail, rest)
    case Vector(e, n) =>
      Peek(ts).VectorKw? && Peek(ts.tail).LParen?
      && SpellsTy(e, ts.tail.tail, Cons(Comma, Cons(IntLit(n), Cons(RParen, rest))))
    case Matrix(e, r, c) =>
      Peek(ts).MatrixKw? && Peek(ts.tail).LParen?
      && SpellsTy(e, ts.tail.tail, Cons(Comma, Cons(IntLit(r), Cons(Comma, Cons(IntLit(c), Cons(RParen, rest))))))
    case Fn(ps, r) =>
      Peek(ts).FnKw? && Peek(ts.tail).LParen?
      && exists mid :: SpellsTys(ps, ts.tail.tail, mid) && ((r == Unit && mid == rest) || (Peek(mid).Arrow? && SpellsTy(r, mid.tail, rest)))
    case Named(n, args) =>
      exists segments, mid ::
        IsPath(segments, n, ts, mid) && ((args == [] && mid == rest) || (Peek(mid).LParen? && SpellsTys(args, mid.tail, rest)))
    case Handle(k) => ts == Cons(HandleKw, Cons(LParen, Cons(Name(k), Cons(RParen, rest))))
    case Sandbox => ts == Cons(SandboxKw, rest)
    case Error => false
    case _ => ts == Cons(TypeName(ScalarName(ty)), rest)
  }

  /** Up to and including the closing parenthesis. */
  ghost predicate SpellsTys(tys: seq<Ty>, ts: Toks, rest: Toks)
    decreases tys
  {
    if tys == [] then ts == Cons(RParen, rest)
    else
      exists mid ::
        SpellsTy(tys[0], ts, mid)
        && if |tys| == 1 then mid == Cons(RParen, rest) else Peek(mid).Comma? && SpellsTys(tys[1..], mid.tail, rest)
  }

  ghost predicate IsPath(segments: seq<string>, name: string, ts: Toks, rest: Toks) {
    segments != [] && JoinPath(segments) == name && WritePath(segments, rest) == ts
  }

  // ---------------------------------------------------------------- what is read is a way to write it

  lemma {:induction false} TyRead(ts: Toks)
    requires ParseType(ts).Ok?
    ensures SpellsTy(ParseType(ts).v, ts, ParseType(ts).rest)
    decreases Len(ts), 1
  {
    var t := Peek(ts);
    if IsWrapToken(t) { WrapRead(ts); }
    else if t.VectorKw? || t.MatrixKw? { ArrayRead(ts); }
    else if t.FnKw? { FnRead(ts); }
    else if t.Name? { NamedRead(ts); }
    else if t.TypeName? { ScalarRead(t.s); }
  }

  lemma {:induction false} WrapRead(ts: Toks)
    requires IsWrapToken(Peek(ts)) && ParseType(ts).Ok?
    ensures SpellsTy(ParseType(ts).v, ts, ParseType(ts).rest)
    decreases Len(ts), 0
  {
    TyRead(ts.tail);
    WrapParse(ts.head, ts.tail);
    var r := ParseType(ts.tail);
    WrapOf(ts.head, r.v);
    WrapSpells(Wrap(ts.head, r.v), ts, r.rest);
  }

  lemma WrapOf(t: Token, inner: Ty)
    requires IsWrapToken(t)
    ensures IsWrapper(Wrap(t, inner)) && Wrap(t, inner).inner == inner && WrapToken(Wrap(t, inner)) == t
  {}

  lemma {:induction false} WrapSpells(ty: Ty, ts: Toks, rest: Toks)
    requires IsWrapper(ty)
    ensures SpellsTy(ty, ts, rest) <==> Peek(ts) == WrapToken(ty) && SpellsTy(ty.inner, ts.tail, rest)
  {
    match ty
    case Ref(_) =>
    case Box(_) =>
    case Froze(_) =>
    case Thread(_) =>
    case Channel(_) =>
  }

  /** A scalar's name is its own. */
  lemma ScalarRead(s: string)
    requires FromName(s).Some?
    ensures IsScalar(FromName(s).value) && ScalarName(FromName(s).value) == s
  {
    if FromName(s).value.IsInteger() { IntegerRead(s); } else { OtherRead(s); }
  }

  lemma IntegerRead(s: string)
    requires FromName(s).Some? && FromName(s).value.IsInteger()
    ensures IsScalar(FromName(s).value) && ScalarName(FromName(s).value) == s
  {}

  lemma OtherRead(s: string)
    requires FromName(s).Some? && !FromName(s).value.IsInteger()
    ensures IsScalar(FromName(s).value) && ScalarName(FromName(s).value) == s
  {}

  lemma {:induction false} ArrayRead(ts: Toks)
    requires (Peek(ts).VectorKw? || Peek(ts).MatrixKw?) && ParseArrayType(ts).Ok?
    ensures SpellsTy(ParseArrayType(ts).v, ts, ParseArrayType(ts).rest)
    decreases Len(ts), 0
  {
    var after := Expect(LParen, ts.tail).rest;
    assert after == ts.tail.tail && Peek(ts.tail).LParen?;
    TyRead(after);
    if ts.head.VectorKw? { VectorRead(ts, ParseType(after)); } else { MatrixRead(ts, ParseType(after)); }
  }

  lemma {:induction false} VectorRead(ts: Toks, r: P<Ty>)
    requires Peek(ts).VectorKw? && Peek(ts.tail).LParen? && r == ParseType(ts.tail.tail) && ParseArrayType(ts).Ok?
    requires r.Ok? && SpellsTy(r.v, ts.tail.tail, r.rest)
    ensures SpellsTy(ParseArrayType(ts).v, ts, ParseArrayType(ts).rest)
  {}

  lemma {:induction false} MatrixRead(ts: Toks, r: P<Ty>)
    requires Peek(ts).MatrixKw? && Peek(ts.tail).LParen? && r == ParseType(ts.tail.tail) && ParseArrayType(ts).Ok?
    requires r.Ok? && SpellsTy(r.v, ts.tail.tail, r.rest)
    ensures SpellsTy(ParseArrayType(ts).v, ts, ParseArrayType(ts).rest)
  {}

  lemma {:induction false} FnRead(ts: Toks)
    requires Peek(ts).FnKw? && ParseFnType(ts).Ok?
    ensures SpellsTy(ParseFnType(ts).v, ts, ParseFnType(ts).rest)
    decreases Len(ts), 0
  {
    var r1 := Expect(LParen, ts.tail);
    TysRead(r1.rest);
    var mid := ParseTypes(r1.rest).rest;
    if Peek(mid).Arrow? { TyRead(mid.tail); }
  }

  lemma {:induction false} NamedRead(ts: Toks)
    requires Peek(ts).Name? && ParseNamedType(ts).Ok?
    ensures SpellsTy(ParseNamedType(ts).v, ts, ParseNamedType(ts).rest)
    decreases Len(ts), 0
  {
    var segments := Canonical.ReadPath([ts.head.s], ts.tail);
    var r := QualifiedName(ts);
    assert IsPath(segments, r.v, ts, r.rest);
    if Peek(r.rest).LParen? { TysRead(r.rest.tail); }
  }

  lemma {:induction false} TysRead(ts: Toks)
    requires ParseTypes(ts).Ok?
    ensures SpellsTys(ParseTypes(ts).v, ts, ParseTypes(ts).rest)
    decreases Len(ts), 3
  {
    if !Peek(ts).RParen? { SomeRead(ts); }
  }

  lemma {:induction false} SomeRead(ts: Toks)
    requires ParseSomeTypes(ts).Ok?
    ensures ParseSomeTypes(ts).v != [] && SpellsTys(ParseSomeTypes(ts).v, ts, ParseSomeTypes(ts).rest)
    decreases Len(ts), 2
  {
    TyRead(ts);
    var r := ParseType(ts);
    if Peek(r.rest).Comma? {
      SomeRead(r.rest.tail);
      var more := ParseSomeTypes(r.rest.tail).v;
      assert ([r.v] + more)[1..] == more;
    }
  }

  // ---------------------------------------------------------------- every way to write it is read

  /** Nothing that would go on with a type. */
  predicate Ends(rest: Toks) { !Peek(rest).LParen? && !Peek(rest).ColonColon? && !Peek(rest).Arrow? }

  lemma {:induction false} TyBack(ty: Ty, ts: Toks, rest: Toks)
    requires SpellsTy(ty, ts, rest) && Ends(rest)
    ensures ParseType(ts) == Ok(ty, rest) && !Peek(ts).RParen?
    decreases ty, 1
  {
    if ty.Named? { NamedBack(ty, ts, rest); }
    else if ty.Fn? { FnBack(ty, ts, rest); }
    else if IsWrapper(ty) { WrapBack(ty, ts, rest); }
    else if ty.Vector? || ty.Matrix? { ArrayBack(ty, ts, rest); }
    else { AtomBack(ty, ts, rest); }
  }

  lemma {:induction false} AtomBack(ty: Ty, ts: Toks, rest: Toks)
    requires !ty.Named? && !ty.Fn? && !IsWrapper(ty) && !ty.Vector? && !ty.Matrix? && SpellsTy(ty, ts, rest)
    ensures ParseType(ts) == Ok(ty, rest) && !Peek(ts).RParen?
  {
    if IsScalar(ty) { ScalarBack(ty, rest); }
  }

  lemma {:induction false} WrapBack(ty: Ty, ts: Toks, rest: Toks)
    requires IsWrapper(ty) && SpellsTy(ty, ts, rest) && Ends(rest)
    ensures ParseType(ts) == Ok(ty, rest) && !Peek(ts).RParen?
    decreases ty, 0
  {
    WrapSpells(ty, ts, rest);
    TyBack(ty.inner, ts.tail, rest);
    WrapParse(ts.head, ts.tail);
  }

  lemma {:induction false} ArrayBack(ty: Ty, ts: Toks, rest: Toks)
    requires (ty.Vector? || ty.Matrix?) && SpellsTy(ty, ts, rest) && Ends(rest)
    ensures ParseType(ts) == Ok(ty, rest) && !Peek(ts).RParen?
    decreases ty, 0
  {
    var close := Cons(RParen, rest);
    var dims := if ty.Vector? then Cons(IntLit(ty.len), close) else Cons(IntLit(ty.rows), Cons(Comma, Cons(IntLit(ty.cols), close)));
    TyBack(ty.elem, ts.tail.tail, Cons(Comma, dims));
    assert ParseType(ts) == ParseArrayType(ts);
  }

  lemma {:induction false} FnBack(ty: Ty, ts: Toks, rest: Toks)
    requires ty.Fn? && SpellsTy(ty, ts, rest) && Ends(rest)
    ensures ParseType(ts) == Ok(ty, rest) && Peek(ts).FnKw?
    decreases ty, 0
  {
    var mid :| SpellsTys(ty.params, ts.tail.tail, mid)
               && ((ty.ret == Unit && mid == rest) || (Peek(mid).Arrow? && SpellsTy(ty.ret, mid.tail, rest)));
    TysBack(ty.params, ts.tail.tail, mid);
    if Peek(mid).Arrow? { TyBack(ty.ret, mid.tail, rest); }
    assert ParseType(ts) == ParseFnType(ts);
  }

  lemma {:induction false} NamedBack(ty: Ty, ts: Toks, rest: Toks)
    requires ty.Named? && SpellsTy(ty, ts, rest) && Ends(rest)
    ensures ParseType(ts) == Ok(ty, rest) && Peek(ts).Name?
    decreases ty, 0
  {
    var segments, mid :| IsPath(segments, ty.name, ts, mid)
                         && ((ty.args == [] && mid == rest) || (Peek(mid).LParen? && SpellsTys(ty.args, mid.tail, rest)));
    RoundTrip.PathBack(segments, mid);
    assert QualifiedName(ts) == Ok(ty.name, mid);
    if Peek(mid).LParen? { TysBack(ty.args, mid.tail, rest); }
    assert ParseType(ts) == ParseNamedType(ts);
  }

  lemma {:induction false} TysBack(tys: seq<Ty>, ts: Toks, rest: Toks)
    requires SpellsTys(tys, ts, rest)
    ensures ParseTypes(ts) == Ok(tys, rest) && (tys != [] ==> ParseSomeTypes(ts) == Ok(tys, rest))
    decreases tys
  {
    if tys != [] {
      var mid :| SpellsTy(tys[0], ts, mid)
                 && if |tys| == 1 then mid == Cons(RParen, rest) else Peek(mid).Comma? && SpellsTys(tys[1..], mid.tail, rest);
      TyBack(tys[0], ts, mid);
      if |tys| > 1 {
        TysBack(tys[1..], mid.tail, rest);
        assert [tys[0]] + tys[1..] == tys;
      } else {
        assert tys == [tys[0]];
      }
    }
  }

  /** The type parser accepts exactly the ways to write a type, and gives that type; whatever follows, it
      accepts nothing else. */
  lemma TypeReadIffSpelled(ts: Toks, ty: Ty, rest: Toks)
    ensures ParseType(ts) == Ok(ty, rest) ==> SpellsTy(ty, ts, rest)
    ensures SpellsTy(ty, ts, rest) && Ends(rest) ==> ParseType(ts) == Ok(ty, rest)
  {
    if ParseType(ts).Ok? { TyRead(ts); }
    if SpellsTy(ty, ts, rest) && Ends(rest) { TyBack(ty, ts, rest); }
  }
}
