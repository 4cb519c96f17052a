/** Types as written: how a type is named, how a written type is read, and when the two agree. */
module TypeSyntax {
  import opened Prelude
  import opened Types
  import opened Grammar
  import Print
  import RoundTrip

  // ---------------------------------------------------------------- reading

  function FromName(name: string): Option<Ty> {
    if name == "i8" then Some(I8) else if name == "i16" then Some(I16)
    else if name == "i32" then Some(I32) else if name == "i64" then Some(I64)
    else if name == "u8" then Some(U8) else if name == "u16" then Some(U16)
    else if name == "u32" then Some(U32) else if name == "u64" then Some(U64)
    else if name == "usize" then Some(Usize) else if name == "f64" then Some(F64)
    else if name == "dec128" then Some(Dec128) else if name == "bool" then Some(Ty.Bool)
    else if name == "unit" then Some(Unit) else if name == "str" then Some(Str)
    else if name == "tcp" then Some(Tcp) else if name == "tcp_listener" then Some(TcpListener)
    else if name == "file" then Some(File) else if name == "json" then Some(Json)
    else if name == "db" then Some(Db) else if name == "mq" then Some(Mq)
    else None
  }

  /** A dimension: a literal that is not negative. */
  function ExpectSize(ts: Toks): (r: P<nat>)
    ensures r.Ok? ==> Len(r.rest) < Len(ts)
  {
    if Peek(ts).IntLit? && Peek(ts).n >= 0 then Ok(Peek(ts).n, ts.tail) else Err(Unexpected(Peek(ts)))
  }

  /** A comma and a dimension. */
  function NextSize(ts: Toks): (r: P<nat>)
    ensures r.Ok? ==> Len(r.rest) < Len(ts) && ts == Cons(Comma, Cons(IntLit(r.v), r.rest))
  {
    var (_, rest) :- Expect(Comma, ts);
    ExpectSize(rest)
  }

  function Wrap(t: Token, inner: Ty): Ty {
    match t
    case Amp => Ty.Ref(inner)
    case BoxKw => Box(inner)
    case FrozeKw => Froze(inner)
    case ThreadKw => Thread(inner)
    case _ => Channel(inner)
  }

  predicate IsWrapToken(t: Token) { t.Amp? || t.BoxKw? || t.FrozeKw? || t.ThreadKw? || t.ChanKw? }

  function ParseType(ts: Toks): (r: P<Ty>)
    ensures r.Ok? ==> Len(r.rest) < Len(ts)
    decreases Len(ts), 1
  {
    var t := Peek(ts);
    if IsWrapToken(t) then
      var (inner, rest) :- ParseType(ts.tail);
      Ok(Wrap(t, inner), rest)
    else if t.VectorKw? || t.MatrixKw? then ParseArrayType(ts)
    else if t.FnKw? then ParseFnType(ts)
    else if t.Name? then ParseNamedType(ts)
    else ParseAtom(ts)
  }

  /** The types that contain no other. */
  function ParseAtom(ts: Toks): (r: P<Ty>)
    ensures r.Ok? ==> Len(r.rest) < Len(ts)
  {
    match Peek(ts)
    case SandboxKw => Ok(Sandbox, ts.tail)
    case HandleKw =>
      var (_, r1) :- Expect(LParen, ts.tail);
      var (kind, r2) :- ExpectName(r1);
      var (_, r3) :- Expect(RParen, r2);
      Ok(Handle(kind), r3)
    case TypeName(s) => (match FromName(s) case Some(ty) => Ok(ty, ts.tail) case None => Err(Unexpected(ts.head)))
    case t => Err(Unexpected(t))
  }

  /** A declared type, with its arguments if a parenthesis follows. */
  function ParseNamedType(ts: Toks): (r: P<Ty>)
    requires Peek(ts).Name?
    ensures r.Ok? ==> Len(r.rest) < Len(ts)
    decreases Len(ts), 0
  {
    var (name, r1) :- QualifiedName(ts);
    if !Peek(r1).LParen? then Ok(Named(name, []), r1)
    else
      var (args, r2) :- ParseTypes(r1.tail);
      Ok(Named(name, args), r2)
  }

  function ParseArrayType(ts: Toks): (r: P<Ty>)
    requires Peek(ts).VectorKw? || Peek(ts).MatrixKw?
    ensures r.Ok? ==> Len(r.rest) < Len(ts)
    decreases Len(ts), 0
  {
    var (_, r1) :- Expect(LParen, ts.tail);
    var (elem, r2) :- ParseType(r1);
    var (n, r3) :- NextSize(r2);
    if ts.head.VectorKw? then
      var (_, r4) :- Expect(RParen, r3);
      Ok(Vector(elem, n), r4)
    else
      var (cols, r4) :- NextSize(r3);
      var (_, r5) :- Expect(RParen, r4);
      Ok(Matrix(elem, n, cols), r5)
  }

  /** A function type; without an arrow it returns nothing. */
  function ParseFnType(ts: Toks): (r: P<Ty>)
    requires Peek(ts).FnKw?
    ensures r.Ok? ==> Len(r.rest) < Len(ts)
    decreases Len(ts), 0
  {
    var (_, r1) :- Expect(LParen, ts.tail);
    var (params, r2) :- ParseTypes(r1);
    if !Peek(r2).Arrow? then Ok(Fn(params, Unit), r2)
    else
      var (ret, r3) :- ParseType(r2.tail);
      Ok(Fn(params, ret), r3)
  }

  /** The types up to and including a closing parenthesis. */
  function ParseTypes(ts: Toks): (r: P<seq<Ty>>)
    ensures r.Ok? ==> Len(r.rest) < Len(ts)
    decreases Len(ts), 3
  {
    if Peek(ts).RParen? then Ok([], ts.tail) else ParseSomeTypes(ts)
  }

  function ParseSomeTypes(ts: Toks): (r: P<seq<Ty>>)
    ensures r.Ok? ==> Len(r.rest) < Len(ts)
    decreases Len(ts), 2
  {
    var (ty, r1) :- ParseType(ts);
    if Peek(r1).Comma? then
      var (more, r2) :- ParseSomeTypes(r1.tail);
      Ok([ty] + more, r2)
    else
      var (_, r2) :- Expect(RParen, r1);
      Ok([ty], r2)
  }

  // ---------------------------------------------------------------- naming

  predicate IsScalar(ty: Ty) {
    ty.I8? || ty.I16? || ty.I32? || ty.I64? || ty.U8? || ty.U16? || ty.U32? || ty.U64? || ty.Usize? || ty.F64?
    || ty.Dec128? || ty.Bool? || ty.Unit? || ty.Str? || ty.Tcp? || ty.TcpListener? || ty.File? || ty.Json? || ty.Db? || ty.Mq?
  }

  function ScalarName(ty: Ty): (s: string)
    requires IsScalar(ty)
    ensures FromName(s) == Some(ty)
  {
    match ty
    case I8 => "i8" case I16 => "i16" case I32 => "i32" case I64 => "i64"
    case U8 => "u8" case U16 => "u16" case U32 => "u32" case U64 => "u64" case Usize => "usize"
    case F64 => "f64" case Dec128 => "dec128" case Bool => "bool" case Unit => "unit" case Str => "str"
    case Tcp => "tcp" case TcpListener => "tcp_listener" case File => "file" case Json => "json"
    case Db => "db" case Mq => "mq"
  }

  const MAX_LITERAL := 0x7FFF_FFFF_FFFF_FFFF

  /** The token of a printed dimension; a number past `MAX_LITERAL` has none. */
  function Literal(n: nat): Token { if n <= MAX_LITERAL then IntLit(n) else Other }

  /** The tokens of a type's name, in front of `rest`. Two `&` in a row are one token. */
  function TypeToks(ty: Ty, rest: Toks): Toks
    decreases ty
  {
    match ty
    case Ref(i) => if i.Ref? then Cons(AndAnd, TypeToks(i.inner, rest)) else Cons(Amp, TypeToks(i, rest))
    case Box(i) => Cons(BoxKw, TypeToks(i, rest))
    case Froze(i) => Cons(FrozeKw, TypeToks(i, rest))
    case Thread(i) => Cons(ThreadKw, TypeToks(i, rest))
    case Channel(i) => Cons(ChanKw, TypeToks(i, rest))
    case Sandbox => Cons(SandboxKw, rest)
    case Vector(e, n) => Cons(VectorKw, Cons(LParen, TypeToks(e, Cons(Comma, Cons(Literal(n), Cons(RParen, rest))))))
    case Matrix(e, r, c) =>
      Cons(MatrixKw, Cons(LParen, TypeToks(e, Cons(Comma, Cons(Literal(r), Cons(Comma, Cons(Literal(c), Cons(RParen, rest))))))))
    case Handle(k) => Cons(HandleKw, Cons(Lt, Cons(Name(k), Cons(Gt, rest))))
    case Fn(ps, r) => Cons(FnKw, Cons(LParen, TypesToks(ps, Cons(Arrow, TypeToks(r, rest)))))
    case Named(n, args) =>
      Print.NameToks(n, if args == [] then rest else Cons(LParen, TypesToks(args, rest)))
    case Error => Cons(Lt, Cons(Name("error"), Cons(Gt, rest)))
    case _ => Cons(TypeName(ScalarName(ty)), rest)
  }

  function TypesToks(tys: seq<Ty>, rest: Toks): Toks
    decreases tys
  {
    if tys == [] then Cons(RParen, rest)
    else TypeToks(tys[0], if |tys| == 1 then Cons(RParen, rest) else Cons(Comma, TypesToks(tys[1..], rest)))
  }

  /** No plugin handle, no poison type, no reference to a reference and no dimension past `MAX_LITERAL`. */
  predicate Writable(ty: Ty) {
    match ty
    case Ref(i) => !i.Ref? && Writable(i)
    case Box(i) => Writable(i)
    case Froze(i) => Writable(i)
    case Thread(i) => Writable(i)
    case Channel(i) => Writable(i)
    case Vector(e, n) => Writable(e) && n <= MAX_LITERAL
    case Matrix(e, r, c) => Writable(e) && r <= MAX_LITERAL && c <= MAX_LITERAL
    case Handle(_) => false
    case Fn(ps, r) => AllWritable(ps) && Writable(r)
    case Named(_, args) => AllWritable(args)
    case Error => false
    case _ => true
  }

  predicate AllWritable(tys: seq<Ty>) { tys == [] || (Writable(tys[0]) && AllWritable(tys[1..])) }

  /** The written form ends in a bare name, which a `(` or `::` would extend. */
  predicate EndsBare(ty: Ty) {
    match ty
    case Ref(i) => EndsBare(i)
    case Box(i) => EndsBare(i)
    case Froze(i) => EndsBare(i)
    case Thread(i) => EndsBare(i)
    case Channel(i) => EndsBare(i)
    case Fn(_, r) => EndsBare(r)
    case Named(_, args) => args == []
    case _ => false
  }

  predicate Extends(ty: Ty, rest: Toks) { EndsBare(ty) && (Peek(rest).LParen? || Peek(rest).ColonColon?) }

  // ---------------------------------------------------------------- the round trip

  ghost predicate Back<T>(r: P<T>, writable: bool, v: T, rest: Toks) {
    if writable then r == Ok(v, rest) else r.Err?
  }

  lemma {:induction false} TypeBack(ty: Ty, rest: Toks)
    requires !Extends(ty, rest)
    ensures Back(ParseType(TypeToks(ty, rest)), Writable(ty), ty, rest)
    ensures Peek(TypeToks(ty, rest)) != RParen
    decreases ty, 1
  {
    if ty.Named? { NamedBack(ty, rest); }
    else if ty.Fn? { FnBack(ty, rest); }
    else if ty.Vector? || ty.Matrix? { ArrayBack(ty, rest); }
    else if TwoRefs(ty) { RefsBack(ty, rest); }
    else if IsWrapper(ty) { WrapBack(ty, rest); }
    else { AtomBack(ty, rest); }
  }

  lemma {:induction false} AtomBack(ty: Ty, rest: Toks)
    requires IsScalar(ty) || ty.Sandbox? || ty.Handle? || ty.Error?
    ensures Back(ParseType(TypeToks(ty, rest)), Writable(ty), ty, rest)
    ensures Peek(TypeToks(ty, rest)) != RParen
  {
    if IsScalar(ty) { ScalarBack(ty, rest); } else { OddBack(ty, rest); }
  }

  lemma {:induction false} ScalarBack(ty: Ty, rest: Toks)
    requires IsScalar(ty)
    ensures TypeToks(ty, rest) == Cons(TypeName(ScalarName(ty)), rest) && Writable(ty)
    ensures ParseType(TypeToks(ty, rest)) == Ok(ty, rest)
  {
    var ts := Cons(TypeName(ScalarName(ty)), rest);
    assert FromName(ScalarName(ty)) == Some(ty);
    assert ParseType(ts) == Ok(ty, rest);
  }

  lemma {:induction false} OddBack(ty: Ty, rest: Toks)
    requires ty.Sandbox? || ty.Handle? || ty.Error?
    ensures Back(ParseType(TypeToks(ty, rest)), Writable(ty), ty, rest)
    ensures Peek(TypeToks(ty, rest)) != RParen
  {}

  predicate IsWrapper(ty: Ty) { ty.Ref? || ty.Box? || ty.Froze? || ty.Thread? || ty.Channel? }

  function WrapToken(ty: Ty): (t: Token)
    requires IsWrapper(ty)
    ensures Wrap(t, ty.inner) == ty
  {
    if ty.Ref? then Amp else if ty.Box? then BoxKw else if ty.Froze? then FrozeKw else if ty.Thread? then ThreadKw else ChanKw
  }

  predicate TwoRefs(ty: Ty) { ty.Ref? && ty.inner.Ref? }

  lemma {:induction false} RefsBack(ty: Ty, rest: Toks)
    requires TwoRefs(ty)
    ensures ParseType(TypeToks(ty, rest)) == Err(Unexpected(AndAnd)) && !Writable(ty)
    ensures Peek(TypeToks(ty, rest)) != RParen
  {}

  lemma {:induction false} WrapBack(ty: Ty, rest: Toks)
    requires IsWrapper(ty) && !TwoRefs(ty) && !Extends(ty, rest)
    ensures Back(ParseType(TypeToks(ty, rest)), Writable(ty), ty, rest)
    ensures Peek(TypeToks(ty, rest)) != RParen
    decreases ty, 0
  {
    TypeBack(ty.inner, rest);
    WrapPrint(ty, rest);
    WrapParse(WrapToken(ty), TypeToks(ty.inner, rest));
  }

  lemma {:induction false} WrapPrint(ty: Ty, rest: Toks)
    requires IsWrapper(ty) && !TwoRefs(ty)
    ensures TypeToks(ty, rest) == Cons(WrapToken(ty), TypeToks(ty.inner, rest))
    ensures Writable(ty) == Writable(ty.inner) && Wrap(WrapToken(ty), ty.inner) == ty
  {}

  lemma {:induction false} WrapParse(t: Token, ts: Toks)
    requires IsWrapToken(t)
    ensures var r := ParseType(ts); ParseType(Cons(t, ts)) == if r.Err? then Err(r.e) else Ok(Wrap(t, r.v), r.rest)
  {}

  lemma {:induction false} ArrayBack(ty: Ty, rest: Toks)
    requires ty.Vector? || ty.Matrix?
    ensures Back(ParseType(TypeToks(ty, rest)), Writable(ty), ty, rest)
    decreases ty, 0
  {
    var close := Cons(RParen, rest);
    var dims := if ty.Vector? then Cons(Literal(ty.len), close) else Cons(Literal(ty.rows), Cons(Comma, Cons(Literal(ty.cols), close)));
    TypeBack(ty.elem, Cons(Comma, dims));
    if ty.Vector? { VectorTail(ty, close); } else { MatrixTail(ty, close); }
  }

  lemma {:induction false} ArrayToks(ts: Toks)
    requires Peek(ts).VectorKw? || Peek(ts).MatrixKw?
    ensures ParseType(ts) == ParseArrayType(ts)
  {}

  lemma {:induction false} FnToks(ts: Toks)
    requires Peek(ts).FnKw?
    ensures ParseType(ts) == ParseFnType(ts)
  {}

  lemma {:induction false} VectorTail(ty: Ty, close: Toks)
    requires ty.Vector? && close.Cons? && close.head.RParen?
    requires var dims := Cons(Comma, Cons(Literal(ty.len), close));
             Back(ParseType(TypeToks(ty.elem, dims)), Writable(ty.elem), ty.elem, dims)
    ensures Back(ParseType(TypeToks(ty, close.tail)), Writable(ty), ty, close.tail)
  {
    var inner := TypeToks(ty.elem, Cons(Comma, Cons(Literal(ty.len), close)));
    assert TypeToks(ty, close.tail) == Cons(VectorKw, Cons(LParen, inner));
    ArrayToks(Cons(VectorKw, Cons(LParen, inner)));
  }

  lemma {:induction false} MatrixTail(ty: Ty, close: Toks)
    requires ty.Matrix? && close.Cons? && close.head.RParen?
    requires var dims := Cons(Comma, Cons(Literal(ty.rows), Cons(Comma, Cons(Literal(ty.cols), close))));
             Back(ParseType(TypeToks(ty.elem, dims)), Writable(ty.elem), ty.elem, dims)
    ensures Back(ParseType(TypeToks(ty, close.tail)), Writable(ty), ty, close.tail)
  {
    var inner := TypeToks(ty.elem, Cons(Comma, Cons(Literal(ty.rows), Cons(Comma, Cons(Literal(ty.cols), close)))));
    assert TypeToks(ty, close.tail) == Cons(MatrixKw, Cons(LParen, inner));
    ArrayToks(Cons(MatrixKw, Cons(LParen, inner)));
  }

  lemma {:induction false} FnBack(ty: Ty, rest: Toks)
    requires ty.Fn? && !Extends(ty, rest)
    ensures Back(ParseType(TypeToks(ty, rest)), Writable(ty), ty, rest)
    decreases ty, 0
  {
    var after := Cons(Arrow, TypeToks(ty.ret, rest));
    TypeBack(ty.ret, rest);
    TypesBack(ty.params, after);
    FnPrint(ty, rest, after);
    FnToks(TypeToks(ty, rest));
  }

  lemma {:induction false} FnPrint(ty: Ty, rest: Toks, after: Toks)
    requires ty.Fn? && after == Cons(Arrow, TypeToks(ty.ret, rest))
    ensures TypeToks(ty, rest) == Cons(FnKw, Cons(LParen, TypesToks(ty.params, after)))
    ensures Writable(ty) == (AllWritable(ty.params) && Writable(ty.ret))
  {}

  lemma {:induction false} NamedBack(ty: Ty, rest: Toks)
    requires ty.Named? && !Extends(ty, rest)
    ensures Back(ParseType(TypeToks(ty, rest)), Writable(ty), ty, rest)
    ensures Peek(TypeToks(ty, rest)).Name?
    decreases ty, 0
  {
    var after := if ty.args == [] then rest else Cons(LParen, TypesToks(ty.args, rest));
    RoundTrip.NamesBack(ty.name, after);
    assert QualifiedName(TypeToks(ty, rest)) == Ok(ty.name, after);
    assert Writable(ty) == AllWritable(ty.args);
    if ty.args != [] {
      TypesBack(ty.args, rest);
      assert Peek(after).LParen? && after.tail == TypesToks(ty.args, rest);
    }
  }

  lemma {:induction false} TypesBack(tys: seq<Ty>, rest: Toks)
    ensures Back(ParseTypes(TypesToks(tys, rest)), AllWritable(tys), tys, rest)
    ensures tys != [] ==> Back(ParseSomeTypes(TypesToks(tys, rest)), AllWritable(tys), tys, rest)
    decreases tys
  {
    if tys != [] {
      var after := if |tys| == 1 then Cons(RParen, rest) else Cons(Comma, TypesToks(tys[1..], rest));
      TypeBack(tys[0], after);
      assert TypesToks(tys, rest) == TypeToks(tys[0], after);
      assert AllWritable(tys) == (Writable(tys[0]) && AllWritable(tys[1..]));
      if |tys| == 1 { assert tys == [tys[0]] && tys[1..] == []; }
      else { TypesBack(tys[1..], rest); assert tys == [tys[0]] + tys[1..]; }
    }
  }

  /** A `(` or `::` after a bare name is read as part of the type. */
  lemma {:induction false} Extended(ty: Ty, rest: Toks)
    requires Extends(ty, rest)
    ensures var r := ParseType(TypeToks(ty, rest)); r.Ok? ==> Len(r.rest) < Len(rest)
  {
    if TwoRefs(ty) { RefsBack(ty, rest); }
    else if IsWrapper(ty) {
      Extended(ty.inner, rest);
      WrapPrint(ty, rest);
      WrapParse(WrapToken(ty), TypeToks(ty.inner, rest));
    } else if ty.Fn? {
      Extended(ty.ret, rest);
      FnExtended(ty, rest, Cons(Arrow, TypeToks(ty.ret, rest)));
    } else {
      NamedExtended(ty, rest);
    }
  }

  lemma {:induction false} FnExtended(ty: Ty, rest: Toks, after: Toks)
    requires ty.Fn? && after == Cons(Arrow, TypeToks(ty.ret, rest))
    requires var r := ParseType(TypeToks(ty.ret, rest)); r.Ok? ==> Len(r.rest) < Len(rest)
    ensures var r := ParseType(TypeToks(ty, rest)); r.Ok? ==> Len(r.rest) < Len(rest)
  {
    FnPrint(ty, rest, after);
    FnToks(TypeToks(ty, rest));
    TypesBack(ty.params, after);
  }

  lemma {:induction false} NamedExtended(ty: Ty, rest: Toks)
    requires ty.Named? && Extends(ty, rest)
    ensures var r := ParseType(TypeToks(ty, rest)); r.Ok? ==> Len(r.rest) < Len(rest)
  {
    RoundTrip.NamesBack(ty.name, rest);
  }

  /** Naming a type and reading the name back gives the type exactly when it can be written and what
      follows does not extend it. */
  lemma TypeRoundTrip(ty: Ty, rest: Toks)
    ensures ParseType(TypeToks(ty, rest)) == Ok(ty, rest) <==> Writable(ty) && !Extends(ty, rest)
  {
    if Extends(ty, rest) { Extended(ty, rest); } else { TypeBack(ty, rest); }
  }
}
