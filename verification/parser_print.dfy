/** The canonical print of an expression: the spelling with parentheses only where the grammar needs them. */
module Print {
  import opened Prelude
  import opened Grammar
  import opened Spelling
  import Registry

  /** How tightly an expression binds when it is written without parentheses around it. */
  function Level(e: Expr): (k: nat)
    ensures k <= 9
  {
    match e
    case Int(_) | Bool(_) | Ident(_) | ArrayLit(_) | Index(_, _) | Field(_, _) => 9
    case Call(_, _) => 8
    case Spawn(_, _) | Ref(_) | Prefix(_, _) => 7
    case Binary(op, _, _) => OpLevel(op)
    case Assign(_, _) => 0
  }

  /** A dotted path prints as its segments. */
  function Split(name: string): (segments: seq<string>)
    ensures segments != []
    decreases |name|
  {
    match Registry.LastSep(name)
    case None => [name]
    case Some(i) => Split(name[..i]) + [name[i + 2..]]
  }

  function NameToks(name: string, rest: Toks): Toks { WritePath(Split(name), rest) }

  /** `e` as an operand of level `k`. */
  function CanonAt(k: nat, e: Expr): Syntax
    decreases e, 1
  {
    if Level(e) >= k then Canon(e) else Paren(Canon(e))
  }

  function Canon(e: Expr): Syntax
    decreases e, 0
  {
    match e
    case Int(n) => Number(n)
    case Bool(b) => Truth(b)
    case Ident(x) => Path(Split(x))
    case ArrayLit(es) => Listed(CanonAll(es))
    case Index(b, es) => Indexed(CanonAt(9, b), CanonAll(es))
    case Field(b, f) => Dotted(CanonAt(9, b), f)
    case Call(f, args) => Applied(Path(Split(f)), CanonAll(args))
    case Spawn(f, args) => Spawned(Applied(Path(Split(f)), CanonAll(args)))
    case Ref(x) => Borrowed(Path(Split(x)))
    case Prefix(op, x) => Prefixed(op, CanonAt(7, x))
    case Binary(op, l, r) => Infix(op, CanonAt(OpLevel(op), l), CanonAt(OpLevel(op) + 1, r))
    case Assign(x, rhs) => Assigned(Path(Split(x)), CanonAt(0, rhs))
  }

  function CanonAll(es: seq<Expr>): (cs: seq<Syntax>)
    ensures |cs| == |es|
    decreases es
  {
    if es == [] then [] else [CanonAt(0, es[0])] + CanonAll(es[1..])
  }

  /** Lists that the grammar requires to be non-empty are. */
  predicate Printable(e: Expr) {
    match e
    case Int(_) | Bool(_) | Ident(_) | Ref(_) => true
    case ArrayLit(es) => es != [] && AllPrintable(es)
    case Index(b, es) => es != [] && Printable(b) && AllPrintable(es)
    case Field(b, _) => Printable(b)
    case Call(_, args) => AllPrintable(args)
    case Spawn(_, args) => AllPrintable(args)
    case Prefix(_, x) => Printable(x)
    case Binary(_, l, r) => Printable(l) && Printable(r)
    case Assign(_, rhs) => Printable(rhs)
  }

  predicate AllPrintable(es: seq<Expr>) { es == [] || (Printable(es[0]) && AllPrintable(es[1..])) }

  lemma {:induction false} SplitJoins(name: string)
    ensures JoinPath(Split(name)) == name
    decreases |name|
  {
    match Registry.LastSep(name)
    case None =>
    case Some(i) =>
      SplitJoins(name[..i]);
      var first := Split(name[..i]);
      assert (first + [name[i + 2..]])[..|first|] == first;
      assert name[i..i + 2] == "::";
      assert name[..i] + "::" + name[i + 2..] == name;
  }

  /** The canonical print spells the expression. */
  lemma {:induction false} CanonSpells(e: Expr)
    requires Printable(e)
    ensures Grammatical(Canon(e)) && Tree(Canon(e)) == e && Rank(Canon(e)) == Level(e)
    decreases e, 0
  {
    match e
    case Ident(x) => SplitJoins(x);
    case Ref(x) => SplitJoins(x);
    case ArrayLit(es) => CanonAllSpell(es);
    case Index(b, es) => CanonAtSpells(9, b); CanonAllSpell(es);
    case Field(b, _) => CanonAtSpells(9, b);
    case Call(f, args) => CanonCallSpells(f, args);
    case Spawn(f, args) => CanonCallSpells(f, args);
    case Prefix(_, x) => CanonAtSpells(7, x);
    case Binary(op, l, r) => CanonAtSpells(OpLevel(op), l); CanonAtSpells(OpLevel(op) + 1, r);
    case Assign(x, rhs) => SplitJoins(x); CanonAtSpells(0, rhs);
    case _ =>
  }

  lemma {:induction false} CanonCallSpells(f: string, args: seq<Expr>)
    requires AllPrintable(args)
    ensures var c := Applied(Path(Split(f)), CanonAll(args)); Grammatical(c) && Tree(c) == Call(f, args)
    decreases args, 1
  {
    SplitJoins(f);
    CanonAllSpell(args);
    assert Tree(Path(Split(f))) == Ident(f);
  }

  lemma {:induction false} CanonAtSpells(k: nat, e: Expr)
    requires Printable(e) && k <= 9
    ensures Grammatical(CanonAt(k, e)) && Tree(CanonAt(k, e)) == e && Rank(CanonAt(k, e)) >= k
    decreases e, 1
  {
    CanonSpells(e);
  }

  lemma {:induction false} CanonAllSpell(es: seq<Expr>)
    requires AllPrintable(es)
    ensures AllGrammatical(CanonAll(es)) && Trees(CanonAll(es)) == es
    decreases es, 0
  {
    if es != [] {
      CanonAtSpells(0, es[0]);
      CanonAllSpell(es[1..]);
      assert CanonAll(es)[1..] == CanonAll(es[1..]);
    }
  }
}
