/** When the SQL of a filter reads back as the filter. */
module FilterRoundTrip {
  import opened Basics
  import opened SqlTree
  import opened SqlSpelling
  import opened FilterPushdown

  /** The expression itself as a tree, without any parentheses and texts. */
  function Shape(src: Source, e: Expr): Tree
    requires Shippable(src, e)
  {
    match e
    case Column(name) => Leaf(ColToSql(src, name))
    case Literal(value) => Strip(ScalarTree(value))
    case BinaryExpr(op, l, r) => Binary(op, Shape(src, l), Shape(src, r))
    case NotExpr(a) => Not(Shape(src, a))
    case NegativeExpr(a) => Negative(Shape(src, a))
    case IsExpr(test, a) => Is(test, Shape(src, a))
    case InListExpr(negated, a, list) => InList(negated, Shape(src, a), Shapes(src, list))
  }

  function Shapes(src: Source, list: seq<Expr>): seq<Tree>
    requires forall x :: x in list ==> Shippable(src, x)
  {
    if list == [] then [] else [Shape(src, list[0])] + Shapes(src, list[1..])
  }

  lemma {:induction false} StripTree(src: Source, e: Expr)
    requires Shippable(src, e)
    ensures Strip(ToTree(src, e)) == Shape(src, e) && Leafy(ToTree(src, e))
    decreases e, 1
  {
    hide *;
    match e {
      case BinaryExpr(op, l, r) => StripBinary(src, op, l, r);
      case InListExpr(_, _, _) => StripIn(src, e);
      case NotExpr(_) => StripUnary(src, e);
      case NegativeExpr(_) => StripUnary(src, e);
      case IsExpr(_, _) => StripUnary(src, e);
      case _ => StripLeaf(src, e);
    }
  }

  lemma StripLeaf(src: Source, e: Expr)
    requires (e.Column? || e.Literal? || e.Unsupported?) && Shippable(src, e)
    ensures Strip(ToTree(src, e)) == Shape(src, e) && Leafy(ToTree(src, e))
  {
    hide IsLexeme, Quote;
  }

  lemma {:induction false} StripUnary(src: Source, e: Expr)
    requires (e.NotExpr? || e.NegativeExpr? || e.IsExpr?) && Shippable(src, e)
    ensures Strip(ToTree(src, e)) == Shape(src, e) && Leafy(ToTree(src, e))
    decreases e, 0
  {
    hide NeedsParen, OpToSql, ScalarTree, ScalarToSql, ColToSql;
    StripTree(src, e.arg);
  }

  lemma {:induction false} StripIn(src: Source, e: Expr)
    requires e.InListExpr? && Shippable(src, e)
    ensures Strip(ToTree(src, e)) == Shape(src, e) && Leafy(ToTree(src, e))
    decreases e, 0
  {
    hide NeedsParen, OpToSql, ScalarTree, ScalarToSql, ColToSql;
    StripTree(src, e.arg);
    StripTrees(src, e.list);
  }

  lemma {:induction false} StripBinary(src: Source, op: Operator, l: Expr, r: Expr)
    requires Shippable(src, BinaryExpr(op, l, r))
    ensures var e := BinaryExpr(op, l, r); Strip(ToTree(src, e)) == Shape(src, e) && Leafy(ToTree(src, e))
    decreases BinaryExpr(op, l, r), 0
  {
    hide NeedsParen, ToTree, OpToSql;
    TreeOfBinary(src, op, l, r);
    StripTree(src, l);
    StripTree(src, r);
  }

  lemma {:induction false} StripTrees(src: Source, list: seq<Expr>)
    requires forall x :: x in list ==> Shippable(src, x)
    ensures StripAll(ToTrees(src, list)) == Shapes(src, list) && forall x :: x in ToTrees(src, list) ==> Leafy(x)
    decreases list, 0
  {
    if list != [] {
      StripTree(src, list[0]);
      StripTrees(src, list[1..]);
      assert ToTrees(src, list)[1..] == ToTrees(src, list[1..]);
    }
  }

  lemma {:induction false} CanonicalLeafy(src: Source, t: Tree)
    requires Canonical(src, t)
    ensures Leafy(t)
  {
    match t {
      case Leaf(_) =>
      case Binary(_, l, r) => CanonicalLeafy(src, l); CanonicalLeafy(src, r);
      case InList(_, a, list) =>
        CanonicalLeafy(src, a);
        forall x | x in list ensures Leafy(x) { CanonicalLeafy(src, x); }
      case _ => CanonicalLeafy(src, t.arg);
    }
  }

  lemma ParsedWhole(src: Source, w: Sql)
    ensures ParseAll(src, w).Parsed? ==> ParseAll(src, w).rest == []
  {
  }

  // ---------------------------------------------------------------------------------------------
  // The condition on the filter
  // ---------------------------------------------------------------------------------------------

  /** The loosest operator that the printed expression shows on its left. */
  function ShownLeft(src: Source, e: Expr): nat {
    match e
    case BinaryExpr(op, l, _) => Min(OpLevel(src, op), if NeedsParen(op, l) then TOP else ShownLeft(src, l))
    case IsExpr(_, a) => Min(IsLevel(src), ShownLeft(src, a))
    case InListExpr(_, a, _) => Min(InLevel(src), ShownLeft(src, a))
    case _ => TOP
  }

  /** The loosest operator that the printed expression shows on its right. */
  function ShownRight(src: Source, e: Expr): nat {
    match e
    case BinaryExpr(op, _, r) => Min(OpLevel(src, op), if NeedsParen(op, r) then TOP else ShownRight(src, r))
    case NotExpr(a) => Min(NOT_LEVEL, ShownRight(src, a))
    case IsExpr(_, _) => if src == SQLite then IsLevel(src) else TOP
    case Literal(value) => if value.Other? && IsSigned(value.display) then SIGN_LEVEL else TOP
    case _ => TOP
  }

  /** The source knows every operator, and no operand without parentheses shows an operator that binds
      more loosely than the one it belongs to, nor on the right one that binds equally. */
  predicate Readable(src: Source, e: Expr) {
    match e
    case BinaryExpr(op, l, r) =>
      && Readable(src, l) && Readable(src, r) && OpLevel(src, op) > 0
      && (NeedsParen(op, l) || Follows(src, OpLevel(src, op), ShownRight(src, l)))
      && (NeedsParen(op, r) || OpLevel(src, op) < ShownLeft(src, r))
    case NotExpr(a) => Readable(src, a) && NOT_LEVEL <= ShownLeft(src, a)
    case NegativeExpr(a) => Readable(src, a) && SIGN_LEVEL <= ShownLeft(src, a)
    case IsExpr(_, a) => Readable(src, a) && Follows(src, IsLevel(src), ShownRight(src, a))
    case InListExpr(_, a, list) =>
      && Readable(src, a) && Follows(src, InLevel(src), ShownRight(src, a))
      && list != [] && forall x :: x in list ==> Readable(src, x)
    case _ => true
  }

  lemma {:induction false} ShownEdges(src: Source, e: Expr)
    requires Shippable(src, e)
    ensures LeftEdge(src, ToTree(src, e)) == ShownLeft(src, e) && RightEdge(src, ToTree(src, e)) == ShownRight(src, e)
    decreases e, 1
  {
    hide OpLevel, NeedsParen, IsLexeme, OpToSql, ScalarTree, ScalarToSql, IsLevel, InLevel;
    match e {
      case Literal(value) => LiteralEdges(src, value);
      case BinaryExpr(op, l, r) => BinaryEdges(src, op, l, r);
      case NotExpr(a) => ShownEdges(src, a);
      case IsExpr(_, a) => ShownEdges(src, a);
      case InListExpr(_, a, _) => ShownEdges(src, a);
      case _ =>
    }
  }

  lemma LiteralEdges(src: Source, value: Scalar)
    requires ScalarToSql(value).Some?
    ensures var t := ScalarTree(value);
      && LeftEdge(src, t) == TOP
      && RightEdge(src, t) == if value.Other? && IsSigned(value.display) then SIGN_LEVEL else TOP
  {
    hide IsLexeme, Quote;
  }

  lemma {:induction false} BinaryEdges(src: Source, op: Operator, l: Expr, r: Expr)
    requires Shippable(src, BinaryExpr(op, l, r))
    ensures var e := BinaryExpr(op, l, r);
      LeftEdge(src, ToTree(src, e)) == ShownLeft(src, e) && RightEdge(src, ToTree(src, e)) == ShownRight(src, e)
    decreases BinaryExpr(op, l, r), 0
  {
    hide OpLevel, NeedsParen, ToTree, OpToSql;
    TreeOfBinary(src, op, l, r);
    ShownEdges(src, l);
    ShownEdges(src, r);
  }

  lemma {:induction false} ReadableCanonical(src: Source, e: Expr)
    requires Shippable(src, e)
    ensures Readable(src, e) <==> Canonical(src, ToTree(src, e))
    decreases e, 1
  {
    hide *;
    match e {
      case BinaryExpr(op, l, r) => ReadableBinary(src, op, l, r);
      case InListExpr(_, _, _) => ReadableIn(src, e);
      case NotExpr(_) => ReadableUnary(src, e);
      case NegativeExpr(_) => ReadableUnary(src, e);
      case IsExpr(_, _) => ReadableUnary(src, e);
      case _ => ReadableLeaf(src, e);
    }
  }

  lemma ReadableLeaf(src: Source, e: Expr)
    requires (e.Column? || e.Literal? || e.Unsupported?) && Shippable(src, e)
    ensures Readable(src, e) <==> Canonical(src, ToTree(src, e))
  {
    hide ScalarTree, ScalarToSql, Quote;
    if e.Literal? {
      LiteralCanonical(src, e.value);
    }
  }

  lemma {:induction false} ReadableUnary(src: Source, e: Expr)
    requires (e.NotExpr? || e.NegativeExpr? || e.IsExpr?) && Shippable(src, e)
    ensures Readable(src, e) <==> Canonical(src, ToTree(src, e))
    decreases e, 0
  {
    hide OpLevel, NeedsParen, LeftEdge, RightEdge, ShownLeft, ShownRight, OpToSql, Follows, ScalarTree, ScalarToSql;
    ReadableCanonical(src, e.arg);
    ShownEdges(src, e.arg);
  }

  lemma {:induction false} ReadableIn(src: Source, e: Expr)
    requires e.InListExpr? && Shippable(src, e)
    ensures Readable(src, e) <==> Canonical(src, ToTree(src, e))
    decreases e, 0
  {
    hide OpLevel, NeedsParen, LeftEdge, RightEdge, ShownLeft, ShownRight, OpToSql, Follows, ScalarTree, ScalarToSql;
    ReadableCanonical(src, e.arg);
    ShownEdges(src, e.arg);
    var trees := ToTrees(src, e.list);
    forall i | 0 <= i < |e.list| ensures Readable(src, e.list[i]) <==> Canonical(src, trees[i]) {
      ReadableCanonical(src, e.list[i]);
    }
  }

  lemma LiteralCanonical(src: Source, value: Scalar)
    requires ScalarToSql(value).Some?
    ensures Canonical(src, ScalarTree(value))
  {
    hide IsLexeme, Quote;
  }

  lemma {:induction false} ReadableBinary(src: Source, op: Operator, l: Expr, r: Expr)
    requires Shippable(src, BinaryExpr(op, l, r))
    ensures var e := BinaryExpr(op, l, r); Readable(src, e) <==> Canonical(src, ToTree(src, e))
    decreases BinaryExpr(op, l, r), 0
  {
    hide OpLevel, NeedsParen, LeftEdge, RightEdge, ShownLeft, ShownRight, OpToSql, ToTree, Readable, Follows;
    BinaryShown(src, op, l, r);
    TreeOfBinary(src, op, l, r);
    ReadableCanonical(src, l); ReadableCanonical(src, r);
    ShownEdges(src, l); ShownEdges(src, r);
    ParenEdges(src, ToTree(src, l)); ParenEdges(src, ToTree(src, r));
  }

  lemma ParenEdges(src: Source, t: Tree)
    ensures LeftEdge(src, Paren(t)) == TOP && RightEdge(src, Paren(t)) == TOP
    ensures forall n: nat :: n < TOP ==> Follows(src, n, TOP)
    ensures Canonical(src, Paren(t)) <==> Canonical(src, t)
  {
  }

  // ---------------------------------------------------------------------------------------------
  // Reading the expression back
  // ---------------------------------------------------------------------------------------------

  /** The expression that a tree stands for: quoted names are columns, quoted texts and single lexemes are
      literals. */
  function ReadExpr(src: Source, t: Tree): Option<Expr> {
    match t
    case Leaf(Quoted(text)) => var s := Unquote(NameQuote(src), text); if s.Some? then Some(Column(s.value)) else None
    case Leaf(Text(text)) => var s := ReadText(src, text); if s.Some? then Some(Literal(Utf8(s.value))) else None
    case Leaf(Plain(word)) => if IsLexeme(word) then Some(Literal(Other(word))) else None
    case Leaf(_) => None
    case Binary(op, l, r) =>
      var x, y := ReadExpr(src, l), ReadExpr(src, r);
      if x.Some? && y.Some? then Some(BinaryExpr(op, x.value, y.value)) else None
    case Not(a) => var x := ReadExpr(src, a); if x.Some? then Some(NotExpr(x.value)) else None
    case Negative(a) => var x := ReadExpr(src, a); if x.Some? then Some(NegativeExpr(x.value)) else None
    case Is(test, a) => var x := ReadExpr(src, a); if x.Some? then Some(IsExpr(test, x.value)) else None
    case InList(negated, a, list) =>
      var x, ys := ReadExpr(src, a), ReadAll(src, list);
      if x.Some? && ys.Some? then Some(InListExpr(negated, x.value, ys.value)) else None
    case Paren(a) => ReadExpr(src, a)
  }

  function ReadAll(src: Source, list: seq<Tree>): Option<seq<Expr>> {
    if list == [] then Some([])
    else
      var x, ys := ReadExpr(src, list[0]), ReadAll(src, list[1..]);
      if x.Some? && ys.Some? then Some([x.value] + ys.value) else None
  }

  /** The literal is spelled as one literal, or as a sign and a number, and a text has no backslash that the
      source takes for an escape. */
  predicate LegibleLiteral(src: Source, value: Scalar) {
    match value
    case Utf8(s) => src == MySQL ==> IsHarmless(s)
    case Moment(rendered) =>
      rendered.Some? ==> '\'' !in rendered.value && (src == MySQL ==> IsHarmless(rendered.value))
    case Other(display) => IsLexeme(display) || IsSigned(display)
    case _ => true
  }

  predicate Legible(src: Source, e: Expr) {
    match e
    case Literal(value) => LegibleLiteral(src, value)
    case BinaryExpr(_, l, r) => Legible(src, l) && Legible(src, r)
    case NotExpr(a) => Legible(src, a)
    case NegativeExpr(a) => Legible(src, a)
    case IsExpr(_, a) => Legible(src, a)
    case InListExpr(_, a, list) => Legible(src, a) && forall x :: x in list ==> Legible(src, x)
    case _ => true
  }

  /** The expression up to literals that are spelled alike: a date is a text, and a negative number is the
      negation of a number. */
  function Normal(e: Expr): Expr {
    match e
    case Literal(Moment(Some(r))) => if '\'' in r then e else Literal(Utf8(r))
    case Literal(Other(d)) => if IsSigned(d) then NegativeExpr(Literal(Other(d[1..]))) else e
    case BinaryExpr(op, l, r) => BinaryExpr(op, Normal(l), Normal(r))
    case NotExpr(a) => NotExpr(Normal(a))
    case NegativeExpr(a) => NegativeExpr(Normal(a))
    case IsExpr(test, a) => IsExpr(test, Normal(a))
    case InListExpr(negated, a, list) => InListExpr(negated, Normal(a), NormalAll(list))
    case _ => e
  }

  function NormalAll(list: seq<Expr>): (r: seq<Expr>)
    ensures |r| == |list| && forall i :: 0 <= i < |list| ==> r[i] == Normal(list[i])
  {
    if list == [] then [] else [Normal(list[0])] + NormalAll(list[1..])
  }

  lemma {:induction false} EscapeNone(q: char, s: string)
    requires q !in s
    ensures Escape(q, s) == s
  {
    if s != [] {
      EscapeNone(q, s[1..]);
    }
  }

  /** Identifiers are printed in the quotes that the source reads. */
  lemma SameQuote(src: Source)
    ensures QuoteChar(src) == NameQuote(src)
  {
  }

  /** The leaves of a printed expression are read back exactly if they are legible. */
  lemma ReadsLeaf(src: Source, e: Expr)
    requires (e.Column? || e.Literal? || e.Unsupported?) && Shippable(src, e)
    ensures ReadExpr(src, ToTree(src, e)) == Some(Normal(e)) <==> Legible(src, e)
  {
    hide IsLexeme, Unquote, Quote, QuoteChar, NameQuote, ReadText, IsHarmless;
    SameQuote(src);
    match e {
      case Column(name) => UnquoteExact(NameQuote(src), Quote(NameQuote(src), name), name);
      case Literal(Utf8(s)) => TextRoundTrip(src, s);
      case Literal(Moment(Some(r))) =>
        if '\'' !in r {
          PlainQuote('\'', r);
          TextRoundTrip(src, r);
        }
      case Literal(Other(_)) =>
    }
  }

  lemma PlainQuote(q: char, s: string)
    requires q !in s
    ensures Quote(q, s) == [q] + s + [q]
  {
    EscapeNone(q, s);
  }

  /** The printed tree is read back as the expression if and only if its literals are legible. */
  lemma {:induction false} ReadsTree(src: Source, e: Expr)
    requires Shippable(src, e)
    ensures ReadExpr(src, ToTree(src, e)) == Some(Normal(e)) <==> Legible(src, e)
    decreases e, 1
  {
    hide *;
    match e {
      case BinaryExpr(op, l, r) => ReadsBinary(src, op, l, r);
      case InListExpr(_, _, _) => ReadsIn(src, e);
      case NotExpr(_) => ReadsUnary(src, e);
      case NegativeExpr(_) => ReadsUnary(src, e);
      case IsExpr(_, _) => ReadsUnary(src, e);
      case _ => ReadsLeaf(src, e);
    }
  }

  lemma {:induction false} ReadsUnary(src: Source, e: Expr)
    requires (e.NotExpr? || e.NegativeExpr? || e.IsExpr?) && Shippable(src, e)
    ensures ReadExpr(src, ToTree(src, e)) == Some(Normal(e)) <==> Legible(src, e)
    decreases e, 0
  {
    hide IsLexeme, Unquote, OpToSql, NeedsParen, ScalarTree, ScalarToSql, LegibleLiteral, ColToSql;
    ReadsTree(src, e.arg);
  }

  lemma InParts(src: Source, e: Expr)
    requires e.InListExpr? && Shippable(src, e)
    ensures Shippable(src, e.arg) && forall x :: x in e.list ==> Shippable(src, x)
    ensures ToTree(src, e) == InList(e.negated, ToTree(src, e.arg), ToTrees(src, e.list))
    ensures Normal(e) == InListExpr(e.negated, Normal(e.arg), NormalAll(e.list))
    ensures Legible(src, e) <==> Legible(src, e.arg) && forall x :: x in e.list ==> Legible(src, x)
  {
    hide ToTrees, NormalAll;
  }

  lemma ReadsInTree(src: Source, negated: bool, a: Tree, list: seq<Tree>)
    ensures var x, ys := ReadExpr(src, a), ReadAll(src, list);
      ReadExpr(src, InList(negated, a, list))
      == if x.Some? && ys.Some? then Some(InListExpr(negated, x.value, ys.value)) else None
  {
    hide ReadAll;
  }

  lemma {:induction false} ReadsIn(src: Source, e: Expr)
    requires e.InListExpr? && Shippable(src, e)
    ensures ReadExpr(src, ToTree(src, e)) == Some(Normal(e)) <==> Legible(src, e)
    decreases e, 0
  {
    hide *;
    InParts(src, e);
    ReadsInTree(src, e.negated, ToTree(src, e.arg), ToTrees(src, e.list));
    ReadsTree(src, e.arg);
    ReadsTrees(src, e.list);
  }

  lemma ReadsBinaryTree(src: Source, op: Operator, a: Tree, b: Tree)
    ensures var x, y := ReadExpr(src, a), ReadExpr(src, b);
      ReadExpr(src, Binary(op, a, b)) == if x.Some? && y.Some? then Some(BinaryExpr(op, x.value, y.value)) else None
    ensures ReadExpr(src, Paren(a)) == ReadExpr(src, a)
  {
  }

  lemma BinaryParts(src: Source, op: Operator, l: Expr, r: Expr)
    requires Shippable(src, BinaryExpr(op, l, r))
    ensures Shippable(src, l) && Shippable(src, r)
    ensures Normal(BinaryExpr(op, l, r)) == BinaryExpr(op, Normal(l), Normal(r))
    ensures Legible(src, BinaryExpr(op, l, r)) <==> Legible(src, l) && Legible(src, r)
  {
  }

  lemma {:induction false} ReadsBinary(src: Source, op: Operator, l: Expr, r: Expr)
    requires Shippable(src, BinaryExpr(op, l, r))
    ensures var e := BinaryExpr(op, l, r); ReadExpr(src, ToTree(src, e)) == Some(Normal(e)) <==> Legible(src, e)
    decreases BinaryExpr(op, l, r), 0
  {
    hide *;
    BinaryParts(src, op, l, r);
    TreeOfBinary(src, op, l, r);
    var a := if NeedsParen(op, l) then Paren(ToTree(src, l)) else ToTree(src, l);
    var b := if NeedsParen(op, r) then Paren(ToTree(src, r)) else ToTree(src, r);
    ReadsBinaryTree(src, op, a, b);
    ReadsBinaryTree(src, op, ToTree(src, l), b);
    ReadsBinaryTree(src, op, ToTree(src, r), b);
    ReadsTree(src, l);
    ReadsTree(src, r);
  }

  lemma ReadAllNext(src: Source, list: seq<Tree>)
    requires list != []
    ensures var x, ys := ReadExpr(src, list[0]), ReadAll(src, list[1..]);
      ReadAll(src, list) == if x.Some? && ys.Some? then Some([x.value] + ys.value) else None
  {
    hide ReadExpr;
  }

  lemma AllLegible(src: Source, list: seq<Expr>)
    requires list != []
    ensures (forall x :: x in list ==> Legible(src, x))
       <==> Legible(src, list[0]) && forall x :: x in list[1..] ==> Legible(src, x)
  {
    hide Legible;
    assert list == [list[0]] + list[1..];
  }

  lemma NextTrees(src: Source, list: seq<Expr>)
    requires list != [] && forall x :: x in list ==> Shippable(src, x)
    ensures ToTrees(src, list)[0] == ToTree(src, list[0]) && ToTrees(src, list)[1..] == ToTrees(src, list[1..])
    ensures NormalAll(list) == [Normal(list[0])] + NormalAll(list[1..])
  {
    hide ToTree, Normal, Shippable;
  }

  lemma {:induction false} ReadsTrees(src: Source, list: seq<Expr>)
    requires forall x :: x in list ==> Shippable(src, x)
    ensures ReadAll(src, ToTrees(src, list)) == Some(NormalAll(list)) <==> forall x :: x in list ==> Legible(src, x)
    decreases list, 0
  {
    hide *;
    if list == [] {
      NoTrees(src);
    } else {
      ReadsTree(src, list[0]);
      ReadsTrees(src, list[1..]);
      NextTrees(src, list);
      ReadAllNext(src, ToTrees(src, list));
      AllLegible(src, list);
      var x, ys := ReadExpr(src, ToTree(src, list[0])), ReadAll(src, ToTrees(src, list[1..]));
      if x.Some? && ys.Some? {
        FirstAndRest(x.value, ys.value, Normal(list[0]), NormalAll(list[1..]));
      }
    }
  }

  lemma NoTrees(src: Source)
    ensures ReadAll(src, ToTrees(src, [])) == Some(NormalAll([]))
  {
  }

  lemma FirstAndRest(x: Expr, xs: seq<Expr>, y: Expr, ys: seq<Expr>)
    ensures [x] + xs == [y] + ys <==> x == y && xs == ys
  {
    if [x] + xs == [y] + ys {
      assert ([x] + xs)[0] == x && ([y] + ys)[0] == y && ([x] + xs)[1..] == xs && ([y] + ys)[1..] == ys;
    }
  }

  /** Spelling alike does not change what is printed. */
  lemma {:induction false} NormalShape(src: Source, e: Expr)
    requires Shippable(src, e)
    ensures Shippable(src, Normal(e)) && Shape(src, Normal(e)) == Shape(src, e)
    decreases e, 0
  {
    hide IsLexeme, OpToSql;
    match e {
      case Literal(Other(d)) => if IsSigned(d) { DigitsOnly(d[1..]); }
      case BinaryExpr(_, l, r) => NormalShape(src, l); NormalShape(src, r);
      case NotExpr(a) => NormalShape(src, a);
      case NegativeExpr(a) => NormalShape(src, a);
      case IsExpr(_, a) => NormalShape(src, a);
      case InListExpr(_, a, list) => NormalShape(src, a); NormalShapes(src, list);
      case _ =>
    }
  }

  lemma DigitsOnly(d: string)
    requires IsLexeme(d)
    ensures !IsSigned(d)
  {
  }

  lemma {:induction false} NormalShapes(src: Source, list: seq<Expr>)
    requires forall x :: x in list ==> Shippable(src, x)
    ensures forall x :: x in NormalAll(list) ==> Shippable(src, x)
    ensures Shapes(src, NormalAll(list)) == Shapes(src, list)
    decreases list, 0
  {
    hide Shape, Normal, Shippable;
    if list != [] {
      NormalShape(src, list[0]);
      NormalShapes(src, list[1..]);
      assert NormalAll(list)[1..] == NormalAll(list[1..]);
      assert list == [list[0]] + list[1..];
    }
  }

  /** A tree that is read as an expression has its shape. */
  lemma {:induction false} ShapeOfRead(src: Source, t: Tree, x: Expr)
    requires ReadExpr(src, t) == Some(x) && Shippable(src, x)
    ensures Strip(t) == Shape(src, x)
    decreases t, 0
  {
    hide IsLexeme, OpToSql, Unquote, Quote, QuoteChar, NameQuote, ReadText;
    match t {
      case Leaf(Quoted(text)) => SameQuote(src); UnquoteExact(NameQuote(src), text, x.name);
      case Leaf(Text(_)) =>
      case Leaf(Plain(word)) => DigitsOnly(word);
      case Binary(_, l, r) => ShapeOfRead(src, l, x.left); ShapeOfRead(src, r, x.right);
      case Not(a) => ShapeOfRead(src, a, x.arg);
      case Negative(a) => ShapeOfRead(src, a, x.arg);
      case Is(_, a) => ShapeOfRead(src, a, x.arg);
      case InList(_, a, list) => ShapeOfRead(src, a, x.arg); ShapesOfRead(src, list, x.list);
      case Paren(a) => ShapeOfRead(src, a, x);
    }
  }

  lemma {:induction false} ShapesOfRead(src: Source, list: seq<Tree>, xs: seq<Expr>)
    requires ReadAll(src, list) == Some(xs) && forall x :: x in xs ==> Shippable(src, x)
    ensures StripAll(list) == Shapes(src, xs)
    decreases list, 0
  {
    hide ReadExpr, Shape, Strip, Shippable;
    if list != [] {
      assert xs[0] in xs && xs[1..] == ReadAll(src, list[1..]).value;
      ShapeOfRead(src, list[0], xs[0]);
      ShapesOfRead(src, list[1..], xs[1..]);
    }
  }

  /** The remote source reads the printed filter as the filter. */
  ghost predicate ReadsBackAs(src: Source, e: Expr)
    requires Shippable(src, e)
  {
    var p := ParseAll(src, Print(src, e));
    p.Parsed? && ReadExpr(src, p.value) == Some(Normal(e))
  }

  /** The round trip, quoting included: on every source, a filter reads back as itself, up to literals
      that are spelled alike, if and only if it is readable and its literals are legible. */
  lemma RoundTrip(src: Source, e: Expr)
    requires Shippable(src, e)
    ensures ReadsBackAs(src, e) <==> Readable(src, e) && Legible(src, e)
  {
    hide Readable, Legible, Canonical, ParseAll, Flat, ToTree, Shape, Strip, Leafy, ReadExpr, Normal;
    var t, w := ToTree(src, e), Print(src, e);
    ReadableCanonical(src, e);
    ReadsTree(src, e);
    if Canonical(src, t) {
      ParsesExactly(src, w, t);
    }
    if ReadsBackAs(src, e) {
      var p := ParseAll(src, w);
      ParsedWhole(src, w);
      ParsesExactly(src, w, p.value);
      CanonicalLeafy(src, p.value);
      StripTree(src, e);
      NormalShape(src, e);
      ShapeOfRead(src, p.value, Normal(e));
      SameSpelling(p.value, t);
    }
  }

  // ---------------------------------------------------------------------------------------------
  // Filters that read back, and filters that do not
  // ---------------------------------------------------------------------------------------------

  /** Every operator that the source can read is shipped to it, and exactly these others as well. */
  lemma ShippedUnread(src: Source, op: Operator)
    ensures OpLevel(src, op) > 0 ==> OpToSql(src, op).Some?
    ensures OpLevel(src, op) == 0 && OpToSql(src, op).Some? <==>
      match op
      case BitwiseXor => src == Postgres
      case IsDistinctFrom | IsNotDistinctFrom | StringConcat => src == MySQL
      case LikeMatch | ILikeMatch | NotLikeMatch | NotILikeMatch | AtArrow | ArrowAt => src != Postgres
      case _ => false
  {
  }

  predicate IsArithmetic(op: Operator) {
    op.Plus? || op.Minus? || op.Multiply? || op.Divide? || op.Modulo?
  }

  predicate IsComparison(op: Operator) {
    op.Eq? || op.NotEq? || op.Lt? || op.LtEq? || op.Gt? || op.GtEq?
  }

  /** A column, a literal, or the negation of one. */
  predicate Plainly(e: Expr) {
    e.Column? || e.Literal? || (e.NegativeExpr? && Plainly(e.arg))
  }

  /** The right operand is not a binary expression of the operator's own precedence. */
  predicate RightApart(op: Operator, r: Expr) {
    r.BinaryExpr? ==> Precedence(r.op) != Precedence(op)
  }

  predicate Term(e: Expr) {
    Plainly(e) || (e.BinaryExpr? && IsArithmetic(e.op) && Term(e.left) && Term(e.right) && RightApart(e.op, e.right))
  }

  /** Comparisons of terms, and tests of plain operands, combined with AND and OR. */
  predicate Condition(e: Expr) {
    match e
    case BinaryExpr(op, l, r) =>
      || (IsComparison(op) && Term(l) && Term(r))
      || ((op.And? || op.Or?) && Condition(l) && Condition(r) && RightApart(op, r))
    case NotExpr(a) => Plainly(a)
    case IsExpr(_, a) => Plainly(a)
    case InListExpr(_, a, list) => Plainly(a) && list != [] && forall x :: x in list ==> Term(x)
    case _ => Plainly(e)
  }

  lemma BinaryShown(src: Source, op: Operator, l: Expr, r: Expr)
    ensures var e := BinaryExpr(op, l, r);
      && (Readable(src, e) <==>
            && Readable(src, l) && Readable(src, r) && OpLevel(src, op) > 0
            && (NeedsParen(op, l) || Follows(src, OpLevel(src, op), ShownRight(src, l)))
            && (NeedsParen(op, r) || OpLevel(src, op) < ShownLeft(src, r)))
      && ShownLeft(src, e) == Min(OpLevel(src, op), if NeedsParen(op, l) then TOP else ShownLeft(src, l))
      && ShownRight(src, e) == Min(OpLevel(src, op), if NeedsParen(op, r) then TOP else ShownRight(src, r))
  {
    hide OpLevel, NeedsParen;
  }

  /** Among arithmetic operators, and among AND, OR and comparisons, the remote source agrees with the
      engine on which operator binds more tightly. */
  lemma SameOrder(src: Source, p: Operator, q: Operator)
    requires (IsArithmetic(p) && IsArithmetic(q)) || ((p.And? || p.Or?) && (q.And? || q.Or? || IsComparison(q)))
    ensures Precedence(p) > 0 && Precedence(q) > 0
    ensures Precedence(q) < Precedence(p) <==> OpLevel(src, q) < OpLevel(src, p)
    ensures Precedence(q) == Precedence(p) <==> OpLevel(src, q) == OpLevel(src, p)
    ensures p.And? || p.Or? ==> 0 < OpLevel(src, p) < 3
    ensures IsArithmetic(p) ==> OpLevel(src, p) > 8
  {
  }

  /** What a term shows: itself if it is a binary expression, and at most a sign otherwise. */
  function Shown(src: Source, e: Expr): nat {
    if e.BinaryExpr? then OpLevel(src, e.op) else SIGN_LEVEL
  }

  lemma TermKinds(e: Expr)
    requires Term(e) && e.BinaryExpr?
    ensures IsArithmetic(e.op)
  {
  }

  lemma {:induction false} TermReads(src: Source, e: Expr)
    requires Term(e)
    ensures Readable(src, e) && ShownLeft(src, e) >= Shown(src, e) && ShownRight(src, e) >= Shown(src, e)
    decreases e, 1
  {
    match e {
      case BinaryExpr(op, l, r) => TermBinary(src, op, l, r);
      case NegativeExpr(a) => TermReads(src, a);
      case _ =>
    }
  }

  lemma {:induction false} TermBinary(src: Source, op: Operator, l: Expr, r: Expr)
    requires IsArithmetic(op) && Term(l) && Term(r) && RightApart(op, r)
    ensures var e := BinaryExpr(op, l, r);
      Readable(src, e) && ShownLeft(src, e) >= Shown(src, e) && ShownRight(src, e) >= Shown(src, e)
    decreases BinaryExpr(op, l, r), 0
  {
    hide Term, OpLevel, Precedence, IsArithmetic, Readable, ShownLeft, ShownRight;
    BinaryShown(src, op, l, r);
    SameOrder(src, op, op);
    TermReads(src, l);
    TermReads(src, r);
    if l.BinaryExpr? {
      TermKinds(l);
      SameOrder(src, op, l.op);
    }
    if r.BinaryExpr? {
      TermKinds(r);
      SameOrder(src, op, r.op);
    }
  }

  /** What a condition shows on its left and on its right. */
  function LeftOf(src: Source, e: Expr): nat {
    if e.BinaryExpr? then OpLevel(src, e.op) else 4
  }

  function RightOf(src: Source, e: Expr): nat {
    if e.BinaryExpr? then Min(OpLevel(src, e.op), 3) else 3
  }

  lemma ConditionKinds(e: Expr)
    requires Condition(e) && e.BinaryExpr?
    ensures e.op.And? || e.op.Or? || IsComparison(e.op)
  {
  }

  lemma {:induction false} ConditionReads(src: Source, e: Expr)
    requires Condition(e)
    ensures Readable(src, e) && ShownLeft(src, e) >= Min(LeftOf(src, e), 4) && ShownRight(src, e) >= RightOf(src, e)
    decreases e, 1
  {
    hide Term, OpLevel;
    match e {
      case BinaryExpr(op, l, r) =>
        if IsComparison(op) {
          ComparisonReads(src, op, l, r);
        } else {
          BothRead(src, op, l, r);
        }
      case InListExpr(_, a, list) =>
        PlainReads(src, a);
        forall x | x in list ensures Readable(src, x) { TermReads(src, x); }
      case NotExpr(a) => PlainReads(src, a);
      case IsExpr(_, a) => PlainReads(src, a);
      case _ => PlainReads(src, e);
    }
  }

  lemma PlainReads(src: Source, e: Expr)
    requires Plainly(e)
    ensures Readable(src, e) && ShownLeft(src, e) >= SIGN_LEVEL && ShownRight(src, e) >= SIGN_LEVEL
  {
    TermReads(src, e);
  }

  lemma ComparisonReads(src: Source, op: Operator, l: Expr, r: Expr)
    requires IsComparison(op) && Term(l) && Term(r)
    ensures var e := BinaryExpr(op, l, r); Readable(src, e) && ShownLeft(src, e) >= 4 && ShownRight(src, e) >= 4
  {
    hide Term, IsArithmetic, Precedence, Readable, ShownLeft, ShownRight;
    BinaryShown(src, op, l, r);
    TermReads(src, l);
    TermReads(src, r);
    if l.BinaryExpr? {
      TermKinds(l);
      SameOrder(src, l.op, l.op);
    }
    if r.BinaryExpr? {
      TermKinds(r);
      SameOrder(src, r.op, r.op);
    }
  }

  lemma {:induction false} BothRead(src: Source, op: Operator, l: Expr, r: Expr)
    requires (op.And? || op.Or?) && Condition(l) && Condition(r) && RightApart(op, r)
    ensures var e := BinaryExpr(op, l, r);
      Readable(src, e) && ShownLeft(src, e) >= Min(LeftOf(src, e), 4) && ShownRight(src, e) >= RightOf(src, e)
    decreases BinaryExpr(op, l, r), 0
  {
    hide Condition, OpLevel, Precedence, IsComparison, Readable, ShownLeft, ShownRight;
    BinaryShown(src, op, l, r);
    ConditionReads(src, l);
    ConditionReads(src, r);
    SameOrder(src, op, op);
    if l.BinaryExpr? {
      ConditionKinds(l);
      SameOrder(src, op, l.op);
    }
    if r.BinaryExpr? {
      ConditionKinds(r);
      SameOrder(src, op, r.op);
    }
  }

  /** Conditions always read back, on every source. */
  lemma ConditionRoundTrip(src: Source, e: Expr)
    requires Shippable(src, e) && Condition(e) && Legible(src, e)
    ensures ReadsBackAs(src, e)
  {
    hide ReadsBackAs, Readable, Condition, Legible;
    ConditionReads(src, e);
    RoundTrip(src, e);
  }

  /** A right operand with the operator's own precedence is regrouped, and the negation of a conjunction
      only applies to its first part. */
  lemma Misread(src: Source, a: Expr, b: Expr, c: Expr)
    requires Shippable(src, a) && Shippable(src, b) && Shippable(src, c)
    ensures var e := BinaryExpr(Minus, a, BinaryExpr(Minus, b, c)); !ReadsBackAs(src, e)
    ensures var e := NotExpr(BinaryExpr(And, a, b)); !ReadsBackAs(src, e)
  {
    hide ReadsBackAs, OpLevel, Legible, ShownLeft, ShownRight;
    BinaryShown(src, Minus, b, c);
    BinaryShown(src, Minus, a, BinaryExpr(Minus, b, c));
    BinaryShown(src, And, a, b);
    SameOrder(src, And, And);
    RoundTrip(src, BinaryExpr(Minus, a, BinaryExpr(Minus, b, c)));
    RoundTrip(src, NotExpr(BinaryExpr(And, a, b)));
  }

  /** A comparison with a text that has a backslash where MySQL takes it for an escape does not read back
      there, and does on the other sources. */
  lemma Backslash(src: Source, name: string, s: string)
    requires !IsHarmless(s)
    ensures var e := BinaryExpr(Eq, Column(name), Literal(Utf8(s)));
      Shippable(src, e) && (ReadsBackAs(src, e) <==> src != MySQL)
  {
    hide ReadsBackAs, IsHarmless, Readable, Legible, Shippable;
    ComparedText(src, name, s);
    RoundTrip(src, BinaryExpr(Eq, Column(name), Literal(Utf8(s))));
  }

  lemma ComparedText(src: Source, name: string, s: string)
    ensures var e := BinaryExpr(Eq, Column(name), Literal(Utf8(s)));
      Shippable(src, e) && Readable(src, e) && (Legible(src, e) <==> (src == MySQL ==> IsHarmless(s)))
  {
    hide IsHarmless, Quote;
    var l, r := Column(name), Literal(Utf8(s));
    assert Shippable(src, l) && Shippable(src, r) && Readable(src, l) && Readable(src, r);
    assert Legible(src, l) && (Legible(src, r) <==> LegibleLiteral(src, Utf8(s)));
  }
}
