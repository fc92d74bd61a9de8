/** SQL filter expressions as token sequences: syntax trees with explicit parentheses, and a
    left-associative operator-precedence parser for them. */
module SqlTree {
  import opened Basics

  datatype Source = Postgres | SQLite | MySQL

  datatype Operator =
    | Or | And
    | Eq | NotEq | Lt | LtEq | Gt | GtEq
    | Plus | Minus | Multiply | Divide | Modulo
    | RegexMatch | RegexIMatch | RegexNotMatch | RegexNotIMatch
    | LikeMatch | ILikeMatch | NotLikeMatch | NotILikeMatch
    | IsDistinctFrom | IsNotDistinctFrom
    | BitwiseAnd | BitwiseOr | BitwiseXor | BitwiseShiftRight | BitwiseShiftLeft
    | StringConcat | AtArrow | ArrowAt

  datatype Test = Null | NotNull | True | False | NotTrue | NotFalse

  datatype Token =
    | Quoted(text: string)
    | Text(text: string)
    | Plain(word: string)
    | Op(op: Operator)
    | NOT
    | IS(test: Test)
    | IN(negated: bool)
    | LParen | RParen | Comma

  type Sql = seq<Token>

  datatype Tree =
    | Leaf(tok: Token)
    | Binary(op: Operator, left: Tree, right: Tree)
    | Not(arg: Tree)
    | Negative(arg: Tree)
    | Is(test: Test, arg: Tree)
    | InList(negated: bool, arg: Tree, list: seq<Tree>)
    | Paren(arg: Tree)

  predicate IsLeaf(tok: Token) {
    tok.Quoted? || tok.Text? || tok.Plain?
  }

  // ---------------------------------------------------------------------------------------------
  // Levels
  // ---------------------------------------------------------------------------------------------

  const NOT_LEVEL := 3
  const SIGN_LEVEL := 12
  const TOP := 13

  /** How tightly a remote database binds a binary operator as it is printed, by its documentation; zero
      if the database has no such operator, or reads it as another one. */
  function OpLevel(src: Source, op: Operator): (n: nat)
    ensures n < TOP && n != NOT_LEVEL && n != SIGN_LEVEL
  {
    match op
    case Or => 1
    case And => 2
    case Eq | NotEq => 5
    case Lt | LtEq | Gt | GtEq => if src == SQLite then 6 else 5
    case Plus | Minus => 9
    case Multiply | Divide | Modulo => 10
    case IsDistinctFrom | IsNotDistinctFrom => if src == Postgres then 4 else if src == SQLite then 5 else 0
    case RegexMatch | RegexNotMatch => if src == Postgres then 7 else if src == MySQL then 5 else 0
    case BitwiseAnd => if src == SQLite then 8 else 7
    case BitwiseOr => if src == Postgres then 7 else if src == SQLite then 8 else 6
    case BitwiseShiftRight | BitwiseShiftLeft => if src == Postgres then 7 else 8
    case BitwiseXor => if src == MySQL then 11 else 0
    case StringConcat => if src == Postgres then 7 else if src == SQLite then 11 else 0
    case _ => if src == Postgres then 7 else 0
  }

  /** What a source puts around identifiers. */
  function NameQuote(src: Source): char {
    match src
    case Postgres => '"'
    case SQLite => '"'
    case MySQL => '`'
  }

  /** Postgres binds IS more loosely than comparisons and IN more tightly; the others treat them alike. */
  function IsLevel(src: Source): (n: nat)
    ensures 0 < n < TOP
  {
    if src == Postgres then 4 else 5
  }

  function InLevel(src: Source): (n: nat)
    ensures 0 < n < TOP
  {
    if src == Postgres then 6 else 5
  }

  /** Postgres does not associate IS, comparisons and IN. */
  predicate NonAssociative(src: Source, level: nat) {
    src == Postgres && 4 <= level <= 6
  }

  /** An operator can follow an expression whose loosest operator on that side is at the given level. */
  predicate Follows(src: Source, level: nat, edge: nat) {
    if NonAssociative(src, level) then level < edge else level <= edge
  }

  /** The loosest operator that could still take over what precedes the expression. */
  function LeftEdge(src: Source, t: Tree): nat {
    match t
    case Binary(op, l, _) => Min(OpLevel(src, op), LeftEdge(src, l))
    case Is(_, a) => Min(IsLevel(src), LeftEdge(src, a))
    case InList(_, a, _) => Min(InLevel(src), LeftEdge(src, a))
    case _ => TOP
  }

  /** The loosest operator that could still take over what follows the expression. To SQLite, IS is a
      binary operator with an operand on its right. */
  function RightEdge(src: Source, t: Tree): nat {
    match t
    case Binary(op, _, r) => Min(OpLevel(src, op), RightEdge(src, r))
    case Not(a) => Min(NOT_LEVEL, RightEdge(src, a))
    case Negative(a) => Min(SIGN_LEVEL, RightEdge(src, a))
    case Is(_, _) => if src == SQLite then IsLevel(src) else TOP
    case _ => TOP
  }

  /** A tree that reads back as it is: every operator is known to the source, no operand has an operator
      at its edge that binds more loosely, nor on the right one that binds equally. */
  predicate Canonical(src: Source, t: Tree) {
    match t
    case Leaf(tok) => IsLeaf(tok)
    case Binary(op, l, r) =>
      && Canonical(src, l) && Canonical(src, r) && OpLevel(src, op) > 0
      && Follows(src, OpLevel(src, op), RightEdge(src, l)) && OpLevel(src, op) < LeftEdge(src, r)
    case Not(a) => Canonical(src, a) && NOT_LEVEL <= LeftEdge(src, a)
    case Negative(a) => Canonical(src, a) && SIGN_LEVEL <= LeftEdge(src, a)
    case Is(_, a) => Canonical(src, a) && Follows(src, IsLevel(src), RightEdge(src, a))
    case InList(_, a, list) =>
      && Canonical(src, a) && Follows(src, InLevel(src), RightEdge(src, a))
      && list != [] && forall x :: x in list ==> Canonical(src, x)
    case Paren(a) => Canonical(src, a)
  }

  function Flat(t: Tree): (w: Sql)
    ensures w != []
  {
    match t
    case Leaf(tok) => [tok]
    case Binary(op, l, r) => Flat(l) + [Op(op)] + Flat(r)
    case Not(a) => [NOT] + Flat(a)
    case Negative(a) => [Op(Minus)] + Flat(a)
    case Is(test, a) => Flat(a) + [IS(test)]
    case InList(negated, a, list) => Flat(a) + [IN(negated), LParen] + FlatList(list) + [RParen]
    case Paren(a) => [LParen] + Flat(a) + [RParen]
  }

  function FlatList(list: seq<Tree>): Sql {
    if list == [] then []
    else if |list| == 1 then Flat(list[0])
    else Flat(list[0]) + [Comma] + FlatList(list[1..])
  }

  // ---------------------------------------------------------------------------------------------
  // The parser
  // ---------------------------------------------------------------------------------------------

  datatype Parsed<T> = NoParse | Parsed(value: T, rest: Sql)

  /** The level of the operator a token sequence starts with, or zero. */
  function Next(src: Source, w: Sql): nat {
    if w == [] then 0
    else
      match w[0]
      case Op(op) => OpLevel(src, op)
      case IS(_) => IsLevel(src)
      case IN(_) => InLevel(src)
      case _ => 0
  }

  /** An expression of operators that bind at least as tightly as `min`. */
  function Parse(src: Source, min: nat, w: Sql): (r: Parsed<Tree>)
    ensures r.Parsed? ==> |r.rest| < |w|
    decreases |w|, 1
  {
    var p := Prefix(src, w);
    if p.NoParse? then NoParse else Loop(src, min, p.value, p.rest)
  }

  function Prefix(src: Source, w: Sql): (r: Parsed<Tree>)
    ensures r.Parsed? ==> |r.rest| < |w|
    decreases |w|, 0
  {
    if w == [] then NoParse
    else if IsLeaf(w[0]) then Parsed(Leaf(w[0]), w[1..])
    else if w[0] == NOT then
      var p := Parse(src, NOT_LEVEL, w[1..]);
      if p.NoParse? then NoParse else Parsed(Not(p.value), p.rest)
    else if w[0] == Op(Minus) then
      var p := Parse(src, SIGN_LEVEL, w[1..]);
      if p.NoParse? then NoParse else Parsed(Negative(p.value), p.rest)
    else if w[0] == LParen then
      var p := Parse(src, 0, w[1..]);
      if p.NoParse? || p.rest == [] || p.rest[0] != RParen then NoParse else Parsed(Paren(p.value), p.rest[1..])
    else NoParse
  }

  function Loop(src: Source, min: nat, t: Tree, w: Sql): (r: Parsed<Tree>)
    ensures r.Parsed? ==> |r.rest| <= |w|
    decreases |w|, 2
  {
    if Next(src, w) == 0 || Next(src, w) < min then Parsed(t, w)
    else if !Follows(src, Next(src, w), RightEdge(src, t)) then NoParse
    else
      match w[0]
      case Op(op) =>
        var p := Parse(src, OpLevel(src, op) + 1, w[1..]);
        if p.NoParse? then NoParse else Loop(src, min, Binary(op, t, p.value), p.rest)
      case IS(test) => Loop(src, min, Is(test, t), w[1..])
      case IN(negated) =>
        if |w| < 2 || w[1] != LParen then NoParse
        else
          var p := ParseList(src, w[2..]);
          if p.NoParse? || p.rest == [] || p.rest[0] != RParen then NoParse
          else Loop(src, min, InList(negated, t, p.value), p.rest[1..])
      case _ => Parsed(t, w)
  }

  function ParseList(src: Source, w: Sql): (r: Parsed<seq<Tree>>)
    ensures r.Parsed? ==> |r.rest| < |w|
    decreases |w|, 3
  {
    var p := Parse(src, 0, w);
    if p.NoParse? then NoParse
    else if p.rest != [] && p.rest[0] == Comma then
      var q := ParseList(src, p.rest[1..]);
      if q.NoParse? then NoParse else Parsed([p.value] + q.value, q.rest)
    else Parsed([p.value], p.rest)
  }

  /** The whole token sequence as one expression. */
  function ParseAll(src: Source, w: Sql): Parsed<Tree> {
    var p := Parse(src, 0, w);
    if p.Parsed? && p.rest == [] then p else NoParse
  }

  // ---------------------------------------------------------------------------------------------
  // Completeness: a canonical tree reads back
  // ---------------------------------------------------------------------------------------------

  lemma LoopStops(src: Source, min: nat, t: Tree, w: Sql)
    requires Next(src, w) == 0 || Next(src, w) < min
    ensures Loop(src, min, t, w) == Parsed(t, w)
  {
  }

  lemma LoopOp(src: Source, min: nat, t: Tree, op: Operator, r: Tree, w: Sql, rest: Sql)
    requires min <= OpLevel(src, op) && Follows(src, OpLevel(src, op), RightEdge(src, t)) && OpLevel(src, op) > 0
    requires Parse(src, OpLevel(src, op) + 1, w) == Parsed(r, rest)
    ensures Loop(src, min, t, [Op(op)] + w) == Loop(src, min, Binary(op, t, r), rest)
  {
    hide Parse, OpLevel, RightEdge, Follows;
    assert ([Op(op)] + w)[1..] == w;
  }

  lemma LoopIs(src: Source, min: nat, t: Tree, test: Test, rest: Sql)
    requires min <= IsLevel(src) && Follows(src, IsLevel(src), RightEdge(src, t))
    ensures Loop(src, min, t, [IS(test)] + rest) == Loop(src, min, Is(test, t), rest)
  {
    assert ([IS(test)] + rest)[1..] == rest;
  }

  lemma LoopIn(src: Source, min: nat, t: Tree, negated: bool, list: seq<Tree>, w: Sql, rest: Sql)
    requires min <= InLevel(src) && Follows(src, InLevel(src), RightEdge(src, t))
    requires ParseList(src, w) == Parsed(list, [RParen] + rest)
    ensures Loop(src, min, t, [IN(negated), LParen] + w) == Loop(src, min, InList(negated, t, list), rest)
  {
    hide ParseList;
    assert ([IN(negated), LParen] + w)[2..] == w;
    assert ([RParen] + rest)[1..] == rest;
  }

  lemma ParseNot(src: Source, min: nat, a: Tree, w: Sql, rest: Sql)
    requires Parse(src, NOT_LEVEL, w) == Parsed(a, rest)
    ensures Parse(src, min, [NOT] + w) == Loop(src, min, Not(a), rest)
  {
    hide Loop;
    assert ([NOT] + w)[1..] == w;
  }

  lemma ParseNegative(src: Source, min: nat, a: Tree, w: Sql, rest: Sql)
    requires Parse(src, SIGN_LEVEL, w) == Parsed(a, rest)
    ensures Parse(src, min, [Op(Minus)] + w) == Loop(src, min, Negative(a), rest)
  {
    hide Loop;
    assert ([Op(Minus)] + w)[1..] == w;
  }

  lemma ParseParen(src: Source, min: nat, a: Tree, w: Sql, rest: Sql)
    requires Parse(src, 0, w) == Parsed(a, [RParen] + rest)
    ensures Parse(src, min, [LParen] + w) == Loop(src, min, Paren(a), rest)
  {
    hide Loop;
    assert ([LParen] + w)[1..] == w && ([RParen] + rest)[1..] == rest;
  }

  lemma ParseLeaf(src: Source, min: nat, tok: Token, rest: Sql)
    requires IsLeaf(tok)
    ensures Parse(src, min, [tok] + rest) == Loop(src, min, Leaf(tok), rest)
  {
    hide Loop;
    assert ([tok] + rest)[1..] == rest;
  }

  lemma ListOne(src: Source, t: Tree, w: Sql, rest: Sql)
    requires Parse(src, 0, w) == Parsed(t, rest) && (rest != [] ==> rest[0] != Comma)
    ensures ParseList(src, w) == Parsed([t], rest)
  {
    hide Parse;
  }

  lemma ListMore(src: Source, t: Tree, list: seq<Tree>, w: Sql, w': Sql, rest: Sql)
    requires Parse(src, 0, w) == Parsed(t, [Comma] + w') && ParseList(src, w') == Parsed(list, rest)
    ensures ParseList(src, w) == Parsed([t] + list, rest)
  {
    hide Parse;
    assert ([Comma] + w')[1..] == w';
  }

  lemma NextLevel(src: Source, w: Sql)
    ensures Next(src, w) < TOP && Next(src, w) != NOT_LEVEL && Next(src, w) != SIGN_LEVEL
  {
  }

  /** Reading a canonical tree leaves the parser in its loop, with the tree as what it has read. */
  lemma {:induction false} Reads(src: Source, min: nat, t: Tree, rest: Sql)
    requires Canonical(src, t) && min <= LeftEdge(src, t) && Follows(src, Next(src, rest), RightEdge(src, t))
    ensures Parse(src, min, Flat(t) + rest) == Loop(src, min, t, rest)
    decreases t, 2
  {
    hide Parse, Loop, LeftEdge, RightEdge, Next, OpLevel;
    match t {
      case Leaf(tok) => ParseLeaf(src, min, tok, rest);
      case Binary(_, _, _) => ReadsBinary(src, min, t, rest);
      case Not(_) => ReadsNot(src, min, t, rest);
      case Negative(_) => ReadsNegative(src, min, t, rest);
      case Is(_, _) => ReadsIs(src, min, t, rest);
      case InList(_, _, _) => ReadsIn(src, min, t, rest);
      case Paren(_) => ReadsParen(src, min, t, rest);
    }
  }

  lemma {:induction false} ReadsBinary(src: Source, min: nat, t: Tree, rest: Sql)
    requires t.Binary? && Canonical(src, t) && min <= LeftEdge(src, t)
    requires Follows(src, Next(src, rest), RightEdge(src, t))
    ensures Parse(src, min, Flat(t) + rest) == Loop(src, min, t, rest)
    decreases t, 1
  {
    hide Parse, Loop, OpLevel, IsLevel, InLevel;
    var op, l, r := t.op, t.left, t.right;
    assert Flat(t) + rest == Flat(l) + ([Op(op)] + (Flat(r) + rest));
    Reads(src, min, l, [Op(op)] + (Flat(r) + rest));
    ReadsWhole(src, OpLevel(src, op) + 1, r, rest);
    LoopOp(src, min, l, op, r, Flat(r) + rest, rest);
  }

  lemma {:induction false} ReadsNot(src: Source, min: nat, t: Tree, rest: Sql)
    requires t.Not? && Canonical(src, t) && Follows(src, Next(src, rest), RightEdge(src, t))
    ensures Parse(src, min, Flat(t) + rest) == Loop(src, min, t, rest)
    decreases t, 1
  {
    hide Parse, Loop, OpLevel, Next;
    NextLevel(src, rest);
    assert Flat(t) + rest == [NOT] + (Flat(t.arg) + rest);
    ReadsWhole(src, NOT_LEVEL, t.arg, rest);
    ParseNot(src, min, t.arg, Flat(t.arg) + rest, rest);
  }

  lemma {:induction false} ReadsNegative(src: Source, min: nat, t: Tree, rest: Sql)
    requires t.Negative? && Canonical(src, t) && Follows(src, Next(src, rest), RightEdge(src, t))
    ensures Parse(src, min, Flat(t) + rest) == Loop(src, min, t, rest)
    decreases t, 1
  {
    hide Parse, Loop, OpLevel, Next;
    NextLevel(src, rest);
    assert Flat(t) + rest == [Op(Minus)] + (Flat(t.arg) + rest);
    ReadsWhole(src, SIGN_LEVEL, t.arg, rest);
    ParseNegative(src, min, t.arg, Flat(t.arg) + rest, rest);
  }

  lemma {:induction false} ReadsIs(src: Source, min: nat, t: Tree, rest: Sql)
    requires t.Is? && Canonical(src, t) && min <= LeftEdge(src, t)
    ensures Parse(src, min, Flat(t) + rest) == Loop(src, min, t, rest)
    decreases t, 1
  {
    hide Parse, Loop, OpLevel, IsLevel;
    assert Flat(t) + rest == Flat(t.arg) + ([IS(t.test)] + rest);
    Reads(src, min, t.arg, [IS(t.test)] + rest);
    LoopIs(src, min, t.arg, t.test, rest);
  }

  lemma {:induction false} ReadsIn(src: Source, min: nat, t: Tree, rest: Sql)
    requires t.InList? && Canonical(src, t) && min <= LeftEdge(src, t)
    ensures Parse(src, min, Flat(t) + rest) == Loop(src, min, t, rest)
    decreases t, 1
  {
    hide Parse, Loop, ParseList, OpLevel, InLevel;
    var w := FlatList(t.list) + ([RParen] + rest);
    assert Flat(t) + rest == Flat(t.arg) + ([IN(t.negated), LParen] + w);
    Reads(src, min, t.arg, [IN(t.negated), LParen] + w);
    ReadsList(src, t.list, [RParen] + rest);
    LoopIn(src, min, t.arg, t.negated, t.list, w, rest);
  }

  lemma {:induction false} ReadsParen(src: Source, min: nat, t: Tree, rest: Sql)
    requires t.Paren? && Canonical(src, t)
    ensures Parse(src, min, Flat(t) + rest) == Loop(src, min, t, rest)
    decreases t, 1
  {
    hide Parse, Loop, OpLevel;
    assert Flat(t) + rest == [LParen] + (Flat(t.arg) + ([RParen] + rest));
    ReadsWhole(src, 0, t.arg, [RParen] + rest);
    ParseParen(src, min, t.arg, Flat(t.arg) + ([RParen] + rest), rest);
  }

  /** Where the next operator binds too loosely, the parser stops after the tree. */
  lemma {:induction false} ReadsWhole(src: Source, min: nat, t: Tree, rest: Sql)
    requires Canonical(src, t) && min <= LeftEdge(src, t) && Follows(src, Next(src, rest), RightEdge(src, t))
    requires Next(src, rest) == 0 || Next(src, rest) < min
    ensures Parse(src, min, Flat(t) + rest) == Parsed(t, rest)
    decreases t, 3
  {
    hide *;
    Reads(src, min, t, rest);
    LoopStops(src, min, t, rest);
  }

  lemma {:induction false} ReadsList(src: Source, list: seq<Tree>, rest: Sql)
    requires list != [] && rest != [] && rest[0] == RParen
    requires forall x :: x in list ==> Canonical(src, x)
    ensures ParseList(src, FlatList(list) + rest) == Parsed(list, rest)
    decreases list, 0
  {
    hide Parse, Loop, ParseList, Canonical, Flat, OpLevel;
    if |list| == 1 {
      ReadsWhole(src, 0, list[0], rest);
      ListOne(src, list[0], Flat(list[0]) + rest, rest);
      assert list == [list[0]];
    } else {
      var w := FlatList(list[1..]) + rest;
      assert FlatList(list) + rest == Flat(list[0]) + ([Comma] + w);
      ReadsWhole(src, 0, list[0], [Comma] + w);
      ReadsList(src, list[1..], rest);
      ListMore(src, list[0], list[1..], Flat(list[0]) + ([Comma] + w), w, rest);
      assert list == [list[0]] + list[1..];
    }
  }

  lemma ReadsBack(src: Source, t: Tree)
    requires Canonical(src, t)
    ensures ParseAll(src, Flat(t)) == Parsed(t, [])
  {
    hide Parse, Canonical, Flat;
    ReadsWhole(src, 0, t, []);
    assert Flat(t) + [] == Flat(t);
  }

  // ---------------------------------------------------------------------------------------------
  // Soundness: what is read is canonical, and spells the tokens
  // ---------------------------------------------------------------------------------------------

  ghost predicate Good(src: Source, min: nat, t: Tree) {
    Canonical(src, t) && min <= LeftEdge(src, t)
  }

  ghost predicate Stops(src: Source, min: nat, rest: Sql) {
    Next(src, rest) == 0 || Next(src, rest) < min
  }

  lemma {:induction false} ParseSound(src: Source, min: nat, w: Sql)
    requires min <= TOP && Parse(src, min, w).Parsed?
    ensures var r := Parse(src, min, w);
      Good(src, min, r.value) && Stops(src, min, r.rest) && w == Flat(r.value) + r.rest
    decreases |w|, 1
  {
    hide Good, Stops, Flat, Loop, Prefix;
    PrefixSound(src, min, w);
    var p := Prefix(src, w);
    LoopSound(src, min, p.value, p.rest);
  }

  lemma GoodPrefixed(src: Source, min: nat, a: Tree)
    requires min <= TOP
    ensures Good(src, NOT_LEVEL, a) ==> Good(src, min, Not(a))
    ensures Good(src, SIGN_LEVEL, a) ==> Good(src, min, Negative(a))
    ensures Good(src, 0, a) ==> Good(src, min, Paren(a))
  {
    hide OpLevel, Follows, RightEdge;
  }

  lemma GoodLeaf(src: Source, min: nat, tok: Token)
    requires min <= TOP && IsLeaf(tok)
    ensures Good(src, min, Leaf(tok))
  {
  }

  lemma {:induction false} PrefixSound(src: Source, min: nat, w: Sql)
    requires min <= TOP && Prefix(src, w).Parsed?
    ensures var r := Prefix(src, w); Good(src, min, r.value) && w == Flat(r.value) + r.rest
    decreases |w|, 0
  {
    hide Parse, Good, Stops, Flat, Loop, Prefix, IsLeaf;
    PrefixShape(src, w);
    assert w == [w[0]] + w[1..];
    if IsLeaf(w[0]) {
      GoodLeaf(src, min, w[0]);
      LeafSpelled(w[0]);
    } else {
      var p := Parse(src, PrefixLevel(w[0]), w[1..]);
      ParseSound(src, PrefixLevel(w[0]), w[1..]);
      GoodPrefixed(src, min, p.value);
      PrefixSpelled(p.value, p.rest);
    }
  }

  function PrefixLevel(tok: Token): nat {
    if tok == NOT then NOT_LEVEL else if tok == Op(Minus) then SIGN_LEVEL else 0
  }

  lemma PrefixShape(src: Source, w: Sql)
    requires Prefix(src, w).Parsed?
    ensures w != []
    ensures IsLeaf(w[0]) ==> Prefix(src, w) == Parsed(Leaf(w[0]), w[1..])
    ensures !IsLeaf(w[0]) ==>
      var p := Parse(src, PrefixLevel(w[0]), w[1..]);
      && p.Parsed?
      && (|| (w[0] == NOT && Prefix(src, w) == Parsed(Not(p.value), p.rest))
          || (w[0] == Op(Minus) && Prefix(src, w) == Parsed(Negative(p.value), p.rest))
          || (w[0] == LParen && p.rest != [] && p.rest[0] == RParen
              && Prefix(src, w) == Parsed(Paren(p.value), p.rest[1..])))
  {
    hide Parse;
  }

  lemma LeafSpelled(tok: Token)
    ensures Flat(Leaf(tok)) == [tok]
  {
  }

  lemma PrefixSpelled(a: Tree, rest: Sql)
    ensures Flat(Not(a)) + rest == [NOT] + (Flat(a) + rest)
    ensures Flat(Negative(a)) + rest == [Op(Minus)] + (Flat(a) + rest)
    ensures rest != [] && rest[0] == RParen ==> Flat(Paren(a)) + rest[1..] == [LParen] + (Flat(a) + rest)
  {
    assert rest != [] && rest[0] == RParen ==> rest == [RParen] + rest[1..];
  }

  lemma {:induction false} LoopSound(src: Source, min: nat, t: Tree, w: Sql)
    requires min <= TOP && Good(src, min, t) && Loop(src, min, t, w).Parsed?
    ensures var r := Loop(src, min, t, w);
      Good(src, min, r.value) && Stops(src, min, r.rest) && Flat(t) + w == Flat(r.value) + r.rest
    decreases |w|, 2
  {
    hide Good, OpLevel, Follows, RightEdge, Flat;
    if !(Next(src, w) == 0 || Next(src, w) < min) {
      match w[0] {
        case Op(op) => LoopOpSound(src, min, t, op, w);
        case IS(test) => LoopIsSound(src, min, t, test, w);
        case IN(negated) => LoopInSound(src, min, t, negated, w);
      }
    }
  }

  lemma GoodBinary(src: Source, min: nat, t: Tree, op: Operator, r: Tree)
    requires Good(src, min, t) && Good(src, OpLevel(src, op) + 1, r)
    requires min <= OpLevel(src, op) && 0 < OpLevel(src, op) && Follows(src, OpLevel(src, op), RightEdge(src, t))
    ensures Good(src, min, Binary(op, t, r))
  {
    hide OpLevel, Follows, RightEdge;
  }

  lemma LoopOpParsed(src: Source, min: nat, t: Tree, op: Operator, w: Sql)
    requires Loop(src, min, t, w).Parsed? && w != [] && w[0] == Op(op) && min <= OpLevel(src, op)
    requires OpLevel(src, op) > 0
    ensures var p := Parse(src, OpLevel(src, op) + 1, w[1..]);
      && Follows(src, OpLevel(src, op), RightEdge(src, t))
      && p.Parsed? && Loop(src, min, t, w) == Loop(src, min, Binary(op, t, p.value), p.rest)
  {
    hide Parse, OpLevel, Follows, RightEdge;
  }

  lemma {:induction false} LoopOpSound(src: Source, min: nat, t: Tree, op: Operator, w: Sql)
    requires min <= TOP && Good(src, min, t) && Loop(src, min, t, w).Parsed?
    requires w != [] && w[0] == Op(op) && min <= OpLevel(src, op) && OpLevel(src, op) > 0
    ensures var r := Loop(src, min, t, w);
      Good(src, min, r.value) && Stops(src, min, r.rest) && Flat(t) + w == Flat(r.value) + r.rest
    decreases |w|, 1
  {
    hide Parse, OpLevel, Good, Stops, Loop, Follows, RightEdge;
    LoopOpParsed(src, min, t, op, w);
    var p := Parse(src, OpLevel(src, op) + 1, w[1..]);
    assert w == [Op(op)] + w[1..];
    ParseSound(src, OpLevel(src, op) + 1, w[1..]);
    GoodBinary(src, min, t, op, p.value);
    LoopSound(src, min, Binary(op, t, p.value), p.rest);
  }

  lemma LoopIsParsed(src: Source, min: nat, t: Tree, test: Test, w: Sql)
    requires Loop(src, min, t, w).Parsed? && w != [] && w[0] == IS(test) && min <= IsLevel(src)
    ensures Follows(src, IsLevel(src), RightEdge(src, t)) && Loop(src, min, t, w) == Loop(src, min, Is(test, t), w[1..])
  {
    hide IsLevel, Follows, RightEdge;
  }

  lemma {:induction false} LoopIsSound(src: Source, min: nat, t: Tree, test: Test, w: Sql)
    requires min <= TOP && Good(src, min, t) && Loop(src, min, t, w).Parsed?
    requires w != [] && w[0] == IS(test) && min <= IsLevel(src)
    ensures var r := Loop(src, min, t, w);
      Good(src, min, r.value) && Stops(src, min, r.rest) && Flat(t) + w == Flat(r.value) + r.rest
    decreases |w|, 1
  {
    hide Loop, Stops, IsLevel, Follows, RightEdge, OpLevel;
    LoopIsParsed(src, min, t, test, w);
    assert w == [IS(test)] + w[1..];
    LoopSound(src, min, Is(test, t), w[1..]);
  }

  lemma GoodIn(src: Source, min: nat, t: Tree, negated: bool, list: seq<Tree>)
    requires Good(src, min, t) && min <= InLevel(src) && Follows(src, InLevel(src), RightEdge(src, t))
    requires list != [] && forall x :: x in list ==> Canonical(src, x)
    ensures Good(src, min, InList(negated, t, list))
  {
    hide InLevel, Follows, RightEdge;
  }

  lemma {:induction false} LoopInSound(src: Source, min: nat, t: Tree, negated: bool, w: Sql)
    requires min <= TOP && Good(src, min, t) && Loop(src, min, t, w).Parsed?
    requires w != [] && w[0] == IN(negated) && min <= InLevel(src)
    ensures var r := Loop(src, min, t, w);
      Good(src, min, r.value) && Stops(src, min, r.rest) && Flat(t) + w == Flat(r.value) + r.rest
    decreases |w|, 1
  {
    hide ParseList, OpLevel, InLevel, Good, Stops, Canonical, Loop, Flat, FlatList, Follows, RightEdge;
    LoopInParsed(src, min, t, negated, w);
    var p := ParseList(src, w[2..]);
    assert w == [IN(negated), LParen] + w[2..] && p.rest == [RParen] + p.rest[1..];
    ListSound(src, w[2..]);
    GoodIn(src, min, t, negated, p.value);
    FlatIn(t, negated, p.value, p.rest[1..]);
    LoopSound(src, min, InList(negated, t, p.value), p.rest[1..]);
  }

  lemma FlatIn(t: Tree, negated: bool, list: seq<Tree>, rest: Sql)
    ensures Flat(InList(negated, t, list)) + rest
      == Flat(t) + ([IN(negated), LParen] + (FlatList(list) + ([RParen] + rest)))
  {
    hide FlatList;
    assert Flat(InList(negated, t, list)) == Flat(t) + [IN(negated), LParen] + FlatList(list) + [RParen];
  }

  lemma LoopInParsed(src: Source, min: nat, t: Tree, negated: bool, w: Sql)
    requires Loop(src, min, t, w).Parsed? && w != [] && w[0] == IN(negated) && min <= InLevel(src)
    ensures |w| >= 2 && w[1] == LParen && ParseList(src, w[2..]).Parsed?
    ensures Follows(src, InLevel(src), RightEdge(src, t))
    ensures var p := ParseList(src, w[2..]);
      && p.rest != [] && p.rest[0] == RParen
      && Loop(src, min, t, w) == Loop(src, min, InList(negated, t, p.value), p.rest[1..])
  {
    hide ParseList, InLevel, Follows, RightEdge;
  }

  lemma ListParsed(src: Source, w: Sql)
    requires ParseList(src, w).Parsed?
    ensures var p := Parse(src, 0, w);
      p.Parsed? &&
      if p.rest != [] && p.rest[0] == Comma then
        var q := ParseList(src, p.rest[1..]);
        q.Parsed? && ParseList(src, w) == Parsed([p.value] + q.value, q.rest)
      else ParseList(src, w) == Parsed([p.value], p.rest)
  {
    hide Parse;
  }

  lemma FlatListCons(t: Tree, list: seq<Tree>)
    ensures FlatList([t] + list) == if list == [] then Flat(t) else Flat(t) + [Comma] + FlatList(list)
  {
    hide Flat;
    assert ([t] + list)[1..] == list;
  }

  lemma {:induction false} ListSound(src: Source, w: Sql)
    requires ParseList(src, w).Parsed?
    ensures var r := ParseList(src, w);
      r.value != [] && (forall x :: x in r.value ==> Canonical(src, x)) && w == FlatList(r.value) + r.rest
    decreases |w|, 3
  {
    hide Parse, ParseList, Canonical, Flat, FlatList, Good, Stops;
    ListParsed(src, w);
    var p := Parse(src, 0, w);
    ParseSound(src, 0, w);
    GoodIsCanonical(src, 0, p.value);
    if p.rest != [] && p.rest[0] == Comma {
      var q := ParseList(src, p.rest[1..]);
      ListSound(src, p.rest[1..]);
      assert p.rest == [Comma] + p.rest[1..];
      FlatListCons(p.value, q.value);
    } else {
      FlatListCons(p.value, []);
      assert [p.value] + [] == [p.value];
    }
  }

  lemma GoodIsCanonical(src: Source, min: nat, t: Tree)
    requires Good(src, min, t)
    ensures Canonical(src, t)
  {
  }

  /** What the parser returns for a whole token sequence is the one canonical tree that spells it. */
  lemma ParsesExactly(src: Source, w: Sql, t: Tree)
    ensures ParseAll(src, w) == Parsed(t, []) <==> Canonical(src, t) && Flat(t) == w
  {
    hide Parse, Canonical, Flat;
    if Canonical(src, t) && Flat(t) == w {
      ReadsBack(src, t);
    }
    var r := Parse(src, 0, w);
    if r == Parsed(t, []) {
      ParseSound(src, 0, w);
      GoodIsCanonical(src, 0, t);
      assert Flat(t) + [] == Flat(t);
    }
  }
}
