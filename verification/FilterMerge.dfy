/** The filters of a scan are merged into one: how the remote source reads the result. */
module FilterMerge {
  import opened Basics
  import opened SqlTree
  import opened FilterPushdown
  import opened FilterRoundTrip

  predicate IsAnd(e: Expr) {
    e.BinaryExpr? && e.op == And
  }

  /** The operands of a nest of conjunctions, from left to right. */
  function Conjuncts(e: Expr): (r: seq<Expr>)
    ensures r != [] && forall x :: x in r ==> !IsAnd(x)
  {
    if IsAnd(e) then Conjuncts(e.left) + Conjuncts(e.right) else [e]
  }

  /** The same conjunction, grouped to the left. */
  function Regrouped(e: Expr): Expr {
    Conjunction(Conjuncts(e))
  }

  function AllConjuncts(filters: seq<Expr>): seq<Expr> {
    if filters == [] then [] else AllConjuncts(filters[..|filters| - 1]) + Conjuncts(filters[|filters| - 1])
  }

  lemma {:induction false} MergedConjuncts(filters: seq<Expr>)
    requires filters != []
    ensures Conjuncts(Conjunction(filters)) == AllConjuncts(filters)
  {
    hide Conjuncts;
    var n := |filters| - 1;
    if n == 0 {
      assert filters[..0] == [] && AllConjuncts([]) == [];
    } else {
      MergedConjuncts(filters[..n]);
      AndConjuncts(Conjunction(filters[..n]), filters[n]);
    }
  }

  lemma AndConjuncts(l: Expr, r: Expr)
    ensures Conjuncts(BinaryExpr(And, l, r)) == Conjuncts(l) + Conjuncts(r)
  {
  }

  lemma {:induction false} RegroupedConjuncts(list: seq<Expr>)
    requires list != [] && forall x :: x in list ==> !IsAnd(x)
    ensures Conjuncts(Conjunction(list)) == list
  {
    MergedConjuncts(list);
    Singles(list);
  }

  lemma {:induction false} Singles(list: seq<Expr>)
    requires forall x :: x in list ==> !IsAnd(x)
    ensures AllConjuncts(list) == list
  {
    if list != [] {
      var n := |list| - 1;
      Singles(list[..n]);
      assert !IsAnd(list[n]) && list == list[..n] + [list[n]];
    }
  }

  // ---------------------------------------------------------------------------------------------
  // What is printed
  // ---------------------------------------------------------------------------------------------

  predicate AllShippable(src: Source, list: seq<Expr>) {
    forall x :: x in list ==> Shippable(src, x)
  }

  function AndOperand(src: Source, e: Expr): Sql
    requires Shippable(src, e)
  {
    if NeedsParen(And, e) then [LParen] + Print(src, e) + [RParen] else Print(src, e)
  }

  /** The operands with AND between them. */
  function Anded(src: Source, list: seq<Expr>): Sql
    requires list != [] && AllShippable(src, list)
  {
    var n := |list| - 1;
    if n == 0 then AndOperand(src, list[0])
    else Anded(src, list[..n]) + [Op(And)] + AndOperand(src, list[n])
  }

  lemma {:induction false} AndedConcat(src: Source, a: seq<Expr>, b: seq<Expr>)
    requires a != [] && b != [] && AllShippable(src, a) && AllShippable(src, b)
    ensures AllShippable(src, a + b) && Anded(src, a + b) == Anded(src, a) + [Op(And)] + Anded(src, b)
    decreases |b|
  {
    hide AndOperand, Shippable, Anded;
    var n := |b| - 1;
    assert AllShippable(src, a + b);
    AndedNext(src, a + b);
    if n == 0 {
      assert (a + b)[..|a|] == a;
      assert b == [b[0]];
      AndedOne(src, b[0]);
    } else {
      AndedConcat(src, a, b[..n]);
      AndedNext(src, b);
      assert (a + b)[..|a| + n] == a + b[..n];
      var x, y, z := Anded(src, a), Anded(src, b[..n]), AndOperand(src, b[n]);
      assert x + [Op(And)] + y + [Op(And)] + z == x + [Op(And)] + (y + [Op(And)] + z);
    }
  }

  lemma AndedNext(src: Source, list: seq<Expr>)
    requires |list| > 1 && AllShippable(src, list)
    ensures var n := |list| - 1;
      Anded(src, list) == Anded(src, list[..n]) + [Op(And)] + AndOperand(src, list[n])
  {
    hide AndOperand, Shippable;
  }

  lemma AndedOne(src: Source, e: Expr)
    requires Shippable(src, e)
    ensures AllShippable(src, [e]) && Anded(src, [e]) == AndOperand(src, e)
  {
    hide AndOperand, Shippable;
  }

  lemma AndPrinted(src: Source, l: Expr, r: Expr)
    requires Shippable(src, l) && Shippable(src, r)
    ensures Shippable(src, BinaryExpr(And, l, r))
    ensures Print(src, BinaryExpr(And, l, r)) == AndOperand(src, l) + [Op(And)] + AndOperand(src, r)
  {
    hide ToTree, Shippable, NeedsParen;
    AndShippable(src, l, r);
    TreeOfBinary(src, And, l, r);
    var a := if NeedsParen(And, l) then Paren(ToTree(src, l)) else ToTree(src, l);
    var b := if NeedsParen(And, r) then Paren(ToTree(src, r)) else ToTree(src, r);
    assert Flat(Binary(And, a, b)) == Flat(a) + [Op(And)] + Flat(b);
    assert Flat(a) == AndOperand(src, l) && Flat(b) == AndOperand(src, r);
  }

  /** An operand of AND is printed as its own operands with AND between them. */
  lemma {:induction false} OperandPrinted(src: Source, e: Expr)
    requires Shippable(src, e)
    ensures AllShippable(src, Conjuncts(e)) && AndOperand(src, e) == Anded(src, Conjuncts(e))
    ensures IsAnd(e) ==> Print(src, e) == Anded(src, Conjuncts(e))
    decreases e
  {
    hide Print, Shippable, AndOperand, Anded;
    if IsAnd(e) {
      AndShippable(src, e.left, e.right);
      AndPrinted(src, e.left, e.right);
      OperandPrinted(src, e.left);
      OperandPrinted(src, e.right);
      AndConjuncts(e.left, e.right);
      AndedConcat(src, Conjuncts(e.left), Conjuncts(e.right));
      AndBare(src, e);
    } else {
      OneOperand(src, e);
    }
  }

  lemma AndBare(src: Source, e: Expr)
    requires IsAnd(e) && Shippable(src, e)
    ensures AndOperand(src, e) == Print(src, e)
  {
    hide Print;
  }

  lemma OneOperand(src: Source, e: Expr)
    requires !IsAnd(e) && Shippable(src, e)
    ensures Conjuncts(e) == [e] && AllShippable(src, [e]) && Anded(src, [e]) == AndOperand(src, e)
  {
    hide AndOperand, Shippable, Anded;
    AndedOne(src, e);
  }

  lemma ListShippable(src: Source, list: seq<Expr>)
    requires list != [] && AllShippable(src, list)
    ensures Shippable(src, Conjunction(list))
  {
    hide Shippable;
    ConjunctionShippable(src, list);
  }

  /** Regrouping does not change the SQL. */
  lemma RegroupedPrint(src: Source, e: Expr)
    requires Shippable(src, e)
    ensures Shippable(src, Regrouped(e)) && Print(src, Regrouped(e)) == Print(src, e)
  {
    hide Print, Shippable, Anded, AndOperand;
    OperandPrinted(src, e);
    if IsAnd(e) {
      var list := Conjuncts(e);
      ListShippable(src, list);
      RegroupedConjuncts(list);
      TwoConjuncts(e);
      OperandPrinted(src, Regrouped(e));
    }
  }

  lemma TwoConjuncts(e: Expr)
    requires IsAnd(e)
    ensures |Conjuncts(e)| >= 2 && IsAnd(Regrouped(e))
  {
    assert Conjuncts(e) == Conjuncts(e.left) + Conjuncts(e.right);
  }

  // ---------------------------------------------------------------------------------------------
  // What is readable
  // ---------------------------------------------------------------------------------------------

  predicate IsLoose(e: Expr) {
    e.BinaryExpr? && (e.op == And || e.op == Or)
  }

  predicate IsTight(src: Source, e: Expr) {
    ShownLeft(src, e) > OpLevel(src, And) && ShownRight(src, e) > OpLevel(src, And)
  }

  /** A readable expression that is neither a conjunction nor a disjunction shows no operator as loose as
      those. */
  lemma {:induction false} ShowsTight(src: Source, e: Expr)
    requires Readable(src, e) && !IsLoose(e)
    ensures IsTight(src, e)
    decreases e
  {
    hide Readable, IsTight, NeedsParen;
    match e {
      case BinaryExpr(op, l, r) =>
        BinaryReadable(src, op, l, r);
        if !NeedsParen(op, l) { ShowsTight(src, l); }
        if !NeedsParen(op, r) { ShowsTight(src, r); }
        TightBinary(src, op, l, r);
      case NotExpr(a) => UnaryReadable(src, e); ShowsTight(src, a); TightUnary(src, e);
      case IsExpr(_, a) => UnaryReadable(src, e); ShowsTight(src, a); TightUnary(src, e);
      case InListExpr(_, a, _) => UnaryReadable(src, e); ShowsTight(src, a); TightUnary(src, e);
      case _ => TightLeaf(src, e);
    }
  }

  lemma BinaryReadable(src: Source, op: Operator, l: Expr, r: Expr)
    requires Readable(src, BinaryExpr(op, l, r)) && op != And && op != Or
    ensures Readable(src, l) && Readable(src, r) && OpLevel(src, op) > 0
    ensures (!NeedsParen(op, l) ==> !IsLoose(l)) && (!NeedsParen(op, r) ==> !IsLoose(r))
  {
    hide NeedsParen, OpLevel;
    TighterThanAnd(src, op);
    LooseShows(src, l);
    LooseShows(src, r);
  }

  lemma TightBinary(src: Source, op: Operator, l: Expr, r: Expr)
    requires op != And && op != Or && OpLevel(src, op) > 0
    requires (!NeedsParen(op, l) ==> IsTight(src, l)) && (!NeedsParen(op, r) ==> IsTight(src, r))
    ensures IsTight(src, BinaryExpr(op, l, r))
  {
    hide NeedsParen, OpLevel;
    TighterThanAnd(src, op);
    AndIsLoose(src);
  }

  lemma UnaryReadable(src: Source, e: Expr)
    requires (e.NotExpr? || e.IsExpr? || e.InListExpr?) && Readable(src, e)
    ensures Readable(src, e.arg) && !IsLoose(e.arg)
  {
    hide NeedsParen, OpLevel;
    LooseShows(src, e.arg);
    AndIsLoose(src);
  }

  lemma TightUnary(src: Source, e: Expr)
    requires (e.NotExpr? || e.IsExpr? || e.InListExpr?) && IsTight(src, e.arg)
    ensures IsTight(src, e)
  {
    hide NeedsParen, OpLevel, IsLevel, InLevel;
    AndIsLoose(src);
  }

  lemma TightLeaf(src: Source, e: Expr)
    requires e.Column? || e.Literal? || e.NegativeExpr? || e.Unsupported?
    ensures IsTight(src, e)
  {
    hide NeedsParen, IsLexeme;
  }

  lemma AndIsLoose(src: Source)
    ensures OpLevel(src, And) < NOT_LEVEL < SIGN_LEVEL < TOP
    ensures OpLevel(src, And) < IsLevel(src) && OpLevel(src, And) < InLevel(src)
  {
  }

  lemma TighterThanAnd(src: Source, op: Operator)
    requires op != And && op != Or && OpLevel(src, op) > 0
    ensures OpLevel(src, op) > OpLevel(src, And)
  {
  }

  lemma LooseShows(src: Source, e: Expr)
    ensures IsLoose(e) ==>
      ShownLeft(src, e) <= OpLevel(src, And) && ShownRight(src, e) <= OpLevel(src, And)
  {
  }

  predicate AllReadable(src: Source, list: seq<Expr>) {
    forall x :: x in list ==> Readable(src, x)
  }

  /** What AND asks of an operand that is not a conjunction itself. */
  lemma OperandFits(src: Source, e: Expr)
    requires Readable(src, e) && !IsAnd(e)
    ensures NeedsParen(And, e) || (OpLevel(src, And) < ShownLeft(src, e) && OpLevel(src, And) < ShownRight(src, e))
  {
    hide Readable, ShownLeft, ShownRight, OpLevel;
    if !NeedsParen(And, e) {
      ShowsTight(src, e);
    }
  }

  lemma AndReadable(src: Source, l: Expr, r: Expr)
    ensures Readable(src, BinaryExpr(And, l, r)) <==>
      && Readable(src, l) && Readable(src, r)
      && (NeedsParen(And, l) || OpLevel(src, And) <= ShownRight(src, l))
      && (NeedsParen(And, r) || OpLevel(src, And) < ShownLeft(src, r))
    ensures ShownRight(src, BinaryExpr(And, l, r))
         == Min(OpLevel(src, And), if NeedsParen(And, r) then TOP else ShownRight(src, r))
  {
    hide NeedsParen, ShownLeft;
  }

  /** A conjunction grouped to the left is readable exactly when each operand is. */
  lemma {:induction false} ListReadable(src: Source, list: seq<Expr>)
    requires list != [] && forall x :: x in list ==> !IsAnd(x)
    ensures Readable(src, Conjunction(list)) <==> AllReadable(src, list)
    ensures |list| > 1 && AllReadable(src, list) ==> ShownRight(src, Conjunction(list)) == OpLevel(src, And)
  {
    hide Readable, ShownLeft, ShownRight, NeedsParen, OpLevel;
    var n := |list| - 1;
    assert list == list[..n] + [list[n]];
    if n > 0 {
      ListReadable(src, list[..n]);
      AndReadable(src, Conjunction(list[..n]), list[n]);
      if AllReadable(src, list) {
        OperandFits(src, list[n]);
        AndIsLoose(src);
        if n == 1 {
          OperandFits(src, list[0]);
        }
      }
    }
  }

  predicate AllLegible(src: Source, list: seq<Expr>) {
    forall x :: x in list ==> Legible(src, x)
  }

  lemma {:induction false} ListLegible(src: Source, list: seq<Expr>)
    requires list != []
    ensures Legible(src, Conjunction(list)) <==> AllLegible(src, list)
  {
    var n := |list| - 1;
    assert list == list[..n] + [list[n]];
    if n > 0 {
      ListLegible(src, list[..n]);
    }
  }

  // ---------------------------------------------------------------------------------------------
  // The merged filter
  // ---------------------------------------------------------------------------------------------

  /** The remote source reads the SQL of the merged filters as the conjunction of all their conjuncts, in
      order and grouped to the left. */
  ghost predicate ReadsMerged(src: Source, filters: seq<Expr>)
    requires filters != [] && Shippable(src, Conjunction(filters))
  {
    var p := ParseAll(src, Print(src, Conjunction(filters)));
    p.Parsed? && ReadExpr(src, p.value) == Some(Normal(Conjunction(AllConjuncts(filters))))
  }

  /** The merged filter is read up to the grouping of AND if and only if every conjunct of every filter is
      readable and legible. */
  lemma MergedRoundTrip(src: Source, filters: seq<Expr>)
    requires filters != [] && AllShippable(src, filters)
    ensures Shippable(src, Conjunction(filters))
    ensures ReadsMerged(src, filters) <==>
      AllReadable(src, AllConjuncts(filters)) && AllLegible(src, AllConjuncts(filters))
  {
    hide Print, Shippable, Readable, Legible, ParseAll, ReadExpr, Normal, AllReadable, AllLegible;
    ListShippable(src, filters);
    MergedConjuncts(filters);
    var e, list := Conjunction(filters), AllConjuncts(filters);
    RegroupedPrint(src, e);
    RoundTrip(src, Regrouped(e));
    ListReadable(src, list);
    ListLegible(src, list);
  }

  lemma {:induction false} ConjunctsReadable(src: Source, e: Expr)
    requires Readable(src, e) && Legible(src, e)
    ensures AllReadable(src, Conjuncts(e)) && AllLegible(src, Conjuncts(e))
    decreases e
  {
    if IsAnd(e) {
      ConjunctsReadable(src, e.left);
      ConjunctsReadable(src, e.right);
    }
  }

  lemma {:induction false} FiltersReadable(src: Source, filters: seq<Expr>)
    requires AllReadable(src, filters) && AllLegible(src, filters)
    ensures AllReadable(src, AllConjuncts(filters)) && AllLegible(src, AllConjuncts(filters))
  {
    hide Readable, Legible, Conjuncts;
    if filters != [] {
      var n := |filters| - 1;
      FiltersReadable(src, filters[..n]);
      ConjunctsReadable(src, filters[n]);
    }
  }

  /** Merging does no harm: filters that read back one by one are read merged. */
  lemma MergingKeeps(src: Source, filters: seq<Expr>)
    requires filters != [] && AllShippable(src, filters)
    requires forall i :: 0 <= i < |filters| ==> ReadsBackAs(src, filters[i])
    ensures Shippable(src, Conjunction(filters)) && ReadsMerged(src, filters)
  {
    hide ReadsMerged, ReadsBackAs, Readable, Legible, Shippable;
    forall x | x in filters ensures Readable(src, x) && Legible(src, x) {
      var i :| 0 <= i < |filters| && filters[i] == x;
      RoundTrip(src, x);
    }
    FiltersReadable(src, filters);
    MergedRoundTrip(src, filters);
  }
}
