/** Two trees that mean the same and are spelled the same are the same: parentheses are determined by
    where they stand. */
module SqlSpelling {
  import opened SqlTree

  /** The tree without its parentheses and without what its strings say. */
  function Strip(t: Tree): Tree {
    match t
    case Leaf(tok) => Leaf(if tok.Text? then Text([]) else tok)
    case Binary(op, l, r) => Binary(op, Strip(l), Strip(r))
    case Not(a) => Not(Strip(a))
    case Negative(a) => Negative(Strip(a))
    case Is(test, a) => Is(test, Strip(a))
    case InList(negated, a, list) => InList(negated, Strip(a), StripAll(list))
    case Paren(a) => Strip(a)
  }

  function StripAll(list: seq<Tree>): (r: seq<Tree>)
    ensures |r| == |list|
  {
    if list == [] then [] else [Strip(list[0])] + StripAll(list[1..])
  }

  // ---------------------------------------------------------------------------------------------
  // Counting tokens
  // ---------------------------------------------------------------------------------------------

  function Size(w: Sql): nat {
    if w == [] then 0 else (if w[0].LParen? || w[0].RParen? then 0 else 1) + Size(w[1..])
  }

  function Depth(w: Sql): int {
    if w == [] then 0 else (if w[0].LParen? then 1 else if w[0].RParen? then -1 else 0) + Depth(w[1..])
  }

  lemma {:induction false} Sums(a: Sql, b: Sql)
    ensures Size(a + b) == Size(a) + Size(b) && Depth(a + b) == Depth(a) + Depth(b)
  {
    if a == [] {
      assert a + b == b;
    } else {
      assert (a + b)[1..] == a[1..] + b;
      Sums(a[1..], b);
    }
  }

  lemma One(tok: Token)
    ensures Size([tok]) == (if tok.LParen? || tok.RParen? then 0 else 1)
    ensures Depth([tok]) == (if tok.LParen? then 1 else if tok.RParen? then -1 else 0)
  {
    assert [tok][1..] == [];
  }

  lemma Around(a: Sql, tok: Token, b: Sql)
    ensures Size(a + [tok] + b) == Size(a) + Size([tok]) + Size(b)
    ensures Depth(a + [tok] + b) == Depth(a) + Depth([tok]) + Depth(b)
  {
    hide Size, Depth;
    Sums(a, [tok]);
    Sums(a + [tok], b);
  }

  /** Two spellings with as many tokens before a separator agree on both sides of it. */
  lemma SplitAt(a: Sql, x: Token, b: Sql, a': Sql, x': Token, b': Sql)
    requires a + [x] + b == a' + [x'] + b' && Size(a) == Size(a')
    requires Size([x]) == 1 && Size([x']) == 1
    ensures a == a' && x == x' && b == b'
  {
    hide Size;
    var w := a + [x] + b;
    assert w == a' + [x'] + b';
    Longer(a, x, b, a', x', b');
    Longer(a', x', b', a, x, b);
    assert w[..|a|] == a && w[..|a'|] == a';
    assert w[|a|] == x && w[|a'|] == x';
    assert w[|a| + 1..] == b && w[|a'| + 1..] == b';
  }

  lemma Longer(a: Sql, x: Token, b: Sql, a': Sql, x': Token, b': Sql)
    requires a + [x] + b == a' + [x'] + b' && Size([x]) == 1
    ensures |a| < |a'| ==> Size(a) < Size(a')
  {
    hide Size;
    if |a| < |a'| {
      var w := a + [x] + b;
      var mid := a'[|a| + 1..];
      assert a' == w[..|a'|] && w[..|a| + 1] == a + [x];
      assert a' == a + [x] + mid;
      Around(a, x, mid);
    }
  }

  // ---------------------------------------------------------------------------------------------
  // Trees
  // ---------------------------------------------------------------------------------------------

  /** Leaves are not parentheses. */
  predicate Leafy(t: Tree) {
    match t
    case Leaf(tok) => IsLeaf(tok)
    case Binary(_, l, r) => Leafy(l) && Leafy(r)
    case Not(a) => Leafy(a)
    case Negative(a) => Leafy(a)
    case Is(_, a) => Leafy(a)
    case InList(_, a, list) => Leafy(a) && forall x :: x in list ==> Leafy(x)
    case Paren(a) => Leafy(a)
  }

  /** Parentheses are balanced, and never closed before they are opened. */
  ghost predicate Balanced(w: Sql) {
    Depth(w) == 0 && forall n :: 0 <= n <= |w| ==> Depth(w[..n]) >= 0
  }

  lemma BalancedConcat(a: Sql, b: Sql)
    requires Balanced(a) && Balanced(b)
    ensures Balanced(a + b)
  {
    hide Depth;
    Sums(a, b);
    forall n | 0 <= n <= |a + b| ensures Depth((a + b)[..n]) >= 0 {
      if n <= |a| {
        assert (a + b)[..n] == a[..n];
      } else {
        assert (a + b)[..n] == a + b[..n - |a|];
        Sums(a, b[..n - |a|]);
      }
    }
  }

  lemma BalancedOne(tok: Token)
    requires !tok.LParen? && !tok.RParen?
    ensures Balanced([tok])
  {
    One(tok);
    assert [tok][..0] == [] && [tok][..1] == [tok];
  }

  /** Every proper non-empty prefix of a parenthesised spelling is inside the parentheses. */
  lemma Enclosed(w: Sql, n: nat)
    requires Balanced(w) && 0 < n <= |w| + 1
    ensures Depth(([LParen] + w + [RParen])[..n]) >= 1
  {
    assert ([LParen] + w + [RParen])[..n] == [LParen] + w[..n - 1];
    Sums([LParen], w[..n - 1]);
    One(LParen);
  }

  lemma BalancedParen(w: Sql)
    requires Balanced(w)
    ensures Balanced([LParen] + w + [RParen])
  {
    hide Depth;
    var p := [LParen] + w + [RParen];
    Sums([LParen] + w, [RParen]);
    Sums([LParen], w);
    One(LParen);
    One(RParen);
    forall n | 0 <= n <= |p| ensures Depth(p[..n]) >= 0 {
      if n == 0 {
        assert p[..n] == [];
        NoDepth();
      } else if n <= |w| + 1 {
        Enclosed(w, n);
      } else {
        assert p[..n] == p;
      }
    }
  }

  lemma NoDepth()
    ensures Depth([]) == 0 && Balanced([])
  {
  }

  lemma {:induction false} FlatBalanced(t: Tree)
    requires Leafy(t)
    ensures Balanced(Flat(t))
    decreases t, 0
  {
    hide Balanced, FlatList;
    match t {
      case Leaf(tok) => BalancedOne(tok);
      case Binary(op, l, r) =>
        FlatBalanced(l); FlatBalanced(r);
        BalancedOne(Op(op));
        BalancedConcat(Flat(l), [Op(op)]);
        BalancedConcat(Flat(l) + [Op(op)], Flat(r));
      case Not(a) =>
        FlatBalanced(a); BalancedOne(NOT); BalancedConcat([NOT], Flat(a));
      case Negative(a) =>
        FlatBalanced(a); BalancedOne(Op(Minus)); BalancedConcat([Op(Minus)], Flat(a));
      case Is(test, a) =>
        FlatBalanced(a); BalancedOne(IS(test)); BalancedConcat(Flat(a), [IS(test)]);
      case InList(negated, a, list) =>
        FlatBalanced(a); ListBalanced(list);
        InBalanced(negated, Flat(a), FlatList(list));
      case Paren(a) =>
        FlatBalanced(a); BalancedParen(Flat(a));
    }
  }

  lemma InBalanced(negated: bool, a: seq<Token>, list: seq<Token>)
    requires Balanced(a) && Balanced(list)
    ensures Balanced(a + [IN(negated), LParen] + list + [RParen])
  {
    hide *;
    BalancedOne(IN(negated));
    BalancedParen(list);
    BalancedConcat(a, [IN(negated)]);
    BalancedConcat(a + [IN(negated)], [LParen] + list + [RParen]);
    assert a + [IN(negated), LParen] + list + [RParen] == a + [IN(negated)] + ([LParen] + list + [RParen]);
  }

  lemma {:induction false} ListBalanced(list: seq<Tree>)
    requires forall x :: x in list ==> Leafy(x)
    ensures Balanced(FlatList(list))
    decreases list, 0
  {
    hide Balanced, Flat;
    if list == [] {
      NoDepth();
    } else if |list| == 1 {
      FlatBalanced(list[0]);
    } else {
      FlatBalanced(list[0]);
      ListBalanced(list[1..]);
      BalancedOne(Comma);
      BalancedConcat(Flat(list[0]), [Comma]);
      BalancedConcat(Flat(list[0]) + [Comma], FlatList(list[1..]));
    }
  }

  /** Parentheses do not change the number of other tokens. */
  lemma {:induction false} StripSize(t: Tree)
    requires Leafy(t)
    ensures Size(Flat(t)) == Size(Flat(Strip(t)))
    decreases t, 0
  {
    hide Size;
    match t {
      case Leaf(tok) => One(tok); One(Text([]));
      case Binary(op, l, r) =>
        StripSize(l); StripSize(r);
        Around(Flat(l), Op(op), Flat(r));
        Around(Flat(Strip(l)), Op(op), Flat(Strip(r)));
      case Not(a) =>
        StripSize(a); Sums([NOT], Flat(a)); Sums([NOT], Flat(Strip(a)));
      case Negative(a) =>
        StripSize(a); Sums([Op(Minus)], Flat(a)); Sums([Op(Minus)], Flat(Strip(a)));
      case Is(test, a) =>
        StripSize(a); Sums(Flat(a), [IS(test)]); Sums(Flat(Strip(a)), [IS(test)]);
      case InList(negated, a, list) =>
        StripSize(a); StripListSize(list);
        InSize(negated, a, list);
        InSize(negated, Strip(a), StripAll(list));
      case Paren(a) =>
        StripSize(a);
        Sums([LParen] + Flat(a), [RParen]); Sums([LParen], Flat(a));
        One(LParen); One(RParen);
    }
  }

  lemma InSize(negated: bool, a: Tree, list: seq<Tree>)
    ensures Size(Flat(InList(negated, a, list))) == Size(Flat(a)) + 1 + Size(FlatList(list))
  {
    hide Size, FlatList;
    var u := [LParen] + FlatList(list) + [RParen];
    assert Flat(InList(negated, a, list)) == Flat(a) + [IN(negated)] + u;
    Around(Flat(a), IN(negated), u);
    Sums([LParen] + FlatList(list), [RParen]);
    Sums([LParen], FlatList(list));
    One(IN(negated)); One(LParen); One(RParen);
  }

  lemma {:induction false} StripListSize(list: seq<Tree>)
    requires forall x :: x in list ==> Leafy(x)
    ensures Size(FlatList(list)) == Size(FlatList(StripAll(list)))
    decreases list, 0
  {
    hide Size, Flat, Strip;
    if list != [] {
      StripSize(list[0]);
      if |list| > 1 {
        StripListSize(list[1..]);
        assert StripAll(list)[1..] == StripAll(list[1..]);
        Around(Flat(list[0]), Comma, FlatList(list[1..]));
        Around(Flat(Strip(list[0])), Comma, FlatList(StripAll(list[1..])));
      }
    }
  }

  // ---------------------------------------------------------------------------------------------
  // Same meaning and same spelling
  // ---------------------------------------------------------------------------------------------

  lemma OutsideAt(t: Tree, a: Sql, b: Sql)
    requires t.Paren? && Leafy(t) && Balanced(a) && a != [] && b != []
    ensures Flat(t) != a + b
  {
    FlatBalanced(t.arg);
    if |Flat(t)| == |a + b| {
      Enclosed(Flat(t.arg), |a|);
      assert Depth(Flat(t)[..|a|]) >= 1;
      assert (a + b)[..|a|] == a;
    }
  }

  /** A spelling that begins with that of an operand. */
  lemma Operand(u: Tree) returns (a: Sql, b: Sql)
    requires Leafy(u) && (u.Binary? || u.Is? || u.InList?)
    ensures Flat(u) == a + b && a != [] && b != [] && Balanced(a)
  {
    hide Balanced;
    match u {
      case Binary(op, l, r) =>
        FlatBalanced(l);
        a, b := Flat(l), [Op(op)] + Flat(r);
      case Is(test, t) =>
        FlatBalanced(t);
        a, b := Flat(t), [IS(test)];
      case InList(negated, t, list) =>
        FlatBalanced(t);
        a, b := Flat(t), [IN(negated), LParen] + FlatList(list) + [RParen];
    }
  }

  lemma FirstToken(u: Tree)
    requires u.Leaf? || u.Not? || u.Negative? || u.Paren?
    ensures u.Leaf? ==> |Flat(u)| == 1
    ensures u.Not? ==> Flat(u)[0] == NOT
    ensures u.Negative? ==> Flat(u)[0] == Op(Minus)
    ensures u.Paren? ==> Flat(u)[0] == LParen && |Flat(u)| > 1
  {
  }

  /** A parenthesised spelling is never that of a tree without outer parentheses. */
  lemma ParenDiffers(t: Tree, u: Tree)
    requires Leafy(t) && Leafy(u) && t.Paren? && !u.Paren?
    ensures Flat(t) != Flat(u)
  {
    hide *;
    FirstToken(t);
    if u.Binary? || u.Is? || u.InList? {
      var a, b := Operand(u);
      OutsideAt(t, a, b);
    } else {
      FirstToken(u);
    }
  }

  lemma SameOuter(t: Tree, u: Tree)
    requires Leafy(t) && Leafy(u) && Flat(t) == Flat(u)
    ensures t.Paren? <==> u.Paren?
  {
    hide Leafy, Flat;
    if t.Paren? != u.Paren? {
      ParenDiffers(if t.Paren? then t else u, if t.Paren? then u else t);
    }
  }

  lemma {:induction false} SameSpelling(t: Tree, u: Tree)
    requires Leafy(t) && Leafy(u) && Strip(t) == Strip(u) && Flat(t) == Flat(u)
    ensures t == u
    decreases t, 1
  {
    SameOuter(t, u);
    match t {
      case Leaf(_) =>
      case Binary(op, l, r) =>
        SameSplit(l, Op(op), Flat(r), u.left, Flat(u.right));
        SameSpelling(l, u.left);
        SameSpelling(r, u.right);
      case Not(a) =>
        assert Flat(t)[1..] == Flat(a) && Flat(u)[1..] == Flat(u.arg);
        SameSpelling(a, u.arg);
      case Negative(a) =>
        assert Flat(t)[1..] == Flat(a) && Flat(u)[1..] == Flat(u.arg);
        SameSpelling(a, u.arg);
      case Is(test, a) =>
        assert Flat(t)[..|Flat(t)| - 1] == Flat(a) && Flat(u)[..|Flat(u)| - 1] == Flat(u.arg);
        SameSpelling(a, u.arg);
      case InList(negated, a, list) =>
        SameIn(t, u);
        SameSpelling(a, u.arg);
        SameList(list, u.list);
      case Paren(a) =>
        assert Flat(t)[1..|Flat(t)| - 1] == Flat(a) && Flat(u)[1..|Flat(u)| - 1] == Flat(u.arg);
        SameSpelling(a, u.arg);
    }
  }

  lemma SameSplit(l: Tree, x: Token, b: Sql, l': Tree, b': Sql)
    requires Leafy(l) && Leafy(l') && Strip(l) == Strip(l') && !x.LParen? && !x.RParen?
    requires Flat(l) + [x] + b == Flat(l') + [x] + b'
    ensures Flat(l) == Flat(l') && b == b'
  {
    hide Size, Flat, Leafy, Strip;
    StripSize(l);
    StripSize(l');
    One(x);
    SplitAt(Flat(l), x, b, Flat(l'), x, b');
  }

  lemma SameIn(t: Tree, u: Tree)
    requires t.InList? && u.InList? && Leafy(t) && Leafy(u) && Strip(t) == Strip(u) && Flat(t) == Flat(u)
    ensures Flat(t.arg) == Flat(u.arg) && FlatList(t.list) == FlatList(u.list)
  {
    hide *;
    var b, b' := [LParen] + FlatList(t.list) + [RParen], [LParen] + FlatList(u.list) + [RParen];
    InAgrees(t, u);
    FlatIn(t);
    FlatIn(u);
    SameSplit(t.arg, IN(t.negated), b, u.arg, b');
    assert b[1..|b| - 1] == FlatList(t.list) && b'[1..|b'| - 1] == FlatList(u.list);
  }

  lemma InAgrees(t: Tree, u: Tree)
    requires t.InList? && u.InList? && Leafy(t) && Leafy(u) && Strip(t) == Strip(u)
    ensures u.negated == t.negated && Leafy(t.arg) && Leafy(u.arg) && Strip(t.arg) == Strip(u.arg)
  {
    hide Flat, FlatList, StripAll;
  }

  lemma FlatIn(t: Tree)
    requires t.InList?
    ensures Flat(t) == Flat(t.arg) + [IN(t.negated)] + ([LParen] + FlatList(t.list) + [RParen])
  {
    hide FlatList;
    assert [IN(t.negated), LParen] == [IN(t.negated)] + [LParen];
  }

  lemma {:induction false} SameList(list: seq<Tree>, list': seq<Tree>)
    requires (forall x :: x in list ==> Leafy(x)) && (forall x :: x in list' ==> Leafy(x))
    requires StripAll(list) == StripAll(list') && FlatList(list) == FlatList(list')
    ensures list == list'
    decreases list, 0
  {
    hide Leafy, Flat, Strip;
    assert |list| == |StripAll(list)| == |list'|;
    if list != [] {
      assert StripAll(list)[0] == Strip(list[0]) && StripAll(list')[0] == Strip(list'[0]);
      assert StripAll(list)[1..] == StripAll(list[1..]) && StripAll(list')[1..] == StripAll(list'[1..]);
      if |list| > 1 {
        SameSplit(list[0], Comma, FlatList(list[1..]), list'[0], FlatList(list'[1..]));
        SameList(list[1..], list'[1..]);
      }
      SameSpelling(list[0], list'[0]);
      assert list == [list[0]] + list[1..] && list' == [list'[0]] + list'[1..];
    }
  }
}
