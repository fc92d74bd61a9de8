/** Converting filter expressions to SQL for a remote source: the stack machine of the visitor, the
    converters, and identifier and string quoting. */
module FilterPushdown {
  import opened Basics
  import opened SqlTree

  /** A literal: text, a date or timestamp without time zone (with its rendering, if it has one), a
      timestamp with time zone, or anything else with its display form. */
  datatype Scalar = Utf8(value: string) | Moment(rendered: Option<string>) | Zoned | Other(display: string)

  datatype Expr =
    | Column(name: string)
    | Literal(value: Scalar)
    | BinaryExpr(op: Operator, left: Expr, right: Expr)
    | NotExpr(arg: Expr)
    | NegativeExpr(arg: Expr)
    | IsExpr(test: Test, arg: Expr)
    | InListExpr(negated: bool, arg: Expr, list: seq<Expr>)
    | Unsupported

  // ---------------------------------------------------------------------------------------------
  // Quoting
  // ---------------------------------------------------------------------------------------------

  /** Every quote character is doubled. */
  function Escape(q: char, s: string): string {
    if s == [] then [] else (if s[0] == q then [q, q] else [s[0]]) + Escape(q, s[1..])
  }

  function Quote(q: char, s: string): string {
    [q] + Escape(q, s) + [q]
  }

  datatype Scan = Unclosed | Closed(text: string, rest: string)

  /** The text up to the first quote that is not doubled. */
  function ScanQuoted(q: char, w: string): Scan {
    if w == [] then Unclosed
    else if w[0] != q then
      var r := ScanQuoted(q, w[1..]);
      if r.Unclosed? then Unclosed else Closed([w[0]] + r.text, r.rest)
    else if |w| > 1 && w[1] == q then
      var r := ScanQuoted(q, w[2..]);
      if r.Unclosed? then Unclosed else Closed([q] + r.text, r.rest)
    else Closed([], w[1..])
  }

  lemma ScanPlain(q: char, c: char, w: string)
    requires c != q
    ensures ScanQuoted(q, [c] + w) ==
      var r := ScanQuoted(q, w);
      if r.Unclosed? then Unclosed else Closed([c] + r.text, r.rest)
  {
    assert ([c] + w)[1..] == w;
  }

  lemma ScanDoubled(q: char, w: string)
    ensures ScanQuoted(q, [q, q] + w) ==
      var r := ScanQuoted(q, w);
      if r.Unclosed? then Unclosed else Closed([q] + r.text, r.rest)
  {
    assert ([q, q] + w)[2..] == w;
  }

  lemma ScanEnd(q: char, rest: string)
    requires rest == [] || rest[0] != q
    ensures ScanQuoted(q, [q] + rest) == Closed([], rest)
  {
    assert ([q] + rest)[1..] == rest;
  }

  lemma EscapeCons(q: char, c: char, s: string)
    ensures Escape(q, [c] + s) == (if c == q then [q, q] else [c]) + Escape(q, s)
  {
    assert ([c] + s)[1..] == s;
  }

  lemma {:induction false} ScanEscaped(q: char, s: string, rest: string)
    requires rest == [] || rest[0] != q
    ensures ScanQuoted(q, Escape(q, s) + ([q] + rest)) == Closed(s, rest)
  {
    hide ScanQuoted;
    var end := [q] + rest;
    if s == [] {
      assert Escape(q, s) + end == end;
      ScanEnd(q, rest);
    } else {
      var c, s' := s[0], s[1..];
      assert s == [c] + s';
      ScanEscaped(q, s', rest);
      if c == q {
        assert Escape(q, s) + end == [q, q] + (Escape(q, s') + end);
        ScanDoubled(q, Escape(q, s') + end);
      } else {
        assert Escape(q, s) + end == [c] + (Escape(q, s') + end);
        ScanPlain(q, c, Escape(q, s') + end);
      }
    }
  }

  /** Scanning a quoted text gives it back, and stops exactly at its closing quote. */
  lemma QuoteRoundTrip(q: char, s: string, rest: string)
    requires rest == [] || rest[0] != q
    ensures ScanQuoted(q, Quote(q, s)[1..] + rest) == Closed(s, rest)
  {
    hide ScanQuoted, Escape;
    assert Quote(q, s)[1..] + rest == Escape(q, s) + ([q] + rest);
    ScanEscaped(q, s, rest);
  }

  /** Different names have different quoted forms. */
  lemma QuotedApart(q: char, s: string, t: string)
    ensures Quote(q, s) == Quote(q, t) <==> s == t
  {
    hide Quote;
    QuoteRoundTrip(q, s, []);
    QuoteRoundTrip(q, t, []);
  }

  /** Only a quoted text scans, so the quoted forms are exactly what the remote source can read. */
  lemma {:induction false} ScanIsQuoted(q: char, w: string)
    ensures var r := ScanQuoted(q, w);
      r.Closed? ==> w == Escape(q, r.text) + ([q] + r.rest) && (r.rest == [] || r.rest[0] != q)
  {
    hide Escape, ScanQuoted;
    if w == [] {
      ScanNothing(q);
    } else if w[0] != q {
      var c, w' := w[0], w[1..];
      assert w == [c] + w';
      ScanPlain(q, c, w');
      ScanIsQuoted(q, w');
      var r := ScanQuoted(q, w');
      if r.Closed? {
        EscapeCons(q, c, r.text);
        assert [c] + w' == [c] + Escape(q, r.text) + ([q] + r.rest);
      }
    } else if |w| > 1 && w[1] == q {
      var w' := w[2..];
      assert w == [q, q] + w';
      ScanDoubled(q, w');
      ScanIsQuoted(q, w');
      var r := ScanQuoted(q, w');
      if r.Closed? {
        EscapeCons(q, q, r.text);
        assert [q, q] + w' == [q, q] + Escape(q, r.text) + ([q] + r.rest);
      }
    } else {
      assert w == [q] + w[1..];
      ScanEnd(q, w[1..]);
      EscapeNothing(q);
      assert w == [] + ([q] + w[1..]);
    }
  }

  lemma ScanNothing(q: char)
    ensures ScanQuoted(q, []) == Unclosed
  {
  }

  lemma EscapeNothing(q: char)
    ensures Escape(q, []) == []
  {
  }

  /** The text of a quoted token, if it is quoted as a whole. */
  function Unquote(q: char, text: string): Option<string> {
    if text == [] || text[0] != q then None
    else
      var r := ScanQuoted(q, text[1..]);
      if r.Closed? && r.rest == [] then Some(r.text) else None
  }

  /** Only the quoted form of a text is read as that text. */
  lemma UnquoteExact(q: char, text: string, s: string)
    ensures Unquote(q, text) == Some(s) <==> text == Quote(q, s)
  {
    hide ScanQuoted, Escape;
    QuoteRoundTrip(q, s, []);
    assert Quote(q, s)[1..] + [] == Quote(q, s)[1..];
    if Unquote(q, text) == Some(s) {
      ScanIsQuoted(q, text[1..]);
      assert text == [q] + text[1..] && [q] + [] == [q];
    }
  }

  // ---------------------------------------------------------------------------------------------
  // Backslashes in strings
  // ---------------------------------------------------------------------------------------------

  /** What MySQL reads for a backslash and the character after it. */
  function Unescaped(c: char): string {
    if c == '%' || c == '_' then ['\\', c]
    else if c == '0' then ['\0']
    else if c == 'b' then ['\U{8}']
    else if c == 'n' then ['\n']
    else if c == 'r' then ['\r']
    else if c == 't' then ['\t']
    else if c == 'Z' then ['\U{1A}']
    else [c]
  }

  /** The text of a string up to its closing quote, as MySQL reads it: quotes are doubled or escaped. */
  function ScanEscapes(w: string): Scan {
    if w == [] then Unclosed
    else if w[0] == '\\' then
      if |w| == 1 then Unclosed else Prefixed(Unescaped(w[1]), ScanEscapes(w[2..]))
    else if w[0] != '\'' then Prefixed([w[0]], ScanEscapes(w[1..]))
    else if |w| > 1 && w[1] == '\'' then Prefixed(['\''], ScanEscapes(w[2..]))
    else Closed([], w[1..])
  }

  function Prefixed(p: string, r: Scan): Scan {
    if r.Unclosed? then Unclosed else Closed(p + r.text, r.rest)
  }

  /** The text of a quoted string, as the source reads it. */
  function ReadText(src: Source, text: string): Option<string> {
    if src != MySQL then Unquote('\'', text)
    else if text == [] || text[0] != '\'' then None
    else
      var r := ScanEscapes(text[1..]);
      if r.Closed? && r.rest == [] then Some(r.text) else None
  }

  /** No backslash, except before a percent sign or an underscore. */
  predicate IsHarmless(s: string) {
    forall i :: 0 <= i < |s| && s[i] == '\\' ==> i + 1 < |s| && (s[i + 1] == '%' || s[i + 1] == '_')
  }

  lemma NothingHarmless()
    ensures IsHarmless([])
  {
  }

  lemma HarmlessRest(s: string)
    requires s != []
    ensures s[0] != '\\' ==> (IsHarmless(s) <==> IsHarmless(s[1..]))
    ensures s[0] == '\\' ==>
      (IsHarmless(s) <==> |s| > 1 && (s[1] == '%' || s[1] == '_') && IsHarmless(s[2..]))
  {
    assert forall i :: 1 <= i < |s| ==> s[i] == s[1..][i - 1];
    assert |s| > 1 ==> forall i :: 2 <= i < |s| ==> s[i] == s[2..][i - 2];
    if s[0] != '\\' && IsHarmless(s[1..]) {
      forall i | 0 <= i < |s| && s[i] == '\\' ensures i + 1 < |s| && (s[i + 1] == '%' || s[i + 1] == '_') {
        assert s[1..][i - 1] == '\\';
      }
    }
    if s[0] == '\\' && |s| > 1 && (s[1] == '%' || s[1] == '_') && IsHarmless(s[2..]) {
      forall i | 0 <= i < |s| && s[i] == '\\' ensures i + 1 < |s| && (s[i + 1] == '%' || s[i + 1] == '_') {
        assert i > 1 ==> s[2..][i - 2] == '\\';
      }
    }
  }

  lemma ScanEscapesPlain(c: char, w: string)
    requires c != '\'' && c != '\\'
    ensures ScanEscapes([c] + w) == Prefixed([c], ScanEscapes(w))
  {
    assert ([c] + w)[1..] == w;
  }

  lemma ScanEscapesPair(c: char, w: string)
    ensures ScanEscapes(['\\', c] + w) == Prefixed(Unescaped(c), ScanEscapes(w))
    ensures ScanEscapes(['\'', '\''] + w) == Prefixed(['\''], ScanEscapes(w))
  {
    assert (['\\', c] + w)[2..] == w && (['\'', '\''] + w)[2..] == w;
  }

  lemma ScanEscapesEnd(w: string)
    ensures w == [] || w[0] != '\'' ==> ScanEscapes(['\''] + w) == Closed([], w)
    ensures ScanEscapes([]) == Unclosed && ScanEscapes(['\\']) == Unclosed
  {
    assert (['\''] + w)[1..] == w;
  }

  predicate ReadsWhole(r: Scan) {
    r.Closed? && r.rest == []
  }

  /** Once a backslash has taken the first of two quotes, the string does not end where it should. */
  lemma {:induction false} OutOfStep(s: string)
    ensures !ReadsWhole(ScanEscapes(['\''] + (Escape('\'', s) + ['\''])))
  {
    hide ScanEscapes;
    if s == [] {
      assert ['\''] + (Escape('\'', s) + ['\'']) == ['\'', '\''] + [];
      ScanEscapesPair(' ', []);
      ScanEscapesEnd([]);
    } else if s[0] == '\'' {
      OutOfStep(s[1..]);
      var w := ['\''] + (Escape('\'', s[1..]) + ['\'']);
      assert ['\''] + (Escape('\'', s) + ['\'']) == ['\'', '\''] + w;
      ScanEscapesPair(' ', w);
    } else {
      ScanEscapesEnd(Escape('\'', s) + ['\'']);
    }
  }

  /** A harmless string is read as itself; any other is not closed where it should be, or read shorter. */
  lemma {:induction false} EscapesRead(s: string)
    ensures var r := ScanEscapes(Escape('\'', s) + ['\'']);
      && (IsHarmless(s) ==> r == Closed(s, []))
      && (ReadsWhole(r) ==> |r.text| <= |s| && (!IsHarmless(s) ==> |r.text| < |s|))
    decreases |s|
  {
    hide ScanEscapes, IsHarmless, Escape;
    var end := ['\''];
    if s == [] {
      EscapeNothing('\'');
      NothingHarmless();
      assert Escape('\'', s) + end == end + [];
      ScanEscapesEnd([]);
    } else {
      var c, s' := s[0], s[1..];
      assert s == [c] + s';
      EscapeCons('\'', c, s');
      HarmlessRest(s);
      if c == '\\' {
        BackslashRead(s);
      } else {
        EscapesRead(s');
        var w := Escape('\'', s') + end;
        if c == '\'' {
          assert Escape('\'', s) + end == ['\'', '\''] + w;
          ScanEscapesPair(' ', w);
        } else {
          assert Escape('\'', s) + end == [c] + w;
          ScanEscapesPlain(c, w);
        }
      }
    }
  }

  lemma {:induction false} BackslashRead(s: string)
    requires s != [] && s[0] == '\\'
    ensures var r := ScanEscapes(Escape('\'', s) + ['\'']);
      && (IsHarmless(s) ==> r == Closed(s, []))
      && (ReadsWhole(r) ==> |r.text| <= |s| && (!IsHarmless(s) ==> |r.text| < |s|))
    decreases |s|, 0
  {
    hide ScanEscapes, IsHarmless, Escape;
    var end := ['\''];
    HarmlessRest(s);
    EscapeCons('\'', s[0], s[1..]);
    assert s == [s[0]] + s[1..];
    if |s| == 1 {
      EscapeNothing('\'');
      assert Escape('\'', s) + end == ['\\', '\''] + [];
      ScanEscapesPair('\'', []);
      ScanEscapesEnd([]);
    } else {
      var c, s' := s[1], s[2..];
      assert s[1..] == [c] + s';
      EscapeCons('\'', c, s');
      var w := Escape('\'', s') + end;
      if c == '\'' {
        assert Escape('\'', s) + end == ['\\', c] + (['\''] + w);
        ScanEscapesPair(c, ['\''] + w);
        OutOfStep(s');
      } else {
        assert Escape('\'', s) + end == ['\\', c] + w;
        ScanEscapesPair(c, w);
        EscapesRead(s');
        assert c == '%' || c == '_' ==> s == ['\\', c] + s';
      }
    }
  }

  /** A string is read back as itself on every source but MySQL, and there if and only if every backslash
      in it comes before a percent sign or an underscore. */
  lemma TextRoundTrip(src: Source, s: string)
    ensures ReadText(src, Quote('\'', s)) == Some(s) <==> (src == MySQL ==> IsHarmless(s))
  {
    hide ScanEscapes, Escape, IsHarmless, Unquote;
    if src == MySQL {
      EscapesRead(s);
      assert Quote('\'', s)[1..] == Escape('\'', s) + ['\''];
    } else {
      UnquoteExact('\'', Quote('\'', s), s);
    }
  }

  lemma {:induction false} EscapeGrows(q: char, s: string)
    ensures |Escape(q, s)| >= |s| && (Escape(q, s) == s <==> q !in s)
  {
    if s != [] {
      EscapeGrows(q, s[1..]);
      assert s == [s[0]] + s[1..];
      if s[0] == q {
        assert |Escape(q, s)| > |s|;
      } else {
        assert Escape(q, s)[1..] == Escape(q, s[1..]);
      }
    }
  }

  /** Reading text with escapes only shortens it, unless there is no quote in it. */
  lemma {:induction false} EscapesShorten(w: string)
    ensures var r := ScanEscapes(w);
      r.Closed? ==> |r.text| + |r.rest| < |w| && (|r.text| + |r.rest| + 1 == |w| ==> '\'' !in w[..|r.text|])
  {
    if w != [] {
      if w[0] == '\\' {
        if |w| > 1 {
          EscapesShorten(w[2..]);
        }
      } else if w[0] != '\'' {
        EscapesShorten(w[1..]);
      } else if |w| > 1 && w[1] == '\'' {
        EscapesShorten(w[2..]);
      }
    }
  }

  /** A date or time is quoted without escaping: it is read back as itself if and only if there is no
      quote in it, and no backslash that MySQL would take for an escape. */
  lemma MomentRead(src: Source, s: string)
    ensures ReadText(src, "'" + s + "'") == Some(s) <==> '\'' !in s && (src == MySQL ==> IsHarmless(s))
  {
    hide ScanEscapes, Escape, IsHarmless, Unquote;
    EscapeGrows('\'', s);
    if '\'' !in s {
      TextRoundTrip(src, s);
    } else if src == MySQL {
      assert ("'" + s + "'")[1..] == s + "'";
      EscapesShorten(s + "'");
      assert (s + "'")[..|s|] == s;
    } else {
      UnquoteExact('\'', "'" + s + "'", s);
      assert Quote('\'', s)[1..|Escape('\'', s)| + 1] == Escape('\'', s);
      assert ("'" + s + "'")[1..|s| + 1] == s;
    }
  }

  // ---------------------------------------------------------------------------------------------
  // Numbers and constants
  // ---------------------------------------------------------------------------------------------

  predicate IsDigit(c: char) {
    '0' <= c <= '9'
  }

  /** Digits, with at most one point among them. */
  predicate IsNumber(s: string) {
    && s != [] && IsDigit(s[0])
    && (forall i :: 0 <= i < |s| ==> IsDigit(s[i]) || s[i] == '.')
    && (forall i, j :: 0 <= i < j < |s| ==> !(s[i] == '.' && s[j] == '.'))
  }

  /** What a remote source reads as one literal. */
  predicate IsLexeme(s: string) {
    IsNumber(s) || s == "NULL" || s == "true" || s == "false"
  }

  // ---------------------------------------------------------------------------------------------
  // Converters
  // ---------------------------------------------------------------------------------------------

  function QuoteChar(src: Source): char {
    if src == MySQL then '`' else '"'
  }

  function ColToSql(src: Source, name: string): Token {
    Quoted(Quote(QuoteChar(src), name))
  }

  /** A display form with a sign is a sign and a number to whoever reads it. */
  predicate IsSigned(display: string) {
    display != [] && display[0] == '-' && IsLexeme(display[1..])
  }

  function ScalarToSql(value: Scalar): Option<Sql> {
    match value
    case Utf8(s) => Some([Text(Quote('\'', s))])
    case Moment(rendered) => if rendered.None? then None else Some([Text("'" + rendered.value + "'")])
    case Zoned => None
    case Other(display) =>
      Some(if IsSigned(display) then [Op(Minus), Plain(display[1..])] else [Plain(display)])
  }

  /** The text of a date or time. */
  lemma MomentPrinted(src: Source, s: string)
    ensures var w := ScalarToSql(Moment(Some(s)));
      && w.Some? && |w.value| == 1 && w.value[0].Text?
      && (ReadText(src, w.value[0].text) == Some(s) <==> '\'' !in s && (src == MySQL ==> IsHarmless(s)))
  {
    hide IsHarmless, ReadText;
    MomentRead(src, s);
  }

  function ScalarTree(value: Scalar): (t: Tree)
    requires ScalarToSql(value).Some?
    ensures Flat(t) == ScalarToSql(value).value
  {
    var w := ScalarToSql(value).value;
    if |w| == 1 then Leaf(w[0]) else Negative(Leaf(w[1]))
  }

  function OpToSql(src: Source, op: Operator): Option<Token> {
    match src
    case Postgres => Some(Op(op))
    case SQLite =>
      if op.RegexMatch? || op.RegexIMatch? || op.RegexNotMatch? || op.RegexNotIMatch? || op.BitwiseXor?
      then None
      else Some(Op(op))
    case MySQL => if op.RegexIMatch? || op.RegexNotIMatch? then None else Some(Op(op))
  }

  /** The engine's own operator precedence; zero means unknown. */
  function Precedence(op: Operator): nat {
    match op
    case Or => 5
    case And => 10
    case Eq | NotEq | Lt | LtEq | Gt | GtEq => 20
    case Plus | Minus => 30
    case Multiply | Divide | Modulo => 40
    case _ => 0
  }

  // ---------------------------------------------------------------------------------------------
  // Which expressions are converted, and to what
  // ---------------------------------------------------------------------------------------------

  predicate Shippable(src: Source, e: Expr) {
    match e
    case Column(_) => true
    case Literal(value) => ScalarToSql(value).Some?
    case BinaryExpr(op, l, r) => OpToSql(src, op).Some? && Shippable(src, l) && Shippable(src, r)
    case NotExpr(a) => Shippable(src, a)
    case NegativeExpr(a) => Shippable(src, a)
    case IsExpr(_, a) => Shippable(src, a)
    case InListExpr(_, a, list) => Shippable(src, a) && forall x :: x in list ==> Shippable(src, x)
    case Unsupported => false
  }

  /** The operand of a binary operator is put in parentheses if it is a binary expression of unknown or
      lower precedence. */
  predicate NeedsParen(parent: Operator, child: Expr) {
    child.BinaryExpr? && (Precedence(child.op) == 0 || Precedence(child.op) < Precedence(parent))
  }

  /** The expression as printed, with the parentheses that are put in. */
  function ToTree(src: Source, e: Expr): Tree
    requires Shippable(src, e)
  {
    match e
    case Column(name) => Leaf(ColToSql(src, name))
    case Literal(value) => ScalarTree(value)
    case BinaryExpr(op, l, r) =>
      Binary(op,
             if NeedsParen(op, l) then Paren(ToTree(src, l)) else ToTree(src, l),
             if NeedsParen(op, r) then Paren(ToTree(src, r)) else ToTree(src, r))
    case NotExpr(a) => Not(ToTree(src, a))
    case NegativeExpr(a) => Paren(Negative(ToTree(src, a)))
    case IsExpr(test, a) => Is(test, ToTree(src, a))
    case InListExpr(negated, a, list) => InList(negated, ToTree(src, a), ToTrees(src, list))
  }

  lemma TreeOfBinary(src: Source, op: Operator, l: Expr, r: Expr)
    requires Shippable(src, BinaryExpr(op, l, r))
    ensures ToTree(src, BinaryExpr(op, l, r))
         == Binary(op, if NeedsParen(op, l) then Paren(ToTree(src, l)) else ToTree(src, l),
                   if NeedsParen(op, r) then Paren(ToTree(src, r)) else ToTree(src, r))
  {
    hide NeedsParen;
  }

  function ToTrees(src: Source, list: seq<Expr>): (r: seq<Tree>)
    requires forall x :: x in list ==> Shippable(src, x)
    ensures |r| == |list| && forall i :: 0 <= i < |list| ==> r[i] == ToTree(src, list[i])
  {
    if list == [] then [] else [ToTree(src, list[0])] + ToTrees(src, list[1..])
  }

  function Print(src: Source, e: Expr): Sql
    requires Shippable(src, e)
  {
    Flat(ToTree(src, e))
  }

  function PrintAll(src: Source, list: seq<Expr>): (r: seq<Sql>)
    requires forall x :: x in list ==> Shippable(src, x)
    ensures |r| == |list|
  {
    seq(|list|, i requires 0 <= i < |list| => Print(src, list[i]))
  }

  /** A printed operand of a binary operator. */
  function Operand(src: Source, parent: Operator, child: Expr): Sql
    requires Shippable(src, child)
  {
    if NeedsParen(parent, child) then [LParen] + Print(src, child) + [RParen] else Print(src, child)
  }

  lemma PrintBinary(src: Source, e: Expr)
    requires e.BinaryExpr? && Shippable(src, e)
    ensures Print(src, e) == Operand(src, e.op, e.left) + [Op(e.op)] + Operand(src, e.op, e.right)
  {
    hide NeedsParen;
    var l := if NeedsParen(e.op, e.left) then Paren(ToTree(src, e.left)) else ToTree(src, e.left);
    var r := if NeedsParen(e.op, e.right) then Paren(ToTree(src, e.right)) else ToTree(src, e.right);
    assert ToTree(src, e) == Binary(e.op, l, r);
    assert Flat(l) == Operand(src, e.op, e.left) && Flat(r) == Operand(src, e.op, e.right);
  }

  lemma PrintUnary(src: Source, e: Expr)
    requires (e.NotExpr? || e.NegativeExpr? || e.IsExpr?) && Shippable(src, e)
    ensures e.NotExpr? ==> Print(src, e) == [NOT] + Print(src, e.arg)
    ensures e.NegativeExpr? ==> Print(src, e) == [LParen, Op(Minus)] + Print(src, e.arg) + [RParen]
    ensures e.IsExpr? ==> Print(src, e) == Print(src, e.arg) + [IS(e.test)]
  {
    if e.NegativeExpr? {
      var t := Negative(ToTree(src, e.arg));
      assert ToTree(src, e) == Paren(t) && Flat(t) == [Op(Minus)] + Print(src, e.arg);
    }
  }

  lemma ChildrenOfIn(src: Source, e: Expr)
    requires e.InListExpr? && Shippable(src, e)
    ensures Shippable(src, e.arg) && forall x :: x in e.list ==> Shippable(src, x)
    ensures ChildrenSql(src, e) == [Print(src, e.arg)] + PrintAll(src, e.list)
  {
    hide Print;
  }

  lemma PrintInList(src: Source, e: Expr)
    requires e.InListExpr? && Shippable(src, e)
    ensures Print(src, e) == Print(src, e.arg) + [IN(e.negated), LParen] + FlatList(ToTrees(src, e.list)) + [RParen]
  {
    hide FlatList;
    assert ToTree(src, e) == InList(e.negated, ToTree(src, e.arg), ToTrees(src, e.list));
  }

  /** What the children of a node leave on the stack. */
  function ChildrenSql(src: Source, e: Expr): seq<Sql>
    requires Shippable(src, e)
  {
    match e
    case Column(_) => []
    case Literal(_) => []
    case BinaryExpr(_, l, r) => [Print(src, l), Print(src, r)]
    case NotExpr(a) => [Print(src, a)]
    case NegativeExpr(a) => [Print(src, a)]
    case IsExpr(_, a) => [Print(src, a)]
    case InListExpr(_, a, list) => [Print(src, a)] + PrintAll(src, list)
  }

  // ---------------------------------------------------------------------------------------------
  // The visitor
  // ---------------------------------------------------------------------------------------------

  class FilterPushdownVisitor {
    const source: Source
    var sqlExprs: seq<Sql>

    constructor (source: Source)
      ensures this.source == source && sqlExprs == []
    {
      this.source := source;
      sqlExprs := [];
    }

    method PopSqlExpr() returns (w: Sql)
      requires sqlExprs != []
      modifies this
      ensures sqlExprs == old(sqlExprs)[..|old(sqlExprs)| - 1] && w == old(sqlExprs)[|old(sqlExprs)| - 1]
    {
      var n := |sqlExprs| - 1;
      w := sqlExprs[n];
      sqlExprs := sqlExprs[..n];
    }

    /** Before the children: is this kind of node convertible at all? */
    method Down(e: Expr) returns (ok: bool)
      ensures ok <==> !e.Unsupported? && (e.BinaryExpr? ==> OpToSql(source, e.op).Some?)
    {
      match e {
        case BinaryExpr(op, _, _) => ok := OpToSql(source, op).Some?;
        case Unsupported => ok := false;
        case _ => ok := true;
      }
    }

    /** After the children: replace what they left on the stack by the SQL of the node. No pop fails. */
    method Up(e: Expr, ghost base: seq<Sql>) returns (ok: bool)
      requires !e.Literal? ==> Shippable(source, e) && sqlExprs == base + ChildrenSql(source, e)
      requires e.Literal? ==> sqlExprs == base
      modifies this
      ensures ok <==> Shippable(source, e)
      ensures ok ==> sqlExprs == base + [Print(source, e)]
    {
      match e {
        case Column(name) => sqlExprs := sqlExprs + [[ColToSql(source, name)]];
        case Literal(value) =>
          var sql := ScalarToSql(value);
          if sql.None? {
            return false;
          }
          sqlExprs := sqlExprs + [sql.value];
        case BinaryExpr(op, l, r) => UpBinary(e, base);
        case InListExpr(_, _, _) => UpInList(e, base);
        case NotExpr(_) => UpUnary(e, base);
        case NegativeExpr(_) => UpUnary(e, base);
        case IsExpr(_, _) => UpUnary(e, base);
      }
      ok := true;
    }

    method UpUnary(e: Expr, ghost base: seq<Sql>)
      requires e.NotExpr? || e.NegativeExpr? || e.IsExpr?
      requires Shippable(source, e) && sqlExprs == base + ChildrenSql(source, e)
      modifies this
      ensures sqlExprs == base + [Print(source, e)]
    {
      var inner := PopSqlExpr();
      assert sqlExprs == base && inner == Print(source, e.arg);
      var sql :=
        match e
        case NotExpr(_) => [NOT] + inner
        case NegativeExpr(_) => [LParen, Op(Minus)] + inner + [RParen]
        case IsExpr(test, _) => inner + [IS(test)];
      PrintUnary(source, e);
      sqlExprs := sqlExprs + [sql];
    }

    method UpBinary(e: Expr, ghost base: seq<Sql>)
      requires e.BinaryExpr? && Shippable(source, e) && sqlExprs == base + ChildrenSql(source, e)
      modifies this
      ensures sqlExprs == base + [Print(source, e)]
    {
      var right := PopSqlExpr();
      assert sqlExprs == base + [Print(source, e.left)] && right == Print(source, e.right);
      var left := PopSqlExpr();
      assert sqlExprs == base && left == Print(source, e.left);
      if e.right.BinaryExpr? {
        var p := Precedence(e.right.op);
        if p == 0 || p < Precedence(e.op) {
          right := [LParen] + right + [RParen];
        }
      }
      if e.left.BinaryExpr? {
        var p := Precedence(e.left.op);
        if p == 0 || p < Precedence(e.op) {
          left := [LParen] + left + [RParen];
        }
      }
      PrintBinary(source, e);
      sqlExprs := sqlExprs + [left + [OpToSql(source, e.op).value] + right];
    }

    method UpInList(e: Expr, ghost base: seq<Sql>)
      requires e.InListExpr? && Shippable(source, e) && sqlExprs == base + ChildrenSql(source, e)
      modifies this
      ensures sqlExprs == base + [Print(source, e)]
    {
      hide Print, Shippable, ToTree, Joined, FlatList;
      ChildrenOfIn(source, e);
      var index := |sqlExprs| - |e.list|;
      var parts := sqlExprs[index..];
      sqlExprs := sqlExprs[..index];
      assert parts == PrintAll(source, e.list) && sqlExprs == base + [Print(source, e.arg)];
      var list := Join(parts);
      JoinedPrints(source, e.list);
      var arg := PopSqlExpr();
      assert sqlExprs == base && arg == Print(source, e.arg);
      PrintInList(source, e);
      sqlExprs := sqlExprs + [arg + [IN(e.negated), LParen] + list + [RParen]];
    }

    /** Visit a node: itself, its children, and itself again. On success exactly one entry is added to
        the stack. */
    method Visit(e: Expr) returns (ok: bool)
      modifies this
      ensures ok <==> Shippable(source, e)
      ensures ok ==> sqlExprs == old(sqlExprs) + [Print(source, e)]
      decreases e, 0
    {
      hide Print, PrintAll, OpToSql, ScalarToSql;
      ok := Down(e);
      if !ok {
        return;
      }
      match e {
        case BinaryExpr(_, l, r) =>
          ok := Visit(l);
          if ok { ok := Visit(r); }
        case NotExpr(a) => ok := Visit(a);
        case NegativeExpr(a) => ok := Visit(a);
        case IsExpr(_, a) => ok := Visit(a);
        case InListExpr(_, a, list) =>
          ok := Visit(a);
          if ok { ok := VisitAll(list); }
        case _ =>
      }
      if !ok {
        return;
      }
      ok := Up(e, old(sqlExprs));
    }

    method VisitAll(list: seq<Expr>) returns (ok: bool)
      modifies this
      ensures ok <==> forall x :: x in list ==> Shippable(source, x)
      ensures ok ==> sqlExprs == old(sqlExprs) + PrintAll(source, list)
      decreases list, 0
    {
      for i := 0 to |list|
        invariant forall k :: 0 <= k < i ==> Shippable(source, list[k])
        invariant sqlExprs == old(sqlExprs) + PrintAll(source, list[..i])
      {
        ok := Visit(list[i]);
        if !ok {
          return;
        }
        assert PrintAll(source, list[..i + 1]) == PrintAll(source, list[..i]) + [Print(source, list[i])];
      }
      assert list[..|list|] == list;
      ok := true;
    }
  }

  /** The parts separated by commas. */
  function Joined(parts: seq<Sql>): Sql {
    if parts == [] then []
    else if |parts| == 1 then parts[0]
    else parts[0] + [Comma] + Joined(parts[1..])
  }

  lemma {:induction false} JoinedSnoc(parts: seq<Sql>, w: Sql)
    ensures Joined(parts + [w]) == if parts == [] then w else Joined(parts) + [Comma] + w
  {
    if parts != [] {
      assert (parts + [w])[1..] == parts[1..] + [w];
      JoinedSnoc(parts[1..], w);
    }
  }

  method Join(parts: seq<Sql>) returns (w: Sql)
    ensures w == Joined(parts)
  {
    w := [];
    for i := 0 to |parts|
      invariant w == Joined(parts[..i])
    {
      JoinedSnoc(parts[..i], parts[i]);
      assert parts[..i + 1] == parts[..i] + [parts[i]];
      w := if i == 0 then parts[i] else w + [Comma] + parts[i];
    }
    assert parts[..|parts|] == parts;
  }

  lemma {:induction false} JoinedPrints(src: Source, list: seq<Expr>)
    requires forall x :: x in list ==> Shippable(src, x)
    ensures Joined(PrintAll(src, list)) == FlatList(ToTrees(src, list))
  {
    if |list| > 1 {
      JoinedPrints(src, list[1..]);
      assert PrintAll(src, list)[1..] == PrintAll(src, list[1..]);
      assert ToTrees(src, list)[1..] == ToTrees(src, list[1..]);
    }
  }

  /** One token, in backticks on MySQL and in double quotes elsewhere. */
  predicate IsQuotedName(src: Source, w: Sql) {
    && |w| == 1 && w[0].Quoted? && |w[0].text| >= 2
    && w[0].text[0] == w[0].text[|w[0].text| - 1] == (if src == MySQL then '`' else '"')
  }

  lemma NamePrinted(src: Source, e: Expr)
    ensures e.Column? ==> Shippable(src, e) && IsQuotedName(src, Print(src, e))
  {
    hide Escape;
  }

  /** The SQL of a filter, if it can be converted. */
  method FilterExprToSql(filter: Expr, source: Source) returns (r: Option<Sql>)
    ensures r.Some? <==> Shippable(source, filter)
    ensures r.Some? ==> r.value == Print(source, filter)
    ensures filter.Column? ==> r.Some? && IsQuotedName(source, r.value)
  {
    NamePrinted(source, filter);
    var visitor := new FilterPushdownVisitor(source);
    var ok := visitor.Visit(filter);
    if !ok || |visitor.sqlExprs| != 1 {
      return None;
    }
    r := Some(visitor.sqlExprs[0]);
  }

  // ---------------------------------------------------------------------------------------------
  // Several filters
  // ---------------------------------------------------------------------------------------------

  function Conjunction(filters: seq<Expr>): Expr
    requires filters != []
  {
    var n := |filters| - 1;
    if n == 0 then filters[0] else BinaryExpr(And, Conjunction(filters[..n]), filters[n])
  }

  /** The conjunction of filters can be converted exactly when each of them can, so a scan never rejects
      filters that were accepted one by one. */
  lemma {:induction false} ConjunctionShippable(src: Source, filters: seq<Expr>)
    requires filters != []
    ensures Shippable(src, Conjunction(filters)) <==> forall i :: 0 <= i < |filters| ==> Shippable(src, filters[i])
  {
    var n := |filters| - 1;
    if n > 0 {
      ConjunctionShippable(src, filters[..n]);
      hide Shippable;
      assert Shippable(src, Conjunction(filters))
        <==> Shippable(src, Conjunction(filters[..n])) && Shippable(src, filters[n]) by {
        AndShippable(src, Conjunction(filters[..n]), filters[n]);
      }
      assert forall i :: 0 <= i < n ==> filters[..n][i] == filters[i];
    }
  }

  lemma AndShippable(src: Source, l: Expr, r: Expr)
    ensures Shippable(src, BinaryExpr(And, l, r)) <==> Shippable(src, l) && Shippable(src, r)
  {
  }
}
