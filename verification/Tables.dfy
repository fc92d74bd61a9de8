/** Tables, change rows, and the two ways of applying changes to a table: the reference replay,
    one change at a time on a keyed table, and the full outer join of `apply_sync` on a bag of rows. */
module Tables {

  /** A nullable scalar. Only equality and order of scalars matter, so integers stand for all types. */
  datatype Cell = Null | Val(v: int)

  /** The primary key tuple of one side of a change: all columns NULL, all columns set, or (invalid,
      but representable) some of each. */
  datatype Key = NoPk | Pk(cols: map<string, int>) | Mixed(cells: map<string, Cell>)

  type Values = map<string, Cell>

  datatype Row = Row(key: Key, vals: Values)

  /** One decoded change row: the old and new primary keys, and the columns it overwrites. */
  datatype Change = Change(oldPk: Key, newPk: Key, write: Values)

  type Table = map<Key, Values>

  /** The written columns that the table has; columns the change does not write are inherited. */
  function Overlay(vals: Values, write: Values): Values {
    map n | n in vals :: if n in write then write[n] else vals[n]
  }

  function Nulls(cols: set<string>): Values {
    map n | n in cols :: Null
  }

  // ---------------------------------------------------------------------------------------------
  // Reference semantics: changes applied one at a time to a keyed table
  // ---------------------------------------------------------------------------------------------

  ghost predicate StepOk(t: Table, c: Change) {
    && (c.oldPk.NoPk? || c.oldPk.Pk?)
    && (c.newPk.NoPk? || c.newPk.Pk?)
    && !(c.oldPk.NoPk? && c.newPk.NoPk?)
    && (c.oldPk.NoPk? ==> c.newPk !in t)
    && (!c.oldPk.NoPk? ==> c.oldPk in t && (c.newPk == c.oldPk || c.newPk !in t))
  }

  /** The values the changed row ends up with. */
  function Effect(cols: set<string>, t: Table, c: Change): Values {
    if c.oldPk in t then Overlay(t[c.oldPk], c.write) else Overlay(Nulls(cols), c.write)
  }

  /** INSERT, UPDATE (possibly of the key) or DELETE of one row. */
  function Step(cols: set<string>, t: Table, c: Change): Table {
    if c.newPk.NoPk? then t - {c.oldPk}
    else (t - {c.oldPk})[c.newPk := Effect(cols, t, c)]
  }

  /** The row under the new key: in every column the value written, or else what the old row held, or NULL
      if there was no old row. All other rows stay, except the one under the old key. */
  lemma StepStores(cols: set<string>, t: Table, c: Change)
    ensures var t' := Step(cols, t, c);
      && (c.newPk.NoPk? || c.newPk in t')
      && (c.newPk in t' && !c.newPk.NoPk? ==>
            var row, found := t'[c.newPk], c.oldPk in t;
            && row.Keys == (if found then t[c.oldPk].Keys else cols)
            && forall n :: n in row ==>
                 row[n] == if n in c.write then c.write[n] else if found then t[c.oldPk][n] else Null)
      && (forall k :: k != c.newPk || k.NoPk? ==>
            (k in t' <==> k in t && k != c.oldPk) && (k in t' ==> t'[k] == t[k]))
  {
  }

  function Replay(cols: set<string>, t: Table, cs: seq<Change>): Table {
    if cs == [] then t
    else Step(cols, Replay(cols, t, cs[..|cs| - 1]), cs[|cs| - 1])
  }

  /** A well-formed stream inserts only free keys and updates or deletes only live ones. */
  ghost predicate StreamOk(cols: set<string>, t: Table, cs: seq<Change>) {
    cs == [] ||
    (&& StreamOk(cols, t, cs[..|cs| - 1])
     && StepOk(Replay(cols, t, cs[..|cs| - 1]), cs[|cs| - 1]))
  }

  lemma {:induction false} ReplayConcat(cols: set<string>, t: Table, a: seq<Change>, b: seq<Change>)
    ensures Replay(cols, t, a + b) == Replay(cols, Replay(cols, t, a), b)
    ensures StreamOk(cols, t, a + b)
       <==> StreamOk(cols, t, a) && StreamOk(cols, Replay(cols, t, a), b)
  {
    if b == [] {
      assert a + b == a;
    } else {
      var b' := b[..|b| - 1];
      ReplayConcat(cols, t, a, b');
      assert (a + b)[..|a + b| - 1] == a + b';
    }
  }

  // ---------------------------------------------------------------------------------------------
  // One batch applied to a keyed table at once
  // ---------------------------------------------------------------------------------------------

  /** At most one change per live key and per target key, and no target that stays occupied. */
  ghost predicate BatchOk(t: Table, batch: seq<Change>) {
    && (forall c :: c in batch ==> (c.oldPk.NoPk? || c.oldPk.Pk?) && (c.newPk.NoPk? || c.newPk.Pk?))
    && (forall c :: c in batch ==> !(c.oldPk.NoPk? && c.newPk.NoPk?))
    && (forall c :: c in batch && !c.oldPk.NoPk? ==> c.oldPk in t)
    && (forall i, j :: 0 <= i < j < |batch| && !batch[i].oldPk.NoPk? ==> batch[i].oldPk != batch[j].oldPk)
    && (forall i, j :: 0 <= i < j < |batch| && !batch[i].newPk.NoPk? ==> batch[i].newPk != batch[j].newPk)
    && (forall c :: c in batch && !c.newPk.NoPk? && c.newPk in t ==> Vacated(batch, c.newPk))
    && (forall k :: k in t ==> k.Pk?)
  }

  ghost predicate Vacated(batch: seq<Change>, k: Key) {
    exists c :: c in batch && c.oldPk == k
  }

  ghost predicate Produced(batch: seq<Change>, k: Key) {
    exists c :: c in batch && c.newPk == k && !k.NoPk?
  }

  /** What the table should become: untouched rows stay, every surviving change lands on its new key. */
  ghost predicate IsApplied(cols: set<string>, t: Table, batch: seq<Change>, r: Table) {
    && (forall k :: k in r <==> Produced(batch, k) || (k in t && !Vacated(batch, k)))
    && (forall c :: c in batch && !c.newPk.NoPk? ==> c.newPk in r && r[c.newPk] == Effect(cols, t, c))
    && (forall k :: k in t && !Vacated(batch, k) ==> k in r && r[k] == t[k])
  }

  // ---------------------------------------------------------------------------------------------
  // `apply_sync`: a full outer join of a bag of table rows with the change rows, on the old key
  // ---------------------------------------------------------------------------------------------

  /** SQL equality of the key columns: a NULL on either side never joins. */
  predicate Joins(b: Row, c: Change) {
    c.oldPk.Pk? && b.key == c.oldPk
  }

  /** The filter on the join output removes deletes. */
  predicate Deletes(c: Change) {
    !c.oldPk.NoPk? && c.newPk.NoPk?
  }

  predicate Hit(b: Row, batch: seq<Change>) {
    exists c :: c in batch && Joins(b, c)
  }

  /** The joined pairs of one table row, filtered and projected. */
  function Matched(b: Row, batch: seq<Change>): seq<Row> {
    if batch == [] then []
    else
      (if Joins(b, batch[0]) && !Deletes(batch[0])
       then [Row(batch[0].newPk, Overlay(b.vals, batch[0].write))] else [])
      + Matched(b, batch[1..])
  }

  function JoinOne(b: Row, batch: seq<Change>): seq<Row> {
    if Hit(b, batch) then Matched(b, batch) else [b]
  }

  function JoinLeft(base: seq<Row>, batch: seq<Change>): seq<Row> {
    if base == [] then [] else JoinOne(base[0], batch) + JoinLeft(base[1..], batch)
  }

  predicate Finds(base: seq<Row>, c: Change) {
    exists b :: b in base && Joins(b, c)
  }

  /** A change row without a table row. When both keys are NULL the projection inherits the missing
      table row, so every column is NULL. */
  function Unjoined(cols: set<string>, c: Change): Row {
    if c.oldPk.NoPk? && c.newPk.NoPk? then Row(c.newPk, Nulls(cols))
    else Row(c.newPk, Overlay(Nulls(cols), c.write))
  }

  function JoinRight(cols: set<string>, base: seq<Row>, batch: seq<Change>): seq<Row> {
    if batch == [] then []
    else
      (if Finds(base, batch[0]) || Deletes(batch[0]) then [] else [Unjoined(cols, batch[0])])
      + JoinRight(cols, base, batch[1..])
  }

  function ApplySync(cols: set<string>, base: seq<Row>, batch: seq<Change>): seq<Row> {
    JoinLeft(base, batch) + JoinRight(cols, base, batch)
  }

  function ApplyAll(cols: set<string>, base: seq<Row>, batches: seq<seq<Change>>): seq<Row> {
    if batches == [] then base
    else ApplySync(cols, ApplyAll(cols, base, batches[..|batches| - 1]), batches[|batches| - 1])
  }

  // ---------------------------------------------------------------------------------------------
  // The join is a function of the bag
  // ---------------------------------------------------------------------------------------------

  lemma {:induction false} JoinLeftConcat(a: seq<Row>, b: seq<Row>, batch: seq<Change>)
    ensures JoinLeft(a + b, batch) == JoinLeft(a, batch) + JoinLeft(b, batch)
  {
    hide JoinOne;
    if a == [] {
      assert a + b == b;
    } else {
      JoinLeftConcat(a[1..], b, batch);
      assert (a + b)[1..] == a[1..] + b;
    }
  }

  lemma {:induction false} JoinLeftBag(a: seq<Row>, b: seq<Row>, batch: seq<Change>)
    requires multiset(a) == multiset(b)
    ensures multiset(JoinLeft(a, batch)) == multiset(JoinLeft(b, batch))
  {
    hide *;
    if a == [] {
      assert |multiset(b)| == 0;
      assert b == a;
    } else {
      var j := SameFirst(a, b);
      JoinLeftBag(a[1..], b[..j] + b[j + 1..], batch);
      JoinLeftMoved(b, j, batch);
      JoinLeftCons(a, batch);
    }
  }

  lemma WithoutFirst(a: seq<Row>)
    requires a != []
    ensures multiset(a) == multiset{a[0]} + multiset(a[1..])
  {
    hide *;
    assert a == [a[0]] + a[1..];
  }

  lemma WithoutOne(b: seq<Row>, j: nat)
    requires j < |b|
    ensures multiset(b) == multiset{b[j]} + multiset(b[..j] + b[j + 1..])
  {
    hide *;
    assert b == b[..j] + [b[j]] + b[j + 1..];
  }

  /** A row of `a` is found in `b`; without it the rest is still the same bag. */
  lemma SameFirst(a: seq<Row>, b: seq<Row>) returns (j: nat)
    requires a != [] && multiset(a) == multiset(b)
    ensures j < |b| && b[j] == a[0] && multiset(a[1..]) == multiset(b[..j] + b[j + 1..])
  {
    hide *;
    WithoutFirst(a);
    assert a[0] in multiset(b);
    j :| 0 <= j < |b| && b[j] == a[0];
    WithoutOne(b, j);
    SameRest(a[0], multiset(a[1..]), multiset(b[..j] + b[j + 1..]));
  }

  lemma SameRest(r: Row, m: multiset<Row>, n: multiset<Row>)
    requires multiset{r} + m == multiset{r} + n
    ensures m == n
  {
    hide *;
    assert m == (multiset{r} + m) - multiset{r} && n == (multiset{r} + n) - multiset{r};
  }

  lemma JoinLeftCons(a: seq<Row>, batch: seq<Change>)
    requires a != []
    ensures multiset(JoinLeft(a, batch)) == multiset(JoinOne(a[0], batch)) + multiset(JoinLeft(a[1..], batch))
  {
    hide JoinOne;
  }

  lemma JoinLeftMoved(b: seq<Row>, j: nat, batch: seq<Change>)
    requires j < |b|
    ensures multiset(JoinLeft(b, batch))
         == multiset(JoinOne(b[j], batch)) + multiset(JoinLeft(b[..j] + b[j + 1..], batch))
  {
    hide *;
    assert b == b[..j] + b[j..] && b[j..][1..] == b[j + 1..];
    JoinLeftConcat(b[..j], b[j..], batch);
    JoinLeftCons(b[j..], batch);
    JoinLeftConcat(b[..j], b[j + 1..], batch);
  }

  lemma {:induction false} JoinRightSame(cols: set<string>, a: seq<Row>, b: seq<Row>, batch: seq<Change>)
    requires forall c :: c in batch ==> (Finds(a, c) <==> Finds(b, c))
    ensures JoinRight(cols, a, batch) == JoinRight(cols, b, batch)
  {
    if batch != [] {
      assert batch[0] in batch;
      JoinRightSame(cols, a, b, batch[1..]);
    }
  }

  lemma ApplySyncBag(cols: set<string>, a: seq<Row>, b: seq<Row>, batch: seq<Change>)
    requires multiset(a) == multiset(b)
    ensures multiset(ApplySync(cols, a, batch)) == multiset(ApplySync(cols, b, batch))
  {
    JoinLeftBag(a, b, batch);
    forall c | c in batch
      ensures Finds(a, c) <==> Finds(b, c)
    {
      assert forall r :: r in a <==> r in multiset(a);
      assert forall r :: r in b <==> r in multiset(b);
    }
    JoinRightSame(cols, a, b, batch);
  }

  lemma {:induction false} ApplyAllBag(cols: set<string>, a: seq<Row>, b: seq<Row>, batches: seq<seq<Change>>)
    requires multiset(a) == multiset(b)
    ensures multiset(ApplyAll(cols, a, batches)) == multiset(ApplyAll(cols, b, batches))
  {
    if batches != [] {
      var init := batches[..|batches| - 1];
      ApplyAllBag(cols, a, b, init);
      ApplySyncBag(cols, ApplyAll(cols, a, init), ApplyAll(cols, b, init), batches[|batches| - 1]);
    }
  }

  lemma {:induction false} ApplyAllConcat(cols: set<string>, base: seq<Row>, a: seq<seq<Change>>, b: seq<seq<Change>>)
    ensures ApplyAll(cols, base, a + b) == ApplyAll(cols, ApplyAll(cols, base, a), b)
  {
    if b == [] {
      assert a + b == a;
    } else {
      ApplyAllConcat(cols, base, a, b[..|b| - 1]);
      assert (a + b)[..|a + b| - 1] == a + b[..|b| - 1];
    }
  }

  // ---------------------------------------------------------------------------------------------
  // Rows that no change refers to pass through every join untouched
  // ---------------------------------------------------------------------------------------------

  ghost predicate Untouched(rows: seq<Row>, batches: seq<seq<Change>>) {
    forall r, i, c :: r in rows && 0 <= i < |batches| && c in batches[i] ==> !Joins(r, c)
  }

  lemma {:induction false} JoinLeftUntouched(rows: seq<Row>, batch: seq<Change>)
    requires forall r, c :: r in rows && c in batch ==> !Joins(r, c)
    ensures JoinLeft(rows, batch) == rows
  {
    if rows != [] {
      assert rows[0] in rows;
      assert !Hit(rows[0], batch);
      JoinLeftUntouched(rows[1..], batch);
    }
  }

  lemma ApplySyncFrame(cols: set<string>, touched: seq<Row>, rest: seq<Row>, batch: seq<Change>)
    requires forall r, c :: r in rest && c in batch ==> !Joins(r, c)
    ensures multiset(ApplySync(cols, touched + rest, batch))
         == multiset(ApplySync(cols, touched, batch) + rest)
  {
    JoinLeftConcat(touched, rest, batch);
    JoinLeftUntouched(rest, batch);
    forall c | c in batch
      ensures Finds(touched + rest, c) <==> Finds(touched, c)
    {
      if Finds(touched, c) {
        var b :| b in touched && Joins(b, c);
        assert b in touched + rest;
      }
    }
    JoinRightSame(cols, touched + rest, touched, batch);
  }

  /** Rewriting only part of a table gives the same bag as rewriting all of it, for any changes
      whatever, as long as the part left alone holds no row that a change joins with. */
  lemma {:induction false} ApplyAllFrame(cols: set<string>, touched: seq<Row>, rest: seq<Row>,
                                         batches: seq<seq<Change>>)
    requires Untouched(rest, batches)
    ensures multiset(ApplyAll(cols, touched + rest, batches))
         == multiset(ApplyAll(cols, touched, batches) + rest)
  {
    if batches != [] {
      var init, last := batches[..|batches| - 1], batches[|batches| - 1];
      forall r, i, c | r in rest && 0 <= i < |init| && c in init[i]
        ensures !Joins(r, c)
      {
        assert init[i] == batches[i];
      }
      ApplyAllFrame(cols, touched, rest, init);
      var mid := ApplyAll(cols, touched, init);
      ApplySyncBag(cols, ApplyAll(cols, touched + rest, init), mid + rest, last);
      ApplySyncFrame(cols, mid, rest, last);
    }
  }

  // ---------------------------------------------------------------------------------------------
  // On well-formed batches the join computes the keyed table
  // ---------------------------------------------------------------------------------------------

  /** The bag holds exactly the rows of the keyed table, each once. */
  ghost predicate Represents(m: multiset<Row>, t: Table) {
    forall r :: m[r] == if r.key in t && t[r.key] == r.vals then 1 else 0
  }

  ghost predicate DistinctKeys(s: seq<Row>) {
    forall i, j :: 0 <= i < j < |s| ==> s[i].key != s[j].key
  }

  ghost predicate HoldsRows(s: seq<Row>, t: Table) {
    forall r :: r in s <==> r.key in t && t[r.key] == r.vals
  }

  lemma {:induction false} CountOfDistinct(s: seq<Row>, r: Row)
    requires DistinctKeys(s)
    ensures multiset(s)[r] == if r in s then 1 else 0
  {
    if s != [] {
      var n := |s| - 1;
      assert s == s[..n] + [s[n]];
      CountOfDistinct(s[..n], r);
    }
  }

  lemma DistinctRepresents(s: seq<Row>, t: Table)
    requires DistinctKeys(s) && HoldsRows(s, t)
    ensures Represents(multiset(s), t)
  {
    forall r ensures multiset(s)[r] == if r.key in t && t[r.key] == r.vals then 1 else 0 {
      CountOfDistinct(s, r);
    }
  }

  lemma {:induction false} TwoInSeq(s: seq<Row>, i: nat, j: nat)
    requires i < j < |s|
    ensures multiset(s) >= multiset{s[i], s[j]}
  {
    assert s == s[..i] + [s[i]] + s[i + 1..j] + [s[j]] + s[j + 1..];
  }

  lemma RepresentedIsDistinct(s: seq<Row>, t: Table)
    requires Represents(multiset(s), t)
    ensures DistinctKeys(s) && HoldsRows(s, t)
  {
    assert HoldsRows(s, t) by {
      forall r ensures r in s <==> r.key in t && t[r.key] == r.vals {
        assert r in s <==> multiset(s)[r] > 0;
      }
    }
    forall i, j | 0 <= i < j < |s|
      ensures s[i].key != s[j].key
    {
      TwoInSeq(s, i, j);
      assert s[i] in s && s[j] in s;
      assert multiset(s)[s[i]] <= 1;
      assert s[i] == s[j] ==> multiset(s)[s[i]] >= 2;
    }
  }

  lemma {:induction false} InMatched(b: Row, batch: seq<Change>, r: Row)
    ensures r in Matched(b, batch) <==>
            exists c :: c in batch && Joins(b, c) && !Deletes(c) && r == Row(c.newPk, Overlay(b.vals, c.write))
  {
    if batch != [] {
      InMatched(b, batch[1..], r);
      assert forall c :: c in batch <==> c == batch[0] || c in batch[1..];
    }
  }

  lemma {:induction false} MatchedNothing(b: Row, batch: seq<Change>)
    requires forall c :: c in batch ==> !Joins(b, c)
    ensures Matched(b, batch) == []
  {
    if batch != [] {
      assert batch[0] in batch;
      MatchedNothing(b, batch[1..]);
    }
  }

  lemma {:induction false} MatchedOnce(b: Row, batch: seq<Change>)
    requires forall i, j :: 0 <= i < j < |batch| && !batch[i].oldPk.NoPk? ==> batch[i].oldPk != batch[j].oldPk
    ensures |Matched(b, batch)| <= 1
  {
    if batch != [] {
      var rest := batch[1..];
      assert forall i, j :: 0 <= i < j < |rest| && !rest[i].oldPk.NoPk? ==> rest[i].oldPk != rest[j].oldPk by {
        forall i, j | 0 <= i < j < |rest| && !rest[i].oldPk.NoPk?
          ensures rest[i].oldPk != rest[j].oldPk
        {
          assert rest[i] == batch[i + 1] && rest[j] == batch[j + 1];
        }
      }
      MatchedOnce(b, rest);
      if Joins(b, batch[0]) {
        forall c | c in rest
          ensures !Joins(b, c)
        {
          var j :| 0 <= j < |rest| && rest[j] == c;
          assert batch[j + 1] == c;
        }
        MatchedNothing(b, rest);
      }
    }
  }

  lemma {:induction false} InJoinLeft(base: seq<Row>, batch: seq<Change>, r: Row)
    ensures r in JoinLeft(base, batch) <==> exists b :: b in base && r in JoinOne(b, batch)
  {
    if base != [] {
      InJoinLeft(base[1..], batch, r);
      assert forall b :: b in base <==> b == base[0] || b in base[1..];
    }
  }

  lemma {:induction false} InJoinRight(cols: set<string>, base: seq<Row>, batch: seq<Change>, r: Row)
    ensures r in JoinRight(cols, base, batch) <==>
            exists c :: c in batch && !Finds(base, c) && !Deletes(c) && r == Unjoined(cols, c)
  {
    if batch != [] {
      InJoinRight(cols, base, batch[1..], r);
      assert forall c :: c in batch <==> c == batch[0] || c in batch[1..];
    }
  }

  /** Where a joined row comes from: an untouched table row, or the one change that joins with it. */
  lemma JoinedFrom(b: Row, batch: seq<Change>, r: Row) returns (c: Change)
    requires Hit(b, batch) && r in JoinOne(b, batch)
    ensures c in batch && Joins(b, c) && !c.newPk.NoPk? && r == Row(c.newPk, Overlay(b.vals, c.write))
  {
    InMatched(b, batch, r);
    c :| c in batch && Joins(b, c) && !Deletes(c) && r == Row(c.newPk, Overlay(b.vals, c.write));
  }

  lemma NewKeysApart(t: Table, batch: seq<Change>, c: Change, d: Change)
    requires BatchOk(t, batch) && c in batch && d in batch && c != d && !c.newPk.NoPk?
    ensures c.newPk != d.newPk
  {
    var i :| 0 <= i < |batch| && batch[i] == c;
    var j :| 0 <= j < |batch| && batch[j] == d;
    assert i < j || j < i;
  }

  lemma UntouchedApart(t: Table, batch: seq<Change>, b: Row, c: Change)
    requires BatchOk(t, batch) && b.key in t && !Hit(b, batch) && c in batch && !c.newPk.NoPk?
    ensures b.key != c.newPk
  {
    forall d | d in batch ensures d.oldPk != b.key { assert !Joins(b, d); }
    assert !Vacated(batch, b.key);
  }

  lemma {:induction false} JoinLeftDistinct(base: seq<Row>, t: Table, batch: seq<Change>)
    requires DistinctKeys(base) && BatchOk(t, batch)
    requires forall b :: b in base ==> b.key in t
    ensures DistinctKeys(JoinLeft(base, batch))
  {
    if base != [] {
      var b0, rest := base[0], base[1..];
      JoinLeftDistinct(rest, t, batch);
      MatchedOnce(b0, batch);
      var one := JoinOne(b0, batch);
      forall x, y | y in one && x in JoinLeft(rest, batch)
        ensures x.key != y.key
      {
        JoinLeftApart(base, t, batch, x, y);
      }
      DistinctConcat(one, JoinLeft(rest, batch));
    }
  }

  lemma JoinLeftApart(base: seq<Row>, t: Table, batch: seq<Change>, x: Row, y: Row)
    requires base != [] && DistinctKeys(base) && BatchOk(t, batch)
    requires forall b :: b in base ==> b.key in t
    requires y in JoinOne(base[0], batch) && x in JoinLeft(base[1..], batch)
    ensures x.key != y.key
  {
    var b0 := base[0];
    InJoinLeft(base[1..], batch, x);
    var b1 :| b1 in base[1..] && x in JoinOne(b1, batch);
    var j :| 0 <= j < |base[1..]| && base[1..][j] == b1;
    assert base[j + 1] == b1;
    assert b0 in base && b1 in base;
    if Hit(b0, batch) {
      var c := JoinedFrom(b0, batch, y);
      if Hit(b1, batch) {
        var d := JoinedFrom(b1, batch, x);
        NewKeysApart(t, batch, c, d);
      } else {
        UntouchedApart(t, batch, b1, c);
      }
    } else if Hit(b1, batch) {
      var d := JoinedFrom(b1, batch, x);
      UntouchedApart(t, batch, b0, d);
    }
  }

  lemma DistinctConcat(a: seq<Row>, b: seq<Row>)
    requires DistinctKeys(a) && DistinctKeys(b)
    requires forall x, y :: y in a && x in b ==> x.key != y.key
    ensures DistinctKeys(a + b)
  {
    var s := a + b;
    forall i, j | 0 <= i < j < |s|
      ensures s[i].key != s[j].key
    {
      if i < |a| && |a| <= j {
        assert s[i] in a && s[j] in b;
      } else if |a| <= i {
        assert s[i] == b[i - |a|] && s[j] == b[j - |a|];
      }
    }
  }

  lemma {:induction false} JoinRightDistinct(cols: set<string>, base: seq<Row>, batch: seq<Change>)
    requires forall c :: c in batch && !Deletes(c) ==> !c.newPk.NoPk?
    requires forall i, j :: 0 <= i < j < |batch| && !batch[i].newPk.NoPk? ==> batch[i].newPk != batch[j].newPk
    ensures DistinctKeys(JoinRight(cols, base, batch))
  {
    hide Finds, Deletes, Unjoined;
    if batch != [] {
      var rest := batch[1..];
      forall i, j | 0 <= i < j < |rest| && !rest[i].newPk.NoPk? ensures rest[i].newPk != rest[j].newPk {
        assert rest[i] == batch[i + 1] && rest[j] == batch[j + 1];
      }
      JoinRightDistinct(cols, base, rest);
      assert batch[0] in batch;
      forall x | x in JoinRight(cols, base, rest) && !Deletes(batch[0])
        ensures x.key != batch[0].newPk
      {
        InJoinRight(cols, base, rest, x);
        var c :| c in rest && x == Unjoined(cols, c);
        var j :| 0 <= j < |rest| && rest[j] == c;
        UnjoinedKey(cols, rest[j]);
        assert batch[j + 1] == rest[j];
      }
      UnjoinedKey(cols, batch[0]);
    }
  }

  lemma UnjoinedKey(cols: set<string>, c: Change)
    ensures Unjoined(cols, c).key == c.newPk
  {
  }

  /** In a well-formed batch over the bag of a keyed table, only inserts find no table row. */
  lemma UnfoundIsInsert(base: seq<Row>, t: Table, batch: seq<Change>, c: Change)
    requires HoldsRows(base, t) && BatchOk(t, batch) && c in batch
    ensures Finds(base, c) <==> !c.oldPk.NoPk?
    ensures !Finds(base, c) ==> c.oldPk !in t && !c.newPk.NoPk?
  {
    if !c.oldPk.NoPk? {
      assert Row(c.oldPk, t[c.oldPk]) in base && Joins(Row(c.oldPk, t[c.oldPk]), c);
    } else {
      forall b | b in base
        ensures !Joins(b, c) {}
    }
  }

  lemma AppliedRow(cols: set<string>, base: seq<Row>, t: Table, batch: seq<Change>, r: Table, x: Row)
    requires HoldsRows(base, t) && BatchOk(t, batch) && IsApplied(cols, t, batch, r)
    requires x in ApplySync(cols, base, batch)
    ensures x.key in r && r[x.key] == x.vals
  {
    if x in JoinLeft(base, batch) {
      InJoinLeft(base, batch, x);
      var b :| b in base && x in JoinOne(b, batch);
      if Hit(b, batch) {
        var c := JoinedFrom(b, batch, x);
      } else {
        forall c | c in batch && c.oldPk == b.key ensures Joins(b, c) {}
        assert !Vacated(batch, b.key);
      }
    } else {
      InJoinRight(cols, base, batch, x);
      var c :| c in batch && !Finds(base, c) && !Deletes(c) && x == Unjoined(cols, c);
      UnfoundIsInsert(base, t, batch, c);
    }
  }

  lemma RowApplied(cols: set<string>, base: seq<Row>, t: Table, batch: seq<Change>, r: Table, x: Row)
    requires HoldsRows(base, t) && BatchOk(t, batch) && IsApplied(cols, t, batch, r)
    requires x.key in r && r[x.key] == x.vals
    ensures x in ApplySync(cols, base, batch)
  {
    if Produced(batch, x.key) {
      var c :| c in batch && c.newPk == x.key && !x.key.NoPk?;
      UnfoundIsInsert(base, t, batch, c);
      if Finds(base, c) {
        var b := Row(c.oldPk, t[c.oldPk]);
        assert b in base && Joins(b, c) && !Deletes(c);
        assert Hit(b, batch);
        InMatched(b, batch, x);
        InJoinLeft(base, batch, x);
      } else {
        InJoinRight(cols, base, batch, x);
      }
    } else {
      assert x in base;
      assert !Hit(x, batch);
      assert x in JoinOne(x, batch);
      InJoinLeft(base, batch, x);
    }
  }

  /** The full outer join, run on the bag of a keyed table, yields the bag of the updated table. */
  lemma ApplySyncRepresents(cols: set<string>, base: seq<Row>, t: Table, batch: seq<Change>, r: Table)
    requires Represents(multiset(base), t) && BatchOk(t, batch) && IsApplied(cols, t, batch, r)
    ensures Represents(multiset(ApplySync(cols, base, batch)), r)
  {
    RepresentedIsDistinct(base, t);
    forall b | b in base ensures b.key in t {}
    JoinLeftDistinct(base, t, batch);
    JoinRightDistinct(cols, base, batch);
    forall x, y | y in JoinLeft(base, batch) && x in JoinRight(cols, base, batch)
      ensures x.key != y.key
    {
      LeftRightApart(cols, base, t, batch, x, y);
    }
    DistinctConcat(JoinLeft(base, batch), JoinRight(cols, base, batch));
    var s := ApplySync(cols, base, batch);
    forall x ensures x in s <==> x.key in r && r[x.key] == x.vals {
      if x in s {
        AppliedRow(cols, base, t, batch, r, x);
      }
      if x.key in r && r[x.key] == x.vals {
        RowApplied(cols, base, t, batch, r, x);
      }
    }
    DistinctRepresents(s, r);
  }

  lemma LeftRightApart(cols: set<string>, base: seq<Row>, t: Table, batch: seq<Change>, x: Row, y: Row)
    requires HoldsRows(base, t) && BatchOk(t, batch)
    requires y in JoinLeft(base, batch) && x in JoinRight(cols, base, batch)
    ensures x.key != y.key
  {
    InJoinLeft(base, batch, y);
    InJoinRight(cols, base, batch, x);
    var b :| b in base && y in JoinOne(b, batch);
    var c :| c in batch && !Finds(base, c) && !Deletes(c) && x == Unjoined(cols, c);
    UnfoundIsInsert(base, t, batch, c);
    if Hit(b, batch) {
      var d := JoinedFrom(b, batch, y);
      assert Finds(base, d);
      NewKeysApart(t, batch, c, d);
    } else {
      UntouchedApart(t, batch, b, c);
    }
  }

  /** An insert is appended whether or not its key is already in the table. */
  lemma InsertAppends(cols: set<string>, base: seq<Row>, c: Change)
    requires c.oldPk.NoPk?
    ensures ApplySync(cols, base, [c]) == base + [Unjoined(cols, c)]
  {
    JoinLeftUntouched(base, [c]);
    assert !Finds(base, c);
    assert JoinRight(cols, base, []) == [];
    assert [c][1..] == [];
  }

  /** How many rows have no key. */
  function Keyless(rows: seq<Row>): nat {
    if rows == [] then 0 else (if rows[0].key.NoPk? then 1 else 0) + Keyless(rows[1..])
  }

  /** How many changes have no key on either side. */
  function BothNull(batch: seq<Change>): nat {
    if batch == [] then 0
    else (if batch[0].oldPk.NoPk? && batch[0].newPk.NoPk? then 1 else 0) + BothNull(batch[1..])
  }

  lemma {:induction false} KeylessConcat(a: seq<Row>, b: seq<Row>)
    ensures Keyless(a + b) == Keyless(a) + Keyless(b)
  {
    if a == [] {
      assert a + b == b;
    } else {
      assert (a + b)[1..] == a[1..] + b;
      KeylessConcat(a[1..], b);
    }
  }

  lemma {:induction false} MatchedKeyed(b: Row, batch: seq<Change>)
    ensures Keyless(Matched(b, batch)) == 0
  {
    if batch != [] {
      var c := batch[0];
      var here := if Joins(b, c) && !Deletes(c) then [Row(c.newPk, Overlay(b.vals, c.write))] else [];
      MatchedKeyed(b, batch[1..]);
      KeylessConcat(here, Matched(b, batch[1..]));
      if here != [] {
        assert here[1..] == [];
      }
    }
  }

  lemma {:induction false} JoinLeftKeyless(base: seq<Row>, batch: seq<Change>)
    ensures Keyless(JoinLeft(base, batch)) == Keyless(base)
  {
    if base != [] {
      var b := base[0];
      JoinLeftKeyless(base[1..], batch);
      KeylessConcat(JoinOne(b, batch), JoinLeft(base[1..], batch));
      MatchedKeyed(b, batch);
      assert [b][1..] == [];
      assert Hit(b, batch) ==> b.key.Pk?;
    }
  }

  lemma {:induction false} JoinRightKeyless(cols: set<string>, base: seq<Row>, batch: seq<Change>)
    ensures Keyless(JoinRight(cols, base, batch)) == BothNull(batch)
  {
    if batch != [] {
      var c := batch[0];
      var here := if Finds(base, c) || Deletes(c) then [] else [Unjoined(cols, c)];
      JoinRightKeyless(cols, base, batch[1..]);
      KeylessConcat(here, JoinRight(cols, base, batch[1..]));
      if here != [] {
        assert here[1..] == [];
      }
    }
  }

  /** Changes with no key on either side are not skipped: each of them, and nothing else, adds a row
      without a key. So a sync adds no such row if and only if it has no such change. */
  lemma KeylessAdded(cols: set<string>, base: seq<Row>, batch: seq<Change>)
    ensures Keyless(ApplySync(cols, base, batch)) == Keyless(base) + BothNull(batch)
    ensures Keyless(ApplySync(cols, base, batch)) == Keyless(base) <==>
      forall i :: 0 <= i < |batch| ==> !(batch[i].oldPk.NoPk? && batch[i].newPk.NoPk?)
  {
    JoinLeftKeyless(base, batch);
    JoinRightKeyless(cols, base, batch);
    KeylessConcat(JoinLeft(base, batch), JoinRight(cols, base, batch));
    NoneBothNull(batch);
  }

  lemma {:induction false} NoneBothNull(batch: seq<Change>)
    ensures BothNull(batch) == 0 <==> forall i :: 0 <= i < |batch| ==> !(batch[i].oldPk.NoPk? && batch[i].newPk.NoPk?)
  {
    if batch != [] {
      NoneBothNull(batch[1..]);
      assert forall i :: 0 < i < |batch| ==> batch[i] == batch[1..][i - 1];
    }
  }

  /** The row that such a change adds is NULL in every column. */
  lemma NullKeysAddNullRow(cols: set<string>, base: seq<Row>, c: Change)
    requires c.oldPk.NoPk? && c.newPk.NoPk?
    ensures ApplySync(cols, base, [c]) == base + [Row(c.newPk, Nulls(cols))]
  {
    InsertAppends(cols, base, c);
  }
}
