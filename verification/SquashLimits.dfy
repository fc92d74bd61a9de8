/** Exactly which schemas the squashing is right for: at most one `Changed` column, and old and new
    key columns in the same order. For every other schema there is a message it gets wrong. */
module SquashLimits {
  import opened Tables
  import opened Schema
  import opened Squash
  import Chains

  function MakeCell(col: SyncColumn, o: map<string, int>, n: map<string, int>, flags: set<string>, val: int): Cell {
    match col.role
    case OldPk => if col.name in o then Val(o[col.name]) else Null
    case NewPk => if col.name in n then Val(n[col.name]) else Null
    case Changed => Val(if col.name in flags then 1 else 0)
    case Value => Val(val)
  }

  /** An UPDATE from key `o` to key `n` that sets every value column to `val`. */
  function MakeRow(s: SyncSchema, o: map<string, int>, n: map<string, int>, flags: set<string>,
                   val: int): (r: seq<Cell>)
    ensures |r| == |s|
    ensures forall c :: 0 <= c < |s| ==> r[c] == MakeCell(s[c], o, n, flags, val)
  {
    seq(|s|, c requires 0 <= c < |s| => MakeCell(s[c], o, n, flags, val))
  }

  lemma ClassifyPk(cells: map<string, Cell>, k: map<string, int>)
    requires cells.Keys == k.Keys && k != map[] && forall n :: n in k ==> cells[n] == Val(k[n])
    ensures Classify(cells) == Pk(k)
  {
    assert k.Keys != {};
    var n :| n in k.Keys;
    assert !cells[n].Null?;
    assert (map m | m in cells :: cells[m].v) == k;
  }

  lemma MadeKey(s: SyncSchema, role: ColumnRole, row: seq<Cell>, k: map<string, int>)
    requires |row| == |s| && k.Keys == Names(s, role) && k != map[]
    requires forall c :: 0 <= c < |s| && s[c].role == role && s[c].name in k ==> row[c] == Val(k[s[c].name])
    ensures KeyOf(s, role, row) == Pk(k)
  {
    var cells := NamedCells(s, role, row);
    forall n | n in k ensures cells[n] == Val(k[n]) {
      NameFound(s, n, role);
    }
    ClassifyPk(cells, k);
  }

  lemma MadeKeys(s: SyncSchema, o: map<string, int>, n: map<string, int>, flags: set<string>, val: int)
    requires Valid(s) && o.Keys == n.Keys == Names(s, OldPk)
    ensures KeyOf(s, OldPk, MakeRow(s, o, n, flags, val)) == Pk(o)
    ensures KeyOf(s, NewPk, MakeRow(s, o, n, flags, val)) == Pk(n)
  {
    MadeKey(s, OldPk, MakeRow(s, o, n, flags, val), o);
    MadeKey(s, NewPk, MakeRow(s, o, n, flags, val), n);
  }

  // ---------------------------------------------------------------------------------------------
  // Key columns in different orders
  // ---------------------------------------------------------------------------------------------

  lemma PosKeysDiffer(s: SyncSchema, x: string, k1: map<string, int>, row0: seq<Cell>, row1: seq<Cell>)
    requires Valid(s) && |row0| == |row1| == |s| && x in Names(s, OldPk)
    requires k1 == map n | n in Names(s, OldPk) :: if n == x then 1 else 0
    requires forall c :: 0 <= c < |s| && s[c].role == NewPk && s[c].name in k1 ==> row0[c] == Val(k1[s[c].name])
    requires forall c :: 0 <= c < |s| && s[c].role == OldPk && s[c].name in k1 ==> row1[c] == Val(k1[s[c].name])
    requires |PkNames(s, OldPk)| != |PkNames(s, NewPk)| ||
      exists i :: 0 <= i < |PkNames(s, OldPk)| && PkNames(s, OldPk)[i] == x && PkNames(s, NewPk)[i] != x
    ensures PosKey(s, NewPk, row0) != PosKey(s, OldPk, row1)
  {
    var p, q := PkNames(s, OldPk), PkNames(s, NewPk);
    if |p| == |q| {
      var i :| 0 <= i < |p| && p[i] == x && q[i] != x;
      var c, d := Columns(s, OldPk)[i], Columns(s, NewPk)[i];
      assert s[c].name in Names(s, OldPk) && s[d].name in Names(s, NewPk);
      assert PosKey(s, OldPk, row1)[i] == row1[c] == Val(1);
      assert PosKey(s, NewPk, row0)[i] == row0[d] == Val(0);
    }
  }

  lemma FirstRow(s: SyncSchema, rows: Batch)
    requires Shaped(s, rows) && rows != []
    ensures var newPk := PosKey(s, NewPk, rows[0]);
      FoldRows(s, rows, 1) == State([NewChain(s, 0)], {}, if AllNull(newPk) then map[] else map[newPk := 0])
  {
    assert FoldRows(s, rows, 0) == State([], {}, map[]);
    assert [] + [NewChain(s, 0)] == [NewChain(s, 0)];
  }

  lemma {:induction false} NoneTemporary(cs: seq<Change>)
    ensures Chains.Survivors(cs, {}) == cs
  {
    if cs != [] {
      NoneTemporary(cs[..|cs| - 1]);
    }
  }

  lemma MovesSeparate(s: SyncSchema, rows: Batch)
    requires Shaped(s, rows) && |rows| == 2
    requires PosKey(s, NewPk, rows[0]) != PosKey(s, OldPk, rows[1])
    ensures FoldRows(s, rows, 2).chains == [NewChain(s, 0), NewChain(s, 1)]
    ensures FoldRows(s, rows, 2).temp == {}
  {
    FirstRow(s, rows);
  }

  /** Two consecutive key moves of one row come out as two independent changes. */
  lemma MovesNotChained(s: SyncSchema, rows: Batch)
    requires Shaped(s, rows) && |rows| == 2
    requires PosKey(s, NewPk, rows[0]) != PosKey(s, OldPk, rows[1])
    ensures DecodeAll(s, SquashRows(s, rows)) == DecodeAll(s, rows)
  {
    hide Decode, OutRow, Columns;
    MovesSeparate(s, rows);
    var chains := [NewChain(s, 0), NewChain(s, 1)];
    NewChainChange(s, rows, 0);
    NewChainChange(s, rows, 1);
    OutRowsDecode(s, rows, chains, {}, DecodeAll(s, rows));
    NoneTemporary(DecodeAll(s, rows));
  }

  /** Key columns in different orders: a row is moved twice, and the second move is not recognised as
      going on from the first, since keys are compared position by position. */
  lemma OrderMatters(s: SyncSchema) returns (cols: set<string>, t: Table, rows: Batch)
    requires Valid(s) && PkNames(s, OldPk) != PkNames(s, NewPk)
    ensures WellFormed(s, cols, t, rows) && !Preserves(s, cols, t, rows)
  {
    hide KeyOf, PosKey, SquashRows, Columns, MoveRows, Names;
    var x := Misplaced(s);
    cols, t, rows := {}, map[Pk(AllOf(s, 0)) := map[]], MoveRows(s, x);
    MovedKeys(s, x);
    MovesNotChained(s, rows);
    TwoMoves(cols, t, DecodeAll(s, rows), Pk(AllOf(s, 0)), Pk(OnlyAt(s, x)), Pk(AllOf(s, 2)));
  }

  function AllOf(s: SyncSchema, v: int): map<string, int> {
    map n | n in Names(s, OldPk) :: v
  }

  function OnlyAt(s: SyncSchema, x: string): map<string, int> {
    map n | n in Names(s, OldPk) :: if n == x then 1 else 0
  }

  function MoveRows(s: SyncSchema, x: string): (rows: Batch)
    ensures |rows| == 2 && Shaped(s, rows)
  {
    [MakeRow(s, AllOf(s, 0), OnlyAt(s, x), {}, 0), MakeRow(s, OnlyAt(s, x), AllOf(s, 2), {}, 0)]
  }

  lemma MovedKeys(s: SyncSchema, x: string)
    requires Valid(s) && x in Names(s, OldPk)
    requires |PkNames(s, OldPk)| != |PkNames(s, NewPk)| ||
      exists i :: 0 <= i < |PkNames(s, OldPk)| && PkNames(s, OldPk)[i] == x && PkNames(s, NewPk)[i] != x
    ensures var rows := MoveRows(s, x);
      && PosKey(s, NewPk, rows[0]) != PosKey(s, OldPk, rows[1])
      && KeyOf(s, OldPk, rows[0]) == Pk(AllOf(s, 0)) && KeyOf(s, NewPk, rows[0]) == Pk(OnlyAt(s, x))
      && KeyOf(s, OldPk, rows[1]) == Pk(OnlyAt(s, x)) && KeyOf(s, NewPk, rows[1]) == Pk(AllOf(s, 2))
    ensures Pk(AllOf(s, 0)) != Pk(OnlyAt(s, x)) && Pk(OnlyAt(s, x)) != Pk(AllOf(s, 2))
    ensures Pk(AllOf(s, 0)) != Pk(AllOf(s, 2))
  {
    MadeKeys(s, AllOf(s, 0), OnlyAt(s, x), {}, 0);
    MadeKeys(s, OnlyAt(s, x), AllOf(s, 2), {}, 0);
    PosKeysDiffer(s, x, OnlyAt(s, x), MoveRows(s, x)[0], MoveRows(s, x)[1]);
    assert AllOf(s, 0)[x] == 0 && OnlyAt(s, x)[x] == 1 && AllOf(s, 2)[x] == 2;
  }

  /** The join leaves the row under the key of the first move. */
  lemma TwoMoves(cols: set<string>, t: Table, cs: seq<Change>, k0: Key, k1: Key, k2: Key)
    requires k0 != k1 && k1 != k2 && k0 != k2 && k0.Pk? && k1.Pk? && k2.Pk? && t.Keys == {k0}
    requires |cs| == 2 && cs[0].oldPk == k0 && cs[0].newPk == k1 && cs[1].oldPk == k1 && cs[1].newPk == k2
    ensures StreamOk(cols, t, cs)
    ensures var base := [Row(k0, t[k0])];
      Represents(multiset(base), t) && !Represents(multiset(ApplySync(cols, base, cs)), Replay(cols, t, cs))
  {
    var b := Row(k0, t[k0]);
    var x := Row(k1, Overlay(b.vals, cs[0].write));
    assert cs == [cs[0], cs[1]];
    TwoSteps(cols, t, cs[0], cs[1]);
    assert k1 !in Replay(cols, t, cs);
    OneRow(t, k0);
    FirstMatched(b, cs);
    InJoinLeft([b], cs, x);
    hide *;
    NotRepresented(cols, [b], cs, x, Replay(cols, t, cs));
  }

  lemma OneRow(t: Table, k: Key)
    requires t.Keys == {k}
    ensures Represents(multiset([Row(k, t[k])]), t)
  {
    var b := Row(k, t[k]);
    forall r: Row ensures multiset([b])[r] == if r.key in t && t[r.key] == r.vals then 1 else 0 {
      assert r == b <==> r.key in t && t[r.key] == r.vals;
    }
  }

  lemma FirstMatched(b: Row, cs: seq<Change>)
    requires cs != [] && Joins(b, cs[0]) && !Deletes(cs[0])
    ensures Row(cs[0].newPk, Overlay(b.vals, cs[0].write)) in JoinOne(b, cs)
  {
    hide Joins, Deletes;
    assert cs[0] in cs;
  }

  /** A row of the join that the table should not have. */
  lemma NotRepresented(cols: set<string>, base: seq<Row>, cs: seq<Change>, x: Row, r: Table)
    requires x in JoinLeft(base, cs) && !(x.key in r && r[x.key] == x.vals)
    ensures !Represents(multiset(ApplySync(cols, base, cs)), r)
  {
    hide JoinLeft, JoinRight;
    assert x in ApplySync(cols, base, cs);
    assert multiset(ApplySync(cols, base, cs))[x] > 0;
  }

  lemma TwoSteps(cols: set<string>, t: Table, c0: Change, c1: Change)
    ensures Replay(cols, t, [c0, c1]) == Step(cols, Step(cols, t, c0), c1)
    ensures StreamOk(cols, t, [c0, c1]) <==> StepOk(t, c0) && StepOk(Step(cols, t, c0), c1)
  {
    assert [c0, c1][..1] == [c0] && [c0][..0] == [];
    assert Replay(cols, t, []) == t && StreamOk(cols, t, []);
    assert Replay(cols, t, [c0]) == Step(cols, t, c0);
    assert StreamOk(cols, t, [c0]) <==> StepOk(t, c0);
  }

  lemma Misplaced(s: SyncSchema) returns (x: string)
    requires Valid(s) && PkNames(s, OldPk) != PkNames(s, NewPk)
    ensures x in Names(s, OldPk)
    ensures |PkNames(s, OldPk)| != |PkNames(s, NewPk)| ||
      exists i :: 0 <= i < |PkNames(s, OldPk)| && PkNames(s, OldPk)[i] == x && PkNames(s, NewPk)[i] != x
  {
    var p, q := PkNames(s, OldPk), PkNames(s, NewPk);
    if |p| != |q| {
      x :| x in Names(s, OldPk);
    } else {
      var i :| 0 <= i < |p| && p[i] != q[i];
      x := p[i];
      assert s[Columns(s, OldPk)[i]].name == x;
    }
  }

  // ---------------------------------------------------------------------------------------------
  // Several `Changed` columns
  // ---------------------------------------------------------------------------------------------

  lemma UpdatesChained(s: SyncSchema, rows: Batch)
    requires Shaped(s, rows) && |rows| == 2
    requires PosKey(s, NewPk, rows[0]) == PosKey(s, OldPk, rows[1])
    requires !AllNull(PosKey(s, NewPk, rows[0])) && !AllNull(PosKey(s, NewPk, rows[1]))
    ensures FoldRows(s, rows, 2).chains == [Extend(s, rows[1], 1, NewChain(s, 0))]
    ensures FoldRows(s, rows, 2).temp == {}
  {
    FirstRow(s, rows);
  }

  lemma SecondUpdateLost(s: SyncSchema, rows: Batch, b: string) returns (d: Change)
    requires Shaped(s, rows) && |rows| == 2
    requires PosKey(s, NewPk, rows[0]) == PosKey(s, OldPk, rows[1])
    requires !AllNull(PosKey(s, NewPk, rows[0])) && !AllNull(PosKey(s, NewPk, rows[1]))
    requires Columns(s, Changed) != [] && !IsTrue(rows[1][Columns(s, Changed)[0]])
    requires b in Names(s, Value) && Find(s, b, Changed) < |s| && !IsTrue(rows[0][Find(s, b, Changed)])
    ensures DecodeAll(s, SquashRows(s, rows)) == [d]
    ensures d.oldPk == KeyOf(s, OldPk, rows[0]) && d.newPk == KeyOf(s, NewPk, rows[1]) && b !in d.write
  {
    UpdatesChained(s, rows);
    var ch := Extend(s, rows[1], 1, NewChain(s, 0));
    assert ch.changed[0] == 0;
    d := ChainChange(s, rows, ch);
    ChainKeys(s, rows, ch);
    ChainWrites(s, rows, ch, b);
    OutRowsDecode(s, rows, [ch], {}, [d]);
    NoneTemporary([d]);
  }

  lemma UpdateLost(cols: set<string>, t: Table, cs: seq<Change>, d: Change, k: Key, b: string)
    requires k.Pk? && t == map[k := map[b := Val(0)]] && |cs| == 2
    requires forall c :: c in cs ==> c.oldPk == c.newPk == k
    requires d.oldPk == d.newPk == k && b !in d.write && b in cs[1].write && cs[1].write[b] != Val(0)
    ensures StreamOk(cols, t, cs)
    ensures var base := [Row(k, t[k])];
      Represents(multiset(base), t) && !Represents(multiset(ApplySync(cols, base, [d])), Replay(cols, t, cs))
  {
    var row := Row(k, t[k]);
    var x := Row(k, Overlay(row.vals, d.write));
    assert cs == [cs[0], cs[1]] && cs[0] in cs && cs[1] in cs;
    TwoSteps(cols, t, cs[0], cs[1]);
    assert x.vals[b] == Val(0);
    assert Replay(cols, t, cs)[k][b] == cs[1].write[b];
    OneRow(t, k);
    FirstMatched(row, [d]);
    InJoinLeft([row], [d], x);
    hide *;
    NotRepresented(cols, [row], [d], x, Replay(cols, t, cs));
  }

  function FlagRows(s: SyncSchema, a: string, b: string): (rows: Batch)
    ensures |rows| == 2 && Shaped(s, rows)
  {
    [MakeRow(s, AllOf(s, 0), AllOf(s, 0), {a}, 1), MakeRow(s, AllOf(s, 0), AllOf(s, 0), {b}, 2)]
  }

  lemma FlagKeys(s: SyncSchema, a: string, b: string)
    requires Valid(s) && PkNames(s, OldPk) == PkNames(s, NewPk)
    ensures var rows, k := FlagRows(s, a, b), Pk(AllOf(s, 0));
      && (forall c :: c in DecodeAll(s, rows) ==> c.oldPk == c.newPk == k)
      && KeyOf(s, OldPk, rows[0]) == k && KeyOf(s, NewPk, rows[1]) == k
      && PosKey(s, NewPk, rows[0]) == PosKey(s, OldPk, rows[1])
      && !AllNull(PosKey(s, NewPk, rows[0])) && !AllNull(PosKey(s, NewPk, rows[1]))
  {
    hide KeyOf, PosKey, Columns, Names, AllNull;
    var rows := FlagRows(s, a, b);
    MadeKeys(s, AllOf(s, 0), AllOf(s, 0), {a}, 1);
    MadeKeys(s, AllOf(s, 0), AllOf(s, 0), {b}, 2);
    KeysByPosition(s, OldPk, rows[1], NewPk, rows[0]);
    AbsentByPosition(s, NewPk, rows[0]);
    AbsentByPosition(s, NewPk, rows[1]);
  }

  lemma FlagCells(s: SyncSchema, a: string, b: string)
    requires Valid(s) && a != b && b in Names(s, Changed)
    requires Columns(s, Changed) != [] && a == s[Columns(s, Changed)[0]].name
    ensures var rows, f := FlagRows(s, a, b), Find(s, b, Changed);
      && b in Names(s, Value) && f < |s| && !IsTrue(rows[0][f]) && IsTrue(rows[1][f])
      && !IsTrue(rows[1][Columns(s, Changed)[0]])
      && Find(s, b, Value) < |s| && rows[1][Find(s, b, Value)] == Val(2)
  {
    NameFound(s, b, Changed);
    NameFound(s, b, Value);
  }

  /** An update of the first flagged column, then of the second: the second update is lost. */
  lemma OneFlagOnly(s: SyncSchema) returns (cols: set<string>, t: Table, rows: Batch)
    requires Valid(s) && PkNames(s, OldPk) == PkNames(s, NewPk) && |Columns(s, Changed)| > 1
    ensures WellFormed(s, cols, t, rows) && !Preserves(s, cols, t, rows)
  {
    var a, b := s[Columns(s, Changed)[0]].name, s[Columns(s, Changed)[1]].name;
    ColumnsAscend(s, Changed, 0, 1);
    assert a != b && b in Names(s, Changed);
    hide *;
    rows := FlagRows(s, a, b);
    FlagCells(s, a, b);
    FlagKeys(s, a, b);
    var d := SecondUpdateLost(s, rows, b);
    RowWrites(s, rows[1], b);
    cols, t := Breaks(s, rows, d, Pk(AllOf(s, 0)), b);
  }

  lemma Breaks(s: SyncSchema, rows: Batch, d: Change, k: Key, b: string) returns (cols: set<string>, t: Table)
    requires Shaped(s, rows) && |rows| == 2 && k.Pk?
    requires DecodeAll(s, SquashRows(s, rows)) == [d] && d.oldPk == d.newPk == k && b !in d.write
    requires forall c :: c in DecodeAll(s, rows) ==> c.oldPk == c.newPk == k
    requires b in Writes(s, rows[1]) && Writes(s, rows[1])[b] == Val(2)
    ensures WellFormed(s, cols, t, rows) && !Preserves(s, cols, t, rows)
  {
    hide SquashRows, KeyOf, Writes;
    cols, t := {b}, map[k := map[b := Val(0)]];
    UpdateLost(cols, t, DecodeAll(s, rows), d, k, b);
  }

  // ---------------------------------------------------------------------------------------------

  /** Squashing preserves the meaning of every well-formed message of a schema, over every table,
      exactly when the schema has at most one `Changed` column and lists old and new key columns in
      the same order. */
  lemma SquashSafeSchemas(s: SyncSchema)
    requires Valid(s)
    ensures Squashable(s) <==>
      forall cols, t, rows :: WellFormed(s, cols, t, rows) ==> Preserves(s, cols, t, rows)
  {
    if Squashable(s) {
      forall cols, t, rows | WellFormed(s, cols, t, rows) ensures Preserves(s, cols, t, rows) {
        MessagePreserved(s, cols, t, rows);
      }
    } else if PkNames(s, OldPk) != PkNames(s, NewPk) {
      var cols, t, rows := OrderMatters(s);
    } else {
      var cols, t, rows := OneFlagOnly(s);
    }
  }
}
