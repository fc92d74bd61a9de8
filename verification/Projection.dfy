/** What `apply_sync` stores, cell by cell: the join of table rows with the rows of a message, in terms of
    the cells of both. */
module Projection {
  import opened Tables
  import opened Schema

  // ---------------------------------------------------------------------------------------------
  // Keys by their cells
  // ---------------------------------------------------------------------------------------------

  function CellOf(s: SyncSchema, role: ColumnRole, row: seq<Cell>, name: string): Cell
    requires |row| == |s| && name in Names(s, role)
  {
    NameFound(s, name, role);
    row[Find(s, name, role)]
  }

  /** Every key column on this side is NULL. */
  ghost predicate NoKey(s: SyncSchema, role: ColumnRole, row: seq<Cell>)
    requires |row| == |s|
  {
    forall n :: n in Names(s, role) ==> CellOf(s, role, row, n) == Null
  }

  /** No key column on this side is NULL, and these are their values. */
  ghost predicate HasKeyCells(s: SyncSchema, role: ColumnRole, row: seq<Cell>, key: map<string, int>)
    requires |row| == |s|
  {
    && key.Keys == Names(s, role) != {}
    && forall n :: n in Names(s, role) ==> CellOf(s, role, row, n) == Val(key[n])
  }

  lemma KeyCells(s: SyncSchema, role: ColumnRole, row: seq<Cell>)
    requires |row| == |s|
    ensures KeyOf(s, role, row).NoPk? <==> NoKey(s, role, row)
    ensures forall key :: KeyOf(s, role, row) == Pk(key) <==> HasKeyCells(s, role, row, key)
  {
    hide Names, Find, Classify;
    var cells := NamedCells(s, role, row);
    assert forall n :: n in Names(s, role) ==> cells[n] == CellOf(s, role, row, n);
    ClassifyIs(cells);
    forall key ensures KeyOf(s, role, row) == Pk(key) <==> HasKeyCells(s, role, row, key) {
      assert AreValues(cells, key) <==> HasKeyCells(s, role, row, key);
    }
  }

  ghost predicate AreValues(cells: map<string, Cell>, key: map<string, int>) {
    key.Keys == cells.Keys != {} && forall n :: n in cells ==> cells[n] == Val(key[n])
  }

  lemma ClassifyIs(cells: map<string, Cell>)
    ensures Classify(cells).NoPk? <==> forall n :: n in cells ==> cells[n] == Null
    ensures forall key :: Classify(cells) == Pk(key) <==> AreValues(cells, key)
  {
    forall key ensures Classify(cells) == Pk(key) <==> AreValues(cells, key) {
      if AreValues(cells, key) {
        var n :| n in cells.Keys;
        assert !cells[n].Null?;
        assert (map m | m in cells :: cells[m].v) == key;
      }
    }
  }

  /** The row of the message and the table row have the same key, by SQL equality. */
  ghost predicate Matches(s: SyncSchema, row: seq<Cell>, b: Row)
    requires |row| == |s|
  {
    b.key.Pk? && HasKeyCells(s, OldPk, row, b.key.cols)
  }

  ghost predicate IsDelete(s: SyncSchema, row: seq<Cell>)
    requires |row| == |s|
  {
    !NoKey(s, OldPk, row) && NoKey(s, NewPk, row)
  }

  /** The message does not change the column: its flag is false or NULL. */
  ghost predicate IsUnchanged(s: SyncSchema, row: seq<Cell>, name: string)
    requires |row| == |s|
  {
    name in Names(s, Changed) && (CellOf(s, Changed, row, name) == Null || CellOf(s, Changed, row, name) == Val(0))
  }

  /** What a row of a message leaves in a column: its value, or else its new key, unless the column is
      unchanged or missing, or the row has no key at all. */
  ghost function Stored(s: SyncSchema, row: seq<Cell>, before: Cell, name: string): Cell
    requires |row| == |s|
  {
    if (NoKey(s, OldPk, row) && NoKey(s, NewPk, row)) || IsUnchanged(s, row, name) then before
    else if name in Names(s, Value) then CellOf(s, Value, row, name)
    else if name in Names(s, NewPk) then CellOf(s, NewPk, row, name)
    else before
  }

  lemma StoredIs(s: SyncSchema, row: seq<Cell>, before: Cell, name: string)
    requires |row| == |s| && !(NoKey(s, OldPk, row) && NoKey(s, NewPk, row))
    ensures Stored(s, row, before, name) == Projected(s, row, before, name)
  {
    hide NoKey, Find, Names;
    NameFound(s, name, Value);
    NameFound(s, name, NewPk);
    NameFound(s, name, Changed);
  }

  /** `x` is the row that a row of a message makes of `before`: it is not a delete, `x` has the new key,
      and every column holds what the projection puts there. */
  ghost predicate Lands(s: SyncSchema, row: seq<Cell>, before: Values, x: Row)
    requires |row| == |s|
  {
    && !IsDelete(s, row) && x.key == KeyOf(s, NewPk, row)
    && x.vals.Keys == before.Keys
    && forall n :: n in before ==> x.vals[n] == Stored(s, row, before[n], n)
  }

  // ---------------------------------------------------------------------------------------------
  // The join
  // ---------------------------------------------------------------------------------------------

  lemma JoinsMatches(s: SyncSchema, row: seq<Cell>, b: Row)
    requires |row| == |s|
    ensures Joins(b, Decode(s, row)) <==> Matches(s, row, b)
    ensures Deletes(Decode(s, row)) <==> IsDelete(s, row)
  {
    hide KeyOf, HasKeyCells, NoKey, Writes;
    KeyCells(s, OldPk, row);
    KeyCells(s, NewPk, row);
  }

  lemma OverlayProjects(s: SyncSchema, row: seq<Cell>, before: Values, x: Row)
    requires |row| == |s| && before.Keys !! Names(s, NewPk)
    requires !(NoKey(s, OldPk, row) && NoKey(s, NewPk, row)) && !IsDelete(s, row)
    ensures x == Row(KeyOf(s, NewPk, row), Overlay(before, Writes(s, row))) <==> Lands(s, row, before, x)
  {
    hide KeyOf, NoKey, Writes, Projected, Names, Stored;
    var vals := Overlay(before, Writes(s, row));
    forall n | n in before ensures vals[n] == Stored(s, row, before[n], n) {
      ProjectsWrites(s, row, before[n], n);
      StoredIs(s, row, before[n], n);
    }
    if Lands(s, row, before, x) {
      assert x.vals == vals;
    }
  }

  lemma UnjoinedLands(s: SyncSchema, cols: set<string>, row: seq<Cell>, x: Row)
    requires |row| == |s| && cols !! Names(s, NewPk) && !IsDelete(s, row)
    ensures x == Unjoined(cols, Decode(s, row)) <==> Lands(s, row, Nulls(cols), x)
  {
    hide KeyOf, NoKey, Writes, Projected, Names;
    KeyCells(s, OldPk, row);
    KeyCells(s, NewPk, row);
    if NoKey(s, OldPk, row) && NoKey(s, NewPk, row) {
      if Lands(s, row, Nulls(cols), x) {
        assert x.vals == Nulls(cols);
      }
    } else {
      OverlayProjects(s, row, Nulls(cols), x);
    }
  }

  lemma MatchedLands(s: SyncSchema, row: seq<Cell>, b: Row, x: Row)
    requires |row| == |s| && b.vals.Keys !! Names(s, NewPk) && Matches(s, row, b) && !IsDelete(s, row)
    ensures x == Row(KeyOf(s, NewPk, row), Overlay(b.vals, Writes(s, row))) <==> Lands(s, row, b.vals, x)
  {
    hide KeyOf, Writes, Projected, Names, Overlay;
    KeyCells(s, OldPk, row);
    OverlayProjects(s, row, b.vals, x);
  }

  lemma {:induction false} InMatched(b: Row, batch: seq<Change>, x: Row)
    ensures x in Matched(b, batch) <==>
      exists c :: c in batch && Joins(b, c) && !Deletes(c) && x == Row(c.newPk, Overlay(b.vals, c.write))
  {
    hide Joins, Deletes, Overlay;
    if batch != [] {
      InMatched(b, batch[1..], x);
      assert forall c :: c in batch <==> c == batch[0] || c in batch[1..];
    }
  }

  ghost predicate IsUntouched(s: SyncSchema, rows: Batch, b: Row)
    requires Shaped(s, rows)
  {
    forall i :: 0 <= i < |rows| ==> !Matches(s, rows[i], b)
  }

  /** `x` comes from a table row that some row of the message matches. */
  ghost predicate FromMatch(s: SyncSchema, rows: Batch, b: Row, x: Row)
    requires Shaped(s, rows)
  {
    exists i :: 0 <= i < |rows| && Matches(s, rows[i], b) && Lands(s, rows[i], b.vals, x)
  }

  /** `x` comes from a row of the message that matches no table row. */
  ghost predicate FromNothing(s: SyncSchema, cols: set<string>, base: seq<Row>, rows: Batch, x: Row)
    requires Shaped(s, rows)
  {
    exists i :: 0 <= i < |rows| && IsUnmatched(s, base, rows[i]) && Lands(s, rows[i], AllNulls(cols), x)
  }

  ghost predicate IsUnmatched(s: SyncSchema, base: seq<Row>, row: seq<Cell>)
    requires |row| == |s|
  {
    forall b :: b in base ==> !Matches(s, row, b)
  }

  /** A row in which every column is NULL. */
  ghost function AllNulls(cols: set<string>): (v: Values)
    ensures v.Keys == cols && forall n :: n in cols ==> v[n] == Null
  {
    Nulls(cols)
  }

  lemma HitTouches(s: SyncSchema, rows: Batch, b: Row)
    requires Shaped(s, rows)
    ensures Hit(b, DecodeAll(s, rows)) <==> !IsUntouched(s, rows, b)
  {
    hide Decode, Joins, Matches;
    var cs := DecodeAll(s, rows);
    forall i | 0 <= i < |rows| ensures Joins(b, cs[i]) <==> Matches(s, rows[i], b) {
      JoinsMatches(s, rows[i], b);
    }
    if Hit(b, cs) {
      var c :| c in cs && Joins(b, c);
    }
    if i :| 0 <= i < |rows| && Matches(s, rows[i], b) {
      assert cs[i] in cs;
    }
  }

  lemma OneLands(s: SyncSchema, row: seq<Cell>, b: Row, x: Row)
    requires |row| == |s| && b.vals.Keys !! Names(s, NewPk)
    ensures var c := Decode(s, row);
      (Joins(b, c) && !Deletes(c) && x == Row(c.newPk, Overlay(b.vals, c.write)))
      <==> (Matches(s, row, b) && Lands(s, row, b.vals, x))
  {
    hide Joins, Deletes, Overlay, KeyOf, Writes, Names, Matches;
    JoinsMatches(s, row, b);
    if Matches(s, row, b) && !IsDelete(s, row) {
      MatchedLands(s, row, b, x);
    }
  }

  lemma MatchedProjects(s: SyncSchema, rows: Batch, b: Row, x: Row)
    requires Shaped(s, rows) && b.vals.Keys !! Names(s, NewPk)
    ensures x in Matched(b, DecodeAll(s, rows)) <==> FromMatch(s, rows, b, x)
  {
    hide Decode, Joins, Deletes, Overlay, Matches, Lands, Names, Matched;
    var cs := DecodeAll(s, rows);
    InMatched(b, cs, x);
    forall i | 0 <= i < |rows|
      ensures (Joins(b, cs[i]) && !Deletes(cs[i]) && x == Row(cs[i].newPk, Overlay(b.vals, cs[i].write)))
         <==> (Matches(s, rows[i], b) && Lands(s, rows[i], b.vals, x))
    {
      OneLands(s, rows[i], b, x);
    }
    if i :| 0 <= i < |rows| && Matches(s, rows[i], b) && Lands(s, rows[i], b.vals, x) {
      assert cs[i] in cs;
    }
  }

  lemma UnmatchedIs(s: SyncSchema, base: seq<Row>, row: seq<Cell>)
    requires |row| == |s|
    ensures Finds(base, Decode(s, row)) <==> !IsUnmatched(s, base, row)
  {
    hide Decode, Joins, Matches;
    forall b ensures Joins(b, Decode(s, row)) <==> Matches(s, row, b) {
      JoinsMatches(s, row, b);
    }
  }

  lemma NothingProjects(s: SyncSchema, cols: set<string>, base: seq<Row>, rows: Batch, x: Row)
    requires Shaped(s, rows) && cols !! Names(s, NewPk)
    ensures x in JoinRight(cols, base, DecodeAll(s, rows)) <==> FromNothing(s, cols, base, rows, x)
  {
    hide Decode, Finds, Deletes, Unjoined, IsUnmatched, Lands, Names, JoinRight;
    var cs := DecodeAll(s, rows);
    InJoinRight(cols, base, cs, x);
    forall i | 0 <= i < |rows|
      ensures (!Finds(base, cs[i]) && !Deletes(cs[i]) && x == Unjoined(cols, cs[i]))
         <==> (IsUnmatched(s, base, rows[i]) && Lands(s, rows[i], AllNulls(cols), x))
    {
      UnmatchedIs(s, base, rows[i]);
      OneUnjoined(s, cols, rows[i], x);
    }
    if i :| 0 <= i < |rows| && IsUnmatched(s, base, rows[i]) && Lands(s, rows[i], AllNulls(cols), x) {
      assert cs[i] in cs;
    }
  }

  lemma OneUnjoined(s: SyncSchema, cols: set<string>, row: seq<Cell>, x: Row)
    requires |row| == |s| && cols !! Names(s, NewPk)
    ensures !Deletes(Decode(s, row)) && x == Unjoined(cols, Decode(s, row)) <==> Lands(s, row, AllNulls(cols), x)
  {
    hide Deletes, Unjoined, KeyOf, Writes, Names, NoKey;
    JoinsMatches(s, row, x);
    assert AllNulls(cols) == Nulls(cols);
    if !IsDelete(s, row) {
      UnjoinedLands(s, cols, row, x);
    }
  }

  /** The rows that a message leaves are exactly these: the table rows that no row of the message matches,
      as they were; for every match that is not a delete, the new key and in every column what the
      projection puts over the table row; and for every other row of the message that is not a delete,
      the same over NULLs. */
  lemma JoinProjects(s: SyncSchema, cols: set<string>, base: seq<Row>, rows: Batch, x: Row)
    requires Shaped(s, rows) && cols !! Names(s, NewPk) && forall b :: b in base ==> b.vals.Keys !! Names(s, NewPk)
    ensures x in ApplySync(cols, base, DecodeAll(s, rows)) <==>
      || (x in base && IsUntouched(s, rows, x))
      || (exists b :: b in base && FromMatch(s, rows, b, x))
      || FromNothing(s, cols, base, rows, x)
  {
    hide JoinLeft, JoinRight, JoinOne, FromMatch, FromNothing, IsUntouched, DecodeAll, Names;
    var cs := DecodeAll(s, rows);
    InJoinLeft(base, cs, x);
    NothingProjects(s, cols, base, rows, x);
    forall b | b in base
      ensures x in JoinOne(b, cs) <==> (x == b && IsUntouched(s, rows, b)) || FromMatch(s, rows, b, x)
    {
      RowProjects(s, rows, b, x);
    }
  }

  lemma RowProjects(s: SyncSchema, rows: Batch, b: Row, x: Row)
    requires Shaped(s, rows) && b.vals.Keys !! Names(s, NewPk)
    ensures x in JoinOne(b, DecodeAll(s, rows)) <==>
      (x == b && IsUntouched(s, rows, b)) || FromMatch(s, rows, b, x)
  {
    hide Hit, Matched, Matches, Lands, DecodeAll, Names;
    HitTouches(s, rows, b);
    MatchedProjects(s, rows, b, x);
  }

  /** The key columns get the new key as well, if the schema is valid. */
  lemma KeyProjects(s: SyncSchema, row: seq<Cell>, key: map<string, int>, before: Cell, n: string)
    requires Valid(s) && |row| == |s| && KeyOf(s, NewPk, row) == Pk(key) && n in key
    ensures Stored(s, row, before, n) == Val(key[n])
  {
    hide Find, Names, DistinctColumns, Stored;
    KeyCells(s, NewPk, row);
    assert HasKeyCells(s, NewPk, row, key);
    StoredIs(s, row, before, n);
    NameFound(s, n, NewPk);
    NameFound(s, n, Value);
    NameFound(s, n, Changed);
  }
}
