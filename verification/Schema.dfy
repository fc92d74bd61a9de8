/** Sync schemas: every column of a sync message has a role and names the table column it stands for. */
module Schema {
  import opened Tables

  datatype ColumnRole = OldPk | NewPk | Value | Changed

  datatype SyncColumn = SyncColumn(role: ColumnRole, name: string)

  type SyncSchema = seq<SyncColumn>

  type Batch = seq<seq<Cell>>

  predicate Shaped(s: SyncSchema, rows: Batch) {
    forall i :: 0 <= i < |rows| ==> |rows[i]| == |s|
  }

  /** Positions of the columns with the given role, in schema order. */
  function Columns(s: SyncSchema, role: ColumnRole): (r: seq<nat>)
    ensures forall i :: 0 <= i < |r| ==> r[i] < |s| && s[r[i]].role == role
  {
    if s == [] then []
    else
      var n := |s| - 1;
      Columns(s[..n], role) + if s[n].role == role then [n] else []
  }

  lemma {:induction false} ColumnListed(s: SyncSchema, c: nat)
    requires c < |s|
    ensures c in Columns(s, s[c].role)
  {
    var n := |s| - 1;
    if c < n {
      ColumnListed(s[..n], c);
    }
  }

  lemma {:induction false} ColumnsAscend(s: SyncSchema, role: ColumnRole, i: nat, j: nat)
    requires i < j < |Columns(s, role)|
    ensures Columns(s, role)[i] < Columns(s, role)[j]
  {
    var n := |s| - 1;
    if j < |Columns(s[..n], role)| {
      ColumnsAscend(s[..n], role, i, j);
    }
  }

  /** The first column with the given name and role, or `|s|`. */
  function Find(s: SyncSchema, name: string, role: ColumnRole): (c: nat)
    ensures c <= |s|
    ensures c < |s| ==> s[c] == SyncColumn(role, name)
  {
    if s == [] then 0
    else if s[0] == SyncColumn(role, name) then 0
    else 1 + Find(s[1..], name, role)
  }

  lemma {:induction false} FindStops(s: SyncSchema, c: nat)
    requires c < |s|
    ensures Find(s, s[c].name, s[c].role) <= c
  {
    if c > 0 && s[0] != s[c] {
      FindStops(s[1..], c - 1);
    }
  }

  function Names(s: SyncSchema, role: ColumnRole): set<string> {
    set c | 0 <= c < |s| && s[c].role == role :: s[c].name
  }

  function PkNames(s: SyncSchema, role: ColumnRole): (r: seq<string>)
    ensures |r| == |Columns(s, role)|
  {
    seq(|Columns(s, role)|, i requires 0 <= i < |Columns(s, role)| => s[Columns(s, role)[i]].name)
  }

  /** No two columns share both role and name. */
  predicate DistinctColumns(s: SyncSchema) {
    forall i, j :: 0 <= i < j < |s| ==> s[i] != s[j]
  }

  /** What schema validation establishes, together with what it takes for granted: columns are distinct,
      and no column is both a key and a value. */
  predicate Valid(s: SyncSchema) {
    && DistinctColumns(s)
    && Names(s, Value) !! Names(s, NewPk)
    && Names(s, OldPk) != {}
    && Names(s, OldPk) == Names(s, NewPk)
    && Names(s, Changed) <= Names(s, Value)
  }

  predicate IsTrue(c: Cell) {
    c.Val? && c.v != 0
  }

  // ---------------------------------------------------------------------------------------------
  // Decoding a row of a message into a change
  // ---------------------------------------------------------------------------------------------

  function Classify(cells: map<string, Cell>): Key {
    if forall n :: n in cells ==> cells[n].Null? then NoPk
    else if forall n :: n in cells ==> cells[n].Val? then Pk(map n | n in cells :: cells[n].v)
    else Mixed(cells)
  }

  lemma NameFound(s: SyncSchema, name: string, role: ColumnRole)
    ensures name in Names(s, role) <==> Find(s, name, role) < |s|
  {
    if Find(s, name, role) < |s| {
      assert s[Find(s, name, role)].role == role;
    }
    if name in Names(s, role) {
      var c :| 0 <= c < |s| && s[c].role == role && s[c].name == name;
      FindStops(s, c);
    }
  }

  function NamedCells(s: SyncSchema, role: ColumnRole, row: seq<Cell>): map<string, Cell>
    requires |row| == |s|
  {
    map n | n in Names(s, role) :: (NameFound(s, n, role); row[Find(s, n, role)])
  }

  function KeyOf(s: SyncSchema, role: ColumnRole, row: seq<Cell>): Key
    requires |row| == |s|
  {
    Classify(NamedCells(s, role, row))
  }

  /** A value column without a `Changed` flag is always written; with one, only when it is true. */
  predicate Written(s: SyncSchema, row: seq<Cell>, name: string)
    requires |row| == |s|
  {
    var f := Find(s, name, Changed);
    name in Names(s, Value) && (f == |s| || IsTrue(row[f]))
  }

  function Writes(s: SyncSchema, row: seq<Cell>): Values
    requires |row| == |s|
  {
    map n | n in Names(s, Value) && Written(s, row, n) :: (NameFound(s, n, Value); row[Find(s, n, Value)])
  }

  // ---------------------------------------------------------------------------------------------
  // The projection onto the columns of the table
  // ---------------------------------------------------------------------------------------------

  /** What a row with a key puts into a column of the table, over what the column held before: a value
      column comes before a new key column of the same name. */
  function Projected(s: SyncSchema, row: seq<Cell>, before: Cell, name: string): Cell
    requires |row| == |s|
  {
    var v, k, f := Find(s, name, Value), Find(s, name, NewPk), Find(s, name, Changed);
    if v == |s| && k == |s| then before
    else if f < |s| && !IsTrue(row[f]) then before
    else if v < |s| then row[v]
    else row[k]
  }

  /** Outside the key, the projection overwrites exactly the written values. */
  lemma ProjectsWrites(s: SyncSchema, row: seq<Cell>, before: Cell, name: string)
    requires |row| == |s| && name !in Names(s, NewPk)
    ensures Projected(s, row, before, name) == if name in Writes(s, row) then Writes(s, row)[name] else before
  {
    hide Find;
    NameFound(s, name, Value);
    NameFound(s, name, NewPk);
  }

  /** The projection puts the new key into a key column. */
  ghost predicate ProjectsKey(s: SyncSchema, name: string) {
    forall row, before :: |row| == |s| && Find(s, name, NewPk) < |s| ==>
      Projected(s, row, before, name) == row[Find(s, name, NewPk)]
  }

  /** Rows are stored under their new key if and only if no key column is also a value column, which
      schema validation does not check. */
  lemma KeysProjected(s: SyncSchema)
    requires Names(s, Changed) <= Names(s, Value)
    ensures Names(s, Value) !! Names(s, NewPk) <==> forall name :: name in Names(s, NewPk) ==> ProjectsKey(s, name)
  {
    hide Find, Names;
    forall name | name in Names(s, NewPk) ensures ProjectsKey(s, name) <==> name !in Names(s, Value) {
      NameFound(s, name, NewPk);
      NameFound(s, name, Value);
      NameFound(s, name, Changed);
      KeyProjected(s, name);
    }
  }

  lemma KeyProjected(s: SyncSchema, name: string)
    requires Find(s, name, NewPk) < |s| && (Find(s, name, Value) == |s| ==> Find(s, name, Changed) == |s|)
    ensures ProjectsKey(s, name) <==> Find(s, name, Value) == |s|
  {
    hide Find;
    var v, k := Find(s, name, Value), Find(s, name, NewPk);
    if v < |s| {
      var row := seq(|s|, i requires 0 <= i < |s| => if i == k then Val(0) else Val(1));
      assert Projected(s, row, Val(2), name) != row[k];
    }
  }

  function Decode(s: SyncSchema, row: seq<Cell>): Change
    requires |row| == |s|
  {
    Change(KeyOf(s, OldPk, row), KeyOf(s, NewPk, row), Writes(s, row))
  }

  function DecodeAll(s: SyncSchema, rows: Batch): (cs: seq<Change>)
    requires Shaped(s, rows)
    ensures |cs| == |rows|
    ensures forall i :: 0 <= i < |rows| ==> cs[i] == Decode(s, rows[i])
  {
    seq(|rows|, i requires 0 <= i < |rows| => Decode(s, rows[i]))
  }

  // ---------------------------------------------------------------------------------------------
  // Keys by position, as the squashing compares them
  // ---------------------------------------------------------------------------------------------

  function PosKey(s: SyncSchema, role: ColumnRole, row: seq<Cell>): (k: seq<Cell>)
    requires |row| == |s|
    ensures |k| == |Columns(s, role)|
  {
    seq(|Columns(s, role)|, i requires 0 <= i < |Columns(s, role)| => row[Columns(s, role)[i]])
  }

  predicate AllNull(k: seq<Cell>) {
    forall i :: 0 <= i < |k| ==> k[i].Null?
  }

  lemma FindUnique(s: SyncSchema, c: nat)
    requires DistinctColumns(s) && c < |s|
    ensures Find(s, s[c].name, s[c].role) == c
  {
    FindStops(s, c);
  }

  /** The named key shows every positional cell, and nothing else. */
  lemma CellAt(s: SyncSchema, role: ColumnRole, row: seq<Cell>, i: nat)
    requires DistinctColumns(s) && |row| == |s| && i < |Columns(s, role)|
    ensures PkNames(s, role)[i] in NamedCells(s, role, row)
    ensures NamedCells(s, role, row)[PkNames(s, role)[i]] == PosKey(s, role, row)[i]
  {
    var c := Columns(s, role)[i];
    FindUnique(s, c);
    assert s[c].name in Names(s, role);
  }

  lemma CellFrom(s: SyncSchema, role: ColumnRole, row: seq<Cell>, n: string) returns (i: nat)
    requires DistinctColumns(s) && |row| == |s| && n in Names(s, role)
    ensures i < |Columns(s, role)| && PkNames(s, role)[i] == n
    ensures NamedCells(s, role, row)[n] == PosKey(s, role, row)[i]
  {
    NameFound(s, n, role);
    var c := Find(s, n, role);
    ColumnListed(s, c);
    i :| 0 <= i < |Columns(s, role)| && Columns(s, role)[i] == c;
    CellAt(s, role, row, i);
  }

  lemma PositionsOfNames(s: SyncSchema, role: ColumnRole, row: seq<Cell>, cells: map<string, Cell>, pos: seq<Cell>)
    requires DistinctColumns(s) && |row| == |s|
    requires cells == NamedCells(s, role, row) && pos == PosKey(s, role, row)
    ensures forall n :: n in cells ==> exists i :: 0 <= i < |pos| && cells[n] == pos[i]
  {
    forall n | n in cells ensures exists i :: 0 <= i < |pos| && cells[n] == pos[i] {
      var i := CellFrom(s, role, row, n);
    }
  }

  lemma NamesOfPositions(s: SyncSchema, role: ColumnRole, row: seq<Cell>, cells: map<string, Cell>, pos: seq<Cell>)
    requires DistinctColumns(s) && |row| == |s|
    requires cells == NamedCells(s, role, row) && pos == PosKey(s, role, row)
    ensures forall i :: 0 <= i < |pos| ==> PkNames(s, role)[i] in cells && cells[PkNames(s, role)[i]] == pos[i]
  {
    forall i | 0 <= i < |pos| ensures PkNames(s, role)[i] in cells && cells[PkNames(s, role)[i]] == pos[i] {
      CellAt(s, role, row, i);
    }
  }

  lemma AbsentByPosition(s: SyncSchema, role: ColumnRole, row: seq<Cell>)
    requires DistinctColumns(s) && |row| == |s|
    ensures KeyOf(s, role, row).NoPk? <==> AllNull(PosKey(s, role, row))
  {
    var cells, pos := NamedCells(s, role, row), PosKey(s, role, row);
    PositionsOfNames(s, role, row, cells, pos);
    NamesOfPositions(s, role, row, cells, pos);
    NullsBothWays(cells, PkNames(s, role), pos);
  }

  lemma NullsBothWays(cells: map<string, Cell>, names: seq<string>, pos: seq<Cell>)
    requires |names| == |pos|
    requires forall n :: n in cells ==> exists i :: 0 <= i < |pos| && cells[n] == pos[i]
    requires forall i :: 0 <= i < |pos| ==> names[i] in cells && cells[names[i]] == pos[i]
    ensures Classify(cells).NoPk? <==> AllNull(pos)
  {
  }

  lemma ClassifyInjective(a: map<string, Cell>, b: map<string, Cell>)
    requires a.Keys == b.Keys && Classify(a) == Classify(b)
    ensures a == b
  {
    if Classify(a).Pk? {
      forall n | n in a ensures a[n] == b[n] {
        assert Classify(a).cols[n] == Classify(b).cols[n];
      }
    } else if Classify(a).NoPk? {
      forall n | n in a ensures a[n] == b[n] {
        assert n in b;
      }
    }
  }

  /** When two key column lists have the same names in the same order, comparing keys by position is
      comparing them by name. */
  lemma KeysByPosition(s: SyncSchema, r1: ColumnRole, row1: seq<Cell>, r2: ColumnRole, row2: seq<Cell>)
    requires DistinctColumns(s) && |row1| == |row2| == |s| && PkNames(s, r1) == PkNames(s, r2)
    ensures KeyOf(s, r1, row1) == KeyOf(s, r2, row2) <==> PosKey(s, r1, row1) == PosKey(s, r2, row2)
  {
    var a, b := NamedCells(s, r1, row1), NamedCells(s, r2, row2);
    assert a.Keys == b.Keys by {
      forall n ensures n in a <==> n in b {
        if n in a { var i := CellFrom(s, r1, row1, n); CellAt(s, r2, row2, i); }
        if n in b { var i := CellFrom(s, r2, row2, n); CellAt(s, r1, row1, i); }
      }
    }
    if PosKey(s, r1, row1) == PosKey(s, r2, row2) {
      forall n | n in a ensures a[n] == b[n] {
        var i := CellFrom(s, r1, row1, n);
        CellAt(s, r2, row2, i);
      }
      assert a == b;
    }
    if KeyOf(s, r1, row1) == KeyOf(s, r2, row2) {
      ClassifyInjective(a, b);
      forall i | 0 <= i < |PosKey(s, r1, row1)| ensures PosKey(s, r1, row1)[i] == PosKey(s, r2, row2)[i] {
        CellAt(s, r1, row1, i);
        CellAt(s, r2, row2, i);
      }
    }
  }
}
