/** Choosing the table files that a set of pending syncs may touch, from per-file min/max statistics:
    coarse pruning by one box per key side, and fine pruning key by key. */
module Prune {
  import opened Basics
  import opened Tables
  import opened Schema
  import opened Rechunk

  /** One queued message: the transaction it belongs to, its schema, and its (squashed) rows. */
  datatype DataSyncItem = DataSyncItem(txId: nat, schema: SyncSchema, batch: Batch)

  function Changes(item: DataSyncItem): seq<Change>
    requires Shaped(item.schema, item.batch)
  {
    DecodeAll(item.schema, item.batch)
  }

  /** Per column, the statistics of every file; a column may have none, and a file's entry may be NULL. */
  datatype PruningStats = PruningStats(containers: nat, mins: map<string, seq<Cell>>, maxs: map<string, seq<Cell>>)

  predicate ShapedStats(st: PruningStats) {
    && (forall n :: n in st.mins ==> |st.mins[n]| == st.containers)
    && (forall n :: n in st.maxs ==> |st.maxs[n]| == st.containers)
  }

  function MinOf(st: PruningStats, name: string, file: nat): Cell
    requires ShapedStats(st) && file < st.containers
  {
    if name in st.mins then st.mins[name][file] else Null
  }

  function MaxOf(st: PruningStats, name: string, file: nat): Cell
    requires ShapedStats(st) && file < st.containers
  {
    if name in st.maxs then st.maxs[name][file] else Null
  }

  /** Neither kind of statistics exists for the column. */
  predicate Bare(st: PruningStats, name: string) {
    name !in st.mins && name !in st.maxs
  }

  /** The statistics bound the key columns of every row in the file. */
  ghost predicate Truthful(st: PruningStats, files: seq<seq<Row>>) {
    && ShapedStats(st) && st.containers == |files|
    && forall f, r, n :: 0 <= f < |files| && r in files[f] && r.key.Pk? && n in r.key.cols ==>
         && (MinOf(st, n, f).Val? ==> MinOf(st, n, f).v <= r.key.cols[n])
         && (MaxOf(st, n, f).Val? ==> r.key.cols[n] <= MaxOf(st, n, f).v)
  }

  // ---------------------------------------------------------------------------------------------
  // Three-valued comparisons
  // ---------------------------------------------------------------------------------------------

  datatype Kleene = No | Unknown | Yes

  function AtLeast(a: Cell, b: Cell): Kleene {
    if a.Null? || b.Null? then Unknown else if a.v >= b.v then Yes else No
  }

  function And(a: Kleene, b: Kleene): Kleene {
    if a == No || b == No then No else if a == Unknown || b == Unknown then Unknown else Yes
  }

  /** Could a file with these statistics hold this value? */
  function ColumnVerdict(st: PruningStats, name: string, file: nat, value: Cell): Kleene
    requires ShapedStats(st) && file < st.containers && !Bare(st, name)
  {
    if name in st.mins && name in st.maxs
    then And(AtLeast(value, st.mins[name][file]), AtLeast(st.maxs[name][file], value))
    else if name in st.mins then AtLeast(value, st.mins[name][file])
    else AtLeast(st.maxs[name][file], value)
  }

  predicate KeyColumnsCovered(s: SyncSchema, role: ColumnRole, st: PruningStats) {
    forall i :: 0 <= i < |Columns(s, role)| ==> !Bare(st, s[Columns(s, role)[i]].name)
  }

  /** The conjunction of the verdicts of the first `k` key columns. */
  function KeyVerdict(s: SyncSchema, role: ColumnRole, row: seq<Cell>, st: PruningStats, file: nat, k: nat): Kleene
    requires |row| == |s| && ShapedStats(st) && file < st.containers
    requires k <= |Columns(s, role)| && KeyColumnsCovered(s, role, st)
  {
    if k == 0 then Yes
    else
      var c := Columns(s, role)[k - 1];
      And(KeyVerdict(s, role, row, st, file, k - 1), ColumnVerdict(st, s[c].name, file, row[c]))
  }

  /** The first key column decides whether the row has a key on this side. */
  predicate HasKey(s: SyncSchema, role: ColumnRole, row: seq<Cell>)
    requires |row| == |s|
  {
    Columns(s, role) != [] && row[Columns(s, role)[0]].Val?
  }

  ghost predicate RowKeeps(s: SyncSchema, role: ColumnRole, row: seq<Cell>, st: PruningStats, file: nat)
    requires |row| == |s| && ShapedStats(st) && file < st.containers && KeyColumnsCovered(s, role, st)
  {
    HasKey(s, role, row) && KeyVerdict(s, role, row, st, file, |Columns(s, role)|) != No
  }

  ghost predicate ItemKeeps(item: DataSyncItem, role: ColumnRole, st: PruningStats, file: nat)
    requires Shaped(item.schema, item.batch) && ShapedStats(st) && file < st.containers
    requires KeyColumnsCovered(item.schema, role, st)
  {
    exists i :: 0 <= i < |item.batch| && RowKeeps(item.schema, role, item.batch[i], st, file)
  }

  // ---------------------------------------------------------------------------------------------
  // Fine pruning
  // ---------------------------------------------------------------------------------------------

  /** All items name the same key columns as the first one. */
  ghost predicate SameKeys(items: seq<DataSyncItem>) {
    forall i :: 0 <= i < |items| ==>
      && Shaped(items[i].schema, items[i].batch)
      && DistinctColumns(items[i].schema)
      && Names(items[i].schema, OldPk) == Names(items[i].schema, NewPk) == Names(items[0].schema, OldPk) != {}
  }

  ghost predicate SomeBare(items: seq<DataSyncItem>, st: PruningStats)
    requires items != []
  {
    exists n :: n in Names(items[0].schema, OldPk) && Bare(st, n)
  }

  lemma AllCovered(items: seq<DataSyncItem>, st: PruningStats, i: nat, role: ColumnRole)
    requires items != [] && SameKeys(items) && !SomeBare(items, st) && i < |items| && (role == OldPk || role == NewPk)
    ensures KeyColumnsCovered(items[i].schema, role, st)
  {
    var s := items[i].schema;
    forall j | 0 <= j < |Columns(s, role)| ensures !Bare(st, s[Columns(s, role)[j]].name) {
      assert s[Columns(s, role)[j]].name in Names(s, role);
    }
  }

  ghost predicate KeptFor(items: seq<DataSyncItem>, st: PruningStats, file: nat, i: nat, role: ColumnRole)
    requires items != [] && SameKeys(items) && ShapedStats(st) && file < st.containers
    requires !SomeBare(items, st) && i < |items| && (role == OldPk || role == NewPk)
  {
    AllCovered(items, st, i, role);
    ItemKeeps(items[i], role, st, file)
  }

  /** What fine pruning keeps: every file if some key column has no statistics at all, otherwise the
      files that some key of some row is not refuted for. */
  ghost predicate FineKeeps(items: seq<DataSyncItem>, st: PruningStats, file: nat)
    requires items != [] && SameKeys(items) && ShapedStats(st) && file < st.containers
  {
    SomeBare(items, st)
    || (exists i :: 0 <= i < |items| && KeptFor(items, st, file, i, OldPk))
    || (exists i :: 0 <= i < |items| && KeptFor(items, st, file, i, NewPk))
  }

  /** The rows that have a key, by their first key column. */
  method RowsWithKey(s: SyncSchema, batch: Batch, role: ColumnRole) returns (rows: seq<nat>)
    requires Shaped(s, batch) && Columns(s, role) != []
    ensures forall p :: 0 <= p < |rows| ==> rows[p] < |batch| && HasKey(s, role, batch[rows[p]])
    ensures forall q :: 0 <= q < |batch| && HasKey(s, role, batch[q]) ==> q in rows
  {
    var first := Columns(s, role)[0];
    rows := [];
    var i := 0;
    while i < |batch|
      invariant 0 <= i <= |batch|
      invariant forall p :: 0 <= p < |rows| ==> rows[p] < i && HasKey(s, role, batch[rows[p]])
      invariant forall q :: 0 <= q < i && HasKey(s, role, batch[q]) ==> q in rows
    {
      if batch[i][first].Val? {
        rows := rows + [i];
      }
      i := i + 1;
    }
  }

  /** One item, one key side, one file: combine the column verdicts of all rows that have a key. */
  method KeepsFile(item: DataSyncItem, role: ColumnRole, st: PruningStats, file: nat) returns (keep: bool)
    requires Shaped(item.schema, item.batch) && ShapedStats(st) && file < st.containers
    requires KeyColumnsCovered(item.schema, role, st)
    ensures keep <==> ItemKeeps(item, role, st, file)
  {
    hide Columns, KeyVerdict, ColumnVerdict, KeyColumnsCovered, ItemKeeps, HasKey, ShapedStats;
    var s, batch := item.schema, item.batch;
    var columns := Columns(s, role);
    if columns == [] {
      NoColumnsKept(item, role, st, file);
      return false;
    }
    var rows := RowsWithKey(s, batch, role);
    var verdicts: seq<Kleene> := seq(|rows|, p => Yes);
    VerdictStarts(s, role, st, file);
    var k := 0;
    while k < |columns|
      invariant 0 <= k <= |columns| && |verdicts| == |rows|
      invariant forall p :: 0 <= p < |rows| ==> verdicts[p] == KeyVerdict(s, role, batch[rows[p]], st, file, k)
    {
      var c := columns[k];
      VerdictNext(s, role, st, file, k);
      verdicts := seq(|rows|, p requires 0 <= p < |rows| =>
        And(verdicts[p], ColumnVerdict(st, s[c].name, file, batch[rows[p]][c])));
      k := k + 1;
    }
    keep := exists p :: 0 <= p < |rows| && verdicts[p] != No;
    VerdictsDecide(item, role, st, file, rows, verdicts);
  }

  lemma NoColumnsKept(item: DataSyncItem, role: ColumnRole, st: PruningStats, file: nat)
    requires Shaped(item.schema, item.batch) && ShapedStats(st) && file < st.containers
    requires KeyColumnsCovered(item.schema, role, st) && Columns(item.schema, role) == []
    ensures !ItemKeeps(item, role, st, file)
  {
    hide KeyVerdict, Columns, KeyColumnsCovered;
  }

  lemma VerdictStarts(s: SyncSchema, role: ColumnRole, st: PruningStats, file: nat)
    requires ShapedStats(st) && file < st.containers && KeyColumnsCovered(s, role, st)
    ensures forall row: seq<Cell> :: |row| == |s| ==> KeyVerdict(s, role, row, st, file, 0) == Yes
  {
  }

  lemma VerdictNext(s: SyncSchema, role: ColumnRole, st: PruningStats, file: nat, k: nat)
    requires ShapedStats(st) && file < st.containers && KeyColumnsCovered(s, role, st) && k < |Columns(s, role)|
    ensures var c := Columns(s, role)[k];
      && !Bare(st, s[c].name)
      && forall row: seq<Cell> :: |row| == |s| ==>
           KeyVerdict(s, role, row, st, file, k + 1)
           == And(KeyVerdict(s, role, row, st, file, k), ColumnVerdict(st, s[c].name, file, row[c]))
  {
    hide Columns, ColumnVerdict, And, ShapedStats;
  }

  lemma VerdictsDecide(item: DataSyncItem, role: ColumnRole, st: PruningStats, file: nat, rows: seq<nat>,
                       verdicts: seq<Kleene>)
    requires Shaped(item.schema, item.batch) && ShapedStats(st) && file < st.containers
    requires KeyColumnsCovered(item.schema, role, st) && |verdicts| == |rows|
    requires forall p :: 0 <= p < |rows| ==> rows[p] < |item.batch| && HasKey(item.schema, role, item.batch[rows[p]])
    requires forall q :: 0 <= q < |item.batch| && HasKey(item.schema, role, item.batch[q]) ==> q in rows
    requires forall p :: 0 <= p < |rows| ==>
      verdicts[p] == KeyVerdict(item.schema, role, item.batch[rows[p]], st, file, |Columns(item.schema, role)|)
    ensures (exists p :: 0 <= p < |rows| && verdicts[p] != No) <==> ItemKeeps(item, role, st, file)
  {
    hide KeyVerdict, Columns, KeyColumnsCovered, HasKey;
    if p :| 0 <= p < |rows| && verdicts[p] != No {
      assert RowKeeps(item.schema, role, item.batch[rows[p]], st, file);
    }
    if ItemKeeps(item, role, st, file) {
      var q :| 0 <= q < |item.batch| && RowKeeps(item.schema, role, item.batch[q], st, file);
      var p :| 0 <= p < |rows| && rows[p] == q;
      assert verdicts[p] != No;
    }
  }

  method GetPruneMap(items: seq<DataSyncItem>, st: PruningStats) returns (keep: seq<bool>)
    requires items != [] && SameKeys(items) && ShapedStats(st)
    ensures |keep| == st.containers
    ensures forall f :: 0 <= f < st.containers ==> (keep[f] <==> FineKeeps(items, st, f))
  {
    var columns := Columns(items[0].schema, OldPk);
    var c := 0;
    while c < |columns|
      invariant 0 <= c <= |columns|
      invariant forall d :: 0 <= d < c ==> !Bare(st, items[0].schema[columns[d]].name)
    {
      if Bare(st, items[0].schema[columns[c]].name) {
        assert items[0].schema[columns[c]].name in Names(items[0].schema, OldPk);
        return seq(st.containers, f => true);
      }
      c := c + 1;
    }
    NoneBare(items, st);

    keep := seq(st.containers, f => false);
    keep := KeepFor(items, OldPk, st, keep);
    keep := KeepFor(items, NewPk, st, keep);
  }

  lemma NoneBare(items: seq<DataSyncItem>, st: PruningStats)
    requires items != []
    requires forall d :: 0 <= d < |Columns(items[0].schema, OldPk)| ==>
      !Bare(st, items[0].schema[Columns(items[0].schema, OldPk)[d]].name)
    ensures !SomeBare(items, st)
  {
    var s := items[0].schema;
    forall n | n in Names(s, OldPk) ensures !Bare(st, n) {
      var c :| 0 <= c < |s| && s[c].role == OldPk && s[c].name == n;
      ColumnListed(s, c);
    }
  }

  /** One key side of all items; files already kept are not looked at again. */
  method KeepForItem(item: DataSyncItem, role: ColumnRole, st: PruningStats, keep0: seq<bool>)
    returns (keep: seq<bool>)
    requires Shaped(item.schema, item.batch) && ShapedStats(st) && |keep0| == st.containers
    requires KeyColumnsCovered(item.schema, role, st)
    ensures |keep| == st.containers
    ensures forall f :: 0 <= f < st.containers ==> (keep[f] <==> keep0[f] || ItemKeeps(item, role, st, f))
  {
    hide ItemKeeps, KeyColumnsCovered, ShapedStats;
    keep := keep0;
    var f := 0;
    while f < st.containers
      invariant 0 <= f <= st.containers && |keep| == st.containers
      invariant forall g :: 0 <= g < f ==> (keep[g] <==> keep0[g] || ItemKeeps(item, role, st, g))
      invariant forall g :: f <= g < st.containers ==> keep[g] == keep0[g]
    {
      if !keep[f] {
        var used := KeepsFile(item, role, st, f);
        keep := keep[f := used];
      }
      f := f + 1;
    }
  }

  lemma ItemsKeep(items: seq<DataSyncItem>, st: PruningStats, i: nat, role: ColumnRole)
    requires items != [] && SameKeys(items) && ShapedStats(st) && !SomeBare(items, st)
    requires i < |items| && (role == OldPk || role == NewPk)
    ensures Shaped(items[i].schema, items[i].batch) && KeyColumnsCovered(items[i].schema, role, st)
    ensures forall f :: 0 <= f < st.containers ==>
      (KeptFor(items, st, f, i, role) <==> ItemKeeps(items[i], role, st, f))
  {
    AllCovered(items, st, i, role);
  }

  method KeepFor(items: seq<DataSyncItem>, role: ColumnRole, st: PruningStats, keep0: seq<bool>)
    returns (keep: seq<bool>)
    requires items != [] && SameKeys(items) && ShapedStats(st) && !SomeBare(items, st)
    requires |keep0| == st.containers && (role == OldPk || role == NewPk)
    ensures |keep| == st.containers
    ensures forall f :: 0 <= f < st.containers ==>
      (keep[f] <==> keep0[f] || exists i :: 0 <= i < |items| && KeptFor(items, st, f, i, role))
  {
    hide KeptFor, ItemKeeps, SameKeys, SomeBare, ShapedStats, KeyColumnsCovered;
    keep := keep0;
    var i := 0;
    while i < |items|
      invariant 0 <= i <= |items| && |keep| == st.containers
      invariant forall f :: 0 <= f < st.containers ==>
        (keep[f] <==> keep0[f] || exists j :: 0 <= j < i && KeptFor(items, st, f, j, role))
    {
      ItemsKeep(items, st, i, role);
      keep := KeepForItem(items[i], role, st, keep);
      i := i + 1;
    }
  }

  // ---------------------------------------------------------------------------------------------
  // Soundness: a file holding a row that some change joins with is kept
  // ---------------------------------------------------------------------------------------------

  lemma {:induction false} KeyNotRefuted(s: SyncSchema, role: ColumnRole, row: seq<Cell>, key: map<string, int>,
                                         st: PruningStats, file: nat, k: nat)
    requires DistinctColumns(s) && |row| == |s| && ShapedStats(st) && file < st.containers
    requires k <= |Columns(s, role)| && KeyColumnsCovered(s, role, st) && KeyOf(s, role, row) == Pk(key)
    requires forall n :: n in key ==>
      && (MinOf(st, n, file).Val? ==> MinOf(st, n, file).v <= key[n])
      && (MaxOf(st, n, file).Val? ==> key[n] <= MaxOf(st, n, file).v)
    ensures KeyVerdict(s, role, row, st, file, k) != No
  {
    hide KeyOf, Columns, ColumnVerdict, MinOf, MaxOf, DistinctColumns, ShapedStats;
    if k > 0 {
      KeyNotRefuted(s, role, row, key, st, file, k - 1);
      KeyCell(s, role, row, key, k - 1);
      var c := Columns(s, role)[k - 1];
      ColumnNotRefuted(st, s[c].name, file, key[s[c].name]);
    }
  }

  lemma ColumnNotRefuted(st: PruningStats, name: string, file: nat, v: int)
    requires ShapedStats(st) && file < st.containers && !Bare(st, name)
    requires MinOf(st, name, file).Val? ==> MinOf(st, name, file).v <= v
    requires MaxOf(st, name, file).Val? ==> v <= MaxOf(st, name, file).v
    ensures ColumnVerdict(st, name, file, Val(v)) != No
  {
  }

  lemma KeyCell(s: SyncSchema, role: ColumnRole, row: seq<Cell>, key: map<string, int>, i: nat)
    requires DistinctColumns(s) && |row| == |s| && KeyOf(s, role, row) == Pk(key) && i < |Columns(s, role)|
    ensures var c := Columns(s, role)[i]; s[c].name in key && row[c] == Val(key[s[c].name])
  {
    CellAt(s, role, row, i);
  }

  ghost predicate TouchesKey(items: seq<DataSyncItem>, key: Key)
    requires SameKeys(items)
  {
    exists i, c :: 0 <= i < |items| && c in Changes(items[i]) && (c.oldPk == key || c.newPk == key)
  }

  /** Fine pruning keeps every file with a row that some change refers to, by old or by new key. */
  lemma FinePruningSound(items: seq<DataSyncItem>, st: PruningStats, files: seq<seq<Row>>, f: nat, r: Row)
    requires items != [] && SameKeys(items) && Truthful(st, files) && f < |files| && r in files[f]
    requires r.key.Pk? && TouchesKey(items, r.key)
    ensures FineKeeps(items, st, f)
  {
    TruthfulKey(st, files, f, r);
    hide SameKeys, SomeBare, MinOf, MaxOf, KeyOf, KeptFor, TouchesKey, Truthful, ShapedStats;
    if !SomeBare(items, st) {
      var i, j, role := KeyOccurs(items, r.key);
      KeyFound(items, st, f, i, j, role, r.key.cols);
    }
  }

  lemma TruthfulKey(st: PruningStats, files: seq<seq<Row>>, f: nat, r: Row)
    requires Truthful(st, files) && f < |files| && r in files[f] && r.key.Pk?
    ensures ShapedStats(st) && f < st.containers
    ensures forall n :: n in r.key.cols ==>
      && (MinOf(st, n, f).Val? ==> MinOf(st, n, f).v <= r.key.cols[n])
      && (MaxOf(st, n, f).Val? ==> r.key.cols[n] <= MaxOf(st, n, f).v)
  {
  }

  lemma KeyOccurs(items: seq<DataSyncItem>, key: Key) returns (i: nat, j: nat, role: ColumnRole)
    requires SameKeys(items) && TouchesKey(items, key)
    ensures i < |items| && j < |items[i].batch| && (role == OldPk || role == NewPk)
    ensures |items[i].batch[j]| == |items[i].schema| && KeyOf(items[i].schema, role, items[i].batch[j]) == key
  {
    var p, c :| 0 <= p < |items| && c in Changes(items[p]) && (c.oldPk == key || c.newPk == key);
    i := p;
    var q :| 0 <= q < |items[i].batch| && c == Changes(items[i])[q];
    j := q;
    role := if c.oldPk == key then OldPk else NewPk;
  }

  lemma KeyFound(items: seq<DataSyncItem>, st: PruningStats, f: nat, i: nat, j: nat, role: ColumnRole,
                 key: map<string, int>)
    requires items != [] && SameKeys(items) && ShapedStats(st) && f < st.containers && !SomeBare(items, st)
    requires i < |items| && j < |items[i].batch| && (role == OldPk || role == NewPk)
    requires KeyOf(items[i].schema, role, items[i].batch[j]) == Pk(key)
    requires forall n :: n in key ==>
      && (MinOf(st, n, f).Val? ==> MinOf(st, n, f).v <= key[n])
      && (MaxOf(st, n, f).Val? ==> key[n] <= MaxOf(st, n, f).v)
    ensures KeptFor(items, st, f, i, role)
  {
    var s, row := items[i].schema, items[i].batch[j];
    AllCovered(items, st, i, role);
    KeyNotRefuted(s, role, row, key, st, f, |Columns(s, role)|);
    SomeKeyColumn(s, role);
    KeyCell(s, role, row, key, 0);
    assert RowKeeps(s, role, row, st, f);
  }

  lemma SomeKeyColumn(s: SyncSchema, role: ColumnRole)
    requires Names(s, role) != {}
    ensures Columns(s, role) != []
  {
    var n :| n in Names(s, role);
    var c :| 0 <= c < |s| && s[c].role == role && s[c].name == n;
    ColumnListed(s, c);
  }

  // ---------------------------------------------------------------------------------------------
  // Coarse pruning
  // ---------------------------------------------------------------------------------------------

  datatype Bound = Bound(name: string, lo: int, hi: int)

  /** The non-NULL values of a key column over all items. */
  ghost predicate Occurs(items: seq<DataSyncItem>, role: ColumnRole, name: string, v: int) {
    exists i, j :: 0 <= i < |items| && 0 <= j < |items[i].batch| && CellIs(items[i], role, name, j, v)
  }

  ghost predicate CellIs(item: DataSyncItem, role: ColumnRole, name: string, j: nat, v: int) {
    var c := Find(item.schema, name, role);
    j < |item.batch| && c < |item.batch[j]| && item.batch[j][c] == Val(v)
  }

  ghost predicate IsRange(items: seq<DataSyncItem>, role: ColumnRole, name: string, lo: Cell, hi: Cell) {
    if lo.Null? || hi.Null? then lo.Null? && hi.Null? && forall v :: !Occurs(items, role, name, v)
    else
      && Occurs(items, role, name, lo.v) && Occurs(items, role, name, hi.v)
      && forall v :: Occurs(items, role, name, v) ==> lo.v <= v <= hi.v
  }

  ghost predicate Widened(item: DataSyncItem, role: ColumnRole, name: string, n: nat, lo0: Cell, hi0: Cell,
                          lo: Cell, hi: Cell) {
    && (lo.Null? <==> hi.Null?)
    && (lo0.Val? ==> hi0.Val? && lo.Val? && lo.v <= lo0.v && hi0.v <= hi.v)
    && (lo.Val? ==> lo == lo0 || exists q :: 0 <= q < n && CellIs(item, role, name, q, lo.v))
    && (hi.Val? ==> hi == hi0 || exists q :: 0 <= q < n && CellIs(item, role, name, q, hi.v))
    && (forall q, v :: 0 <= q < n && CellIs(item, role, name, q, v) ==> lo.Val? && lo.v <= v <= hi.v)
  }

  /** Feed one item's key column to the min/max accumulators, which ignore NULLs. */
  method UpdateRange(item: DataSyncItem, role: ColumnRole, name: string, lo0: Cell, hi0: Cell)
    returns (lo: Cell, hi: Cell)
    requires Shaped(item.schema, item.batch) && name in Names(item.schema, role) && (lo0.Null? <==> hi0.Null?)
    ensures Widened(item, role, name, |item.batch|, lo0, hi0, lo, hi)
  {
    hide Widened, Find, CellIs;
    NameFound(item.schema, name, role);
    var c := Find(item.schema, name, role);
    lo, hi := lo0, hi0;
    NotWidened(item, role, name, lo0, hi0);
    var j := 0;
    while j < |item.batch|
      invariant 0 <= j <= |item.batch| && Widened(item, role, name, j, lo0, hi0, lo, hi)
    {
      var cell := item.batch[j][c];
      WidenedMore(item, role, name, j, lo0, hi0, lo, hi);
      if cell.Val? {
        lo := if lo.Null? || cell.v < lo.v then cell else lo;
        hi := if hi.Null? || cell.v > hi.v then cell else hi;
      }
      j := j + 1;
    }
  }

  lemma NotWidened(item: DataSyncItem, role: ColumnRole, name: string, lo0: Cell, hi0: Cell)
    requires lo0.Null? <==> hi0.Null?
    ensures Widened(item, role, name, 0, lo0, hi0, lo0, hi0)
  {
  }

  /** One more cell lowers the minimum or raises the maximum; a NULL does neither. */
  lemma WidenedMore(item: DataSyncItem, role: ColumnRole, name: string, j: nat, lo0: Cell, hi0: Cell,
                    lo: Cell, hi: Cell)
    requires Shaped(item.schema, item.batch) && j < |item.batch| && Find(item.schema, name, role) < |item.schema|
    requires Widened(item, role, name, j, lo0, hi0, lo, hi)
    ensures var cell := item.batch[j][Find(item.schema, name, role)];
      Widened(item, role, name, j + 1, lo0, hi0,
              if cell.Val? && (lo.Null? || cell.v < lo.v) then cell else lo,
              if cell.Val? && (hi.Null? || cell.v > hi.v) then cell else hi)
  {
    hide Find;
    var cell := item.batch[j][Find(item.schema, name, role)];
    forall v ensures CellIs(item, role, name, j, v) <==> cell == Val(v) {
    }
    hide CellIs;
  }

  /** The range of one key column over all items. */
  method ColumnRange(items: seq<DataSyncItem>, role: ColumnRole, name: string) returns (lo: Cell, hi: Cell)
    requires forall i :: 0 <= i < |items| ==>
      Shaped(items[i].schema, items[i].batch) && name in Names(items[i].schema, role)
    ensures IsRange(items, role, name, lo, hi)
  {
    lo, hi := Null, Null;
    var i := 0;
    while i < |items|
      invariant 0 <= i <= |items| && IsRange(items[..i], role, name, lo, hi)
    {
      var lo0, hi0 := lo, hi;
      lo, hi := UpdateRange(items[i], role, name, lo0, hi0);
      RangeExtended(items, role, name, i, lo0, hi0, lo, hi);
      i := i + 1;
    }
    assert items[..i] == items;
  }

  lemma OccursMore(items: seq<DataSyncItem>, role: ColumnRole, name: string, i: nat, v: int)
    requires i < |items|
    ensures Occurs(items[..i + 1], role, name, v)
       <==> Occurs(items[..i], role, name, v)
            || exists q :: 0 <= q < |items[i].batch| && CellIs(items[i], role, name, q, v)
  {
    var a, b := items[..i], items[..i + 1];
    if Occurs(a, role, name, v) {
      var p, q :| 0 <= p < |a| && 0 <= q < |a[p].batch| && CellIs(a[p], role, name, q, v);
      assert b[p] == a[p];
    }
    if q :| 0 <= q < |items[i].batch| && CellIs(items[i], role, name, q, v) {
      assert b[i] == items[i];
    }
    if Occurs(b, role, name, v) {
      var p, q :| 0 <= p < |b| && 0 <= q < |b[p].batch| && CellIs(b[p], role, name, q, v);
      if p < i {
        assert a[p] == b[p];
      }
    }
  }

  lemma RangeExtended(items: seq<DataSyncItem>, role: ColumnRole, name: string, i: nat, lo0: Cell, hi0: Cell,
                      lo: Cell, hi: Cell)
    requires i < |items| && IsRange(items[..i], role, name, lo0, hi0)
    requires Widened(items[i], role, name, |items[i].batch|, lo0, hi0, lo, hi)
    ensures IsRange(items[..i + 1], role, name, lo, hi)
  {
    var more := items[..i + 1];
    forall v | Occurs(more, role, name, v)
      ensures lo.Val? && hi.Val? && lo.v <= v <= hi.v
    {
      OccursMore(items, role, name, i, v);
      if Occurs(items[..i], role, name, v) {
        assert lo0.Val? && lo0.v <= v <= hi0.v;
      }
    }
    if lo.Val? {
      OccursMore(items, role, name, i, lo.v);
      OccursMore(items, role, name, i, hi.v);
    }
  }

  ghost predicate IsQualifier(items: seq<DataSyncItem>, role: ColumnRole, names: seq<string>, q: seq<Bound>) {
    && (forall b :: b in q ==> b.name in names && IsRange(items, role, b.name, Val(b.lo), Val(b.hi)))
    && (forall n :: n in names ==>
          (exists b :: b in q && b.name == n) || IsRange(items, role, n, Null, Null))
  }

  /** `BETWEEN` bounds for every key column that has a non-NULL value; none means no qualifier. */
  method ConstructQualifier(items: seq<DataSyncItem>, role: ColumnRole) returns (q: seq<Bound>)
    requires items != [] && SameKeys(items) && (role == OldPk || role == NewPk)
    ensures IsQualifier(items, role, PkNames(items[0].schema, role), q)
  {
    var names := PkNames(items[0].schema, role);
    q := [];
    var k := 0;
    while k < |names|
      invariant 0 <= k <= |names|
      invariant IsQualifier(items, role, names[..k], q)
    {
      forall i | 0 <= i < |items|
        ensures Shaped(items[i].schema, items[i].batch) && names[k] in Names(items[i].schema, role)
      {
        assert items[0].schema[Columns(items[0].schema, role)[k]].name in Names(items[0].schema, role);
      }
      var lo, hi := ColumnRange(items, role, names[k]);
      ghost var q0 := q;
      if lo.Val? && hi.Val? {
        q := q + [Bound(names[k], lo.v, hi.v)];
      }
      QualifierExtended(items, role, names, k, q0, q, lo, hi);
      k := k + 1;
    }
    assert names[..k] == names;
  }

  lemma QualifierExtended(items: seq<DataSyncItem>, role: ColumnRole, names: seq<string>, k: nat,
                          q0: seq<Bound>, q: seq<Bound>, lo: Cell, hi: Cell)
    requires k < |names| && IsQualifier(items, role, names[..k], q0) && IsRange(items, role, names[k], lo, hi)
    requires q == if lo.Val? && hi.Val? then q0 + [Bound(names[k], lo.v, hi.v)] else q0
    ensures IsQualifier(items, role, names[..k + 1], q)
  {
    assert names[..k + 1] == names[..k] + [names[k]];
    hide IsRange;
    forall n | n in names[..k + 1]
      ensures (exists b :: b in q && b.name == n) || IsRange(items, role, n, Null, Null)
    {
      if n in names[..k] && !IsRange(items, role, n, Null, Null) {
        var b :| b in q0 && b.name == n;
        assert b in q;
      } else if n !in names[..k] && lo.Val? && hi.Val? {
        assert q[|q| - 1].name == n;
      }
    }
  }

  /** A qualifier refutes a file when some column's statistics lie outside its bounds. */
  predicate Refutes(b: Bound, st: PruningStats, file: nat)
    requires ShapedStats(st) && file < st.containers
  {
    var mn, mx := MinOf(st, b.name, file), MaxOf(st, b.name, file);
    (mn.Val? && b.hi < mn.v) || (mx.Val? && mx.v < b.lo)
  }

  predicate Admits(q: seq<Bound>, st: PruningStats, file: nat)
    requires ShapedStats(st) && file < st.containers
  {
    q != [] && forall b :: b in q ==> !Refutes(b, st, file)
  }

  /** Some row has a non-NULL value in a key column on this side. */
  ghost predicate AnyKey(items: seq<DataSyncItem>, role: ColumnRole)
    requires items != []
  {
    exists n, v :: n in PkNames(items[0].schema, role) && Occurs(items, role, n, v)
  }

  /** The min/max box of all keys on one side overlaps the file's statistics. */
  ghost predicate BoxKeeps(items: seq<DataSyncItem>, role: ColumnRole, st: PruningStats, file: nat)
    requires items != [] && ShapedStats(st) && file < st.containers
  {
    && AnyKey(items, role)
    && forall n, lo, hi :: n in PkNames(items[0].schema, role) && IsRange(items, role, n, Val(lo), Val(hi)) ==>
         !Refutes(Bound(n, lo, hi), st, file)
  }

  ghost predicate CoarseKeeps(items: seq<DataSyncItem>, st: PruningStats, file: nat)
    requires items != [] && ShapedStats(st) && file < st.containers
  {
    BoxKeeps(items, OldPk, st, file) || BoxKeeps(items, NewPk, st, file)
  }

  /** On this side, the values of every key column reach from below the file's maximum to above its minimum,
      where there are any and the file has those statistics. */
  ghost predicate Overlaps(items: seq<DataSyncItem>, role: ColumnRole, st: PruningStats, file: nat)
    requires items != [] && ShapedStats(st) && file < st.containers
  {
    forall n, w :: n in PkNames(items[0].schema, role) && Occurs(items, role, n, w) ==>
      && (MinOf(st, n, file).Val? ==> exists v :: Occurs(items, role, n, v) && MinOf(st, n, file).v <= v)
      && (MaxOf(st, n, file).Val? ==> exists v :: Occurs(items, role, n, v) && v <= MaxOf(st, n, file).v)
  }

  /** Coarse pruning keeps a file exactly when on one side there are keys, and on every key column of that
      side they overlap the file's range. */
  lemma CoarseExact(items: seq<DataSyncItem>, st: PruningStats, file: nat)
    requires items != [] && SameKeys(items) && ShapedStats(st) && file < st.containers
    ensures CoarseKeeps(items, st, file) <==>
      || (AnyKey(items, OldPk) && Overlaps(items, OldPk, st, file))
      || (AnyKey(items, NewPk) && Overlaps(items, NewPk, st, file))
  {
    hide SameKeys, AnyKey, Overlaps;
    BoxExact(items, OldPk, st, file);
    BoxExact(items, NewPk, st, file);
  }

  lemma {:induction false} WidenedOver(item: DataSyncItem, role: ColumnRole, name: string, n: nat, lo0: Cell, hi0: Cell)
    returns (lo: Cell, hi: Cell)
    requires Shaped(item.schema, item.batch) && Find(item.schema, name, role) < |item.schema|
    requires n <= |item.batch| && (lo0.Null? <==> hi0.Null?)
    ensures Widened(item, role, name, n, lo0, hi0, lo, hi)
  {
    hide Widened, Find;
    lo, hi := lo0, hi0;
    if n == 0 {
      NotWidened(item, role, name, lo0, hi0);
    } else {
      lo, hi := WidenedOver(item, role, name, n - 1, lo0, hi0);
      WidenedMore(item, role, name, n - 1, lo0, hi0, lo, hi);
      var cell := item.batch[n - 1][Find(item.schema, name, role)];
      lo, hi := if cell.Val? && (lo.Null? || cell.v < lo.v) then cell else lo,
                if cell.Val? && (hi.Null? || cell.v > hi.v) then cell else hi;
    }
  }

  lemma {:induction false} RangeOver(items: seq<DataSyncItem>, role: ColumnRole, name: string, n: nat)
    returns (lo: Cell, hi: Cell)
    requires n <= |items| && forall i :: 0 <= i < |items| ==>
      Shaped(items[i].schema, items[i].batch) && name in Names(items[i].schema, role)
    ensures IsRange(items[..n], role, name, lo, hi)
  {
    hide Widened, Find, CellIs, Names;
    lo, hi := Null, Null;
    if n > 0 {
      var lo0, hi0 := RangeOver(items, role, name, n - 1);
      NameFound(items[n - 1].schema, name, role);
      lo, hi := WidenedOver(items[n - 1], role, name, |items[n - 1].batch|, lo0, hi0);
      RangeExtended(items, role, name, n - 1, lo0, hi0, lo, hi);
    }
  }

  /** A key column with some value has a least and a greatest one. */
  lemma RangeOf(items: seq<DataSyncItem>, role: ColumnRole, name: string, w: int) returns (lo: int, hi: int)
    requires items != [] && SameKeys(items) && (role == OldPk || role == NewPk)
    requires name in PkNames(items[0].schema, role) && Occurs(items, role, name, w)
    ensures IsRange(items, role, name, Val(lo), Val(hi))
  {
    hide Occurs, Find, DistinctColumns;
    KeyNamed(items[0].schema, role, name);
    var l, h := RangeOver(items, role, name, |items|);
    assert items[..|items|] == items;
    lo, hi := l.v, h.v;
  }

  lemma KeyNamed(s: SyncSchema, role: ColumnRole, name: string)
    requires name in PkNames(s, role)
    ensures name in Names(s, role)
  {
    var i :| 0 <= i < |PkNames(s, role)| && PkNames(s, role)[i] == name;
    assert s[Columns(s, role)[i]].name == name;
  }

  lemma BoxExact(items: seq<DataSyncItem>, role: ColumnRole, st: PruningStats, file: nat)
    requires items != [] && SameKeys(items) && ShapedStats(st) && file < st.containers
    requires role == OldPk || role == NewPk
    ensures BoxKeeps(items, role, st, file) <==> AnyKey(items, role) && Overlaps(items, role, st, file)
  {
    hide SameKeys, ShapedStats, PkNames, Occurs, MinOf, MaxOf, AnyKey;
    if AnyKey(items, role) && Overlaps(items, role, st, file) {
      forall n, lo, hi | n in PkNames(items[0].schema, role) && IsRange(items, role, n, Val(lo), Val(hi))
        ensures !Refutes(Bound(n, lo, hi), st, file)
      {
        assert Occurs(items, role, n, lo);
      }
    }
    if BoxKeeps(items, role, st, file) {
      forall n, w | n in PkNames(items[0].schema, role) && Occurs(items, role, n, w)
        ensures MinOf(st, n, file).Val? ==> exists v :: Occurs(items, role, n, v) && MinOf(st, n, file).v <= v
        ensures MaxOf(st, n, file).Val? ==> exists v :: Occurs(items, role, n, v) && v <= MaxOf(st, n, file).v
      {
        var lo, hi := RangeOf(items, role, n, w);
        assert !Refutes(Bound(n, lo, hi), st, file);
      }
    }
  }

  lemma RangeUnique(items: seq<DataSyncItem>, role: ColumnRole, n: string, lo: int, hi: int, lo': int, hi': int)
    requires IsRange(items, role, n, Val(lo), Val(hi)) && IsRange(items, role, n, Val(lo'), Val(hi'))
    ensures lo == lo' && hi == hi'
  {
  }

  lemma QualifierIsBox(items: seq<DataSyncItem>, role: ColumnRole, q: seq<Bound>, st: PruningStats, file: nat)
    requires items != [] && ShapedStats(st) && file < st.containers
    requires IsQualifier(items, role, PkNames(items[0].schema, role), q)
    ensures Admits(q, st, file) <==> BoxKeeps(items, role, st, file)
  {
    QualifierNonEmpty(items, role, q);
    var names := PkNames(items[0].schema, role);
    if Admits(q, st, file) {
      forall n, lo, hi | n in names && IsRange(items, role, n, Val(lo), Val(hi))
        ensures !Refutes(Bound(n, lo, hi), st, file)
      {
        var b :| b in q && b.name == n;
        RangeUnique(items, role, n, lo, hi, b.lo, b.hi);
        assert b == Bound(n, lo, hi);
      }
    }
    if BoxKeeps(items, role, st, file) {
      forall b | b in q ensures !Refutes(b, st, file) {
        assert b == Bound(b.name, b.lo, b.hi);
      }
    }
  }

  lemma QualifierNonEmpty(items: seq<DataSyncItem>, role: ColumnRole, q: seq<Bound>)
    requires items != [] && IsQualifier(items, role, PkNames(items[0].schema, role), q)
    ensures q != [] <==> AnyKey(items, role)
  {
    if q != [] {
      assert q[0] in q;
      assert Occurs(items, role, q[0].name, q[0].lo);
    }
    if AnyKey(items, role) {
      var n, v :| n in PkNames(items[0].schema, role) && Occurs(items, role, n, v);
      assert !IsRange(items, role, n, Null, Null);
    }
  }

  // ---------------------------------------------------------------------------------------------
  // Coarse pruning is sound, and fine pruning keeps no more than it
  // ---------------------------------------------------------------------------------------------

  /** The file's statistics leave room for the key. */
  ghost predicate HasRoomFor(st: PruningStats, file: nat, key: map<string, int>)
    requires ShapedStats(st) && file < st.containers
  {
    forall n :: n in key ==>
      && (MinOf(st, n, file).Val? ==> MinOf(st, n, file).v <= key[n])
      && (MaxOf(st, n, file).Val? ==> key[n] <= MaxOf(st, n, file).v)
  }

  lemma KeyOccursAt(items: seq<DataSyncItem>, i: nat, j: nat, role: ColumnRole, key: map<string, int>, n: string)
    requires items != [] && SameKeys(items) && i < |items| && j < |items[i].batch| && (role == OldPk || role == NewPk)
    requires KeyOf(items[i].schema, role, items[i].batch[j]) == Pk(key)
    requires n in Names(items[0].schema, OldPk)
    ensures n in key && Occurs(items, role, n, key[n])
  {
    var s, row := items[i].schema, items[i].batch[j];
    NameFound(s, n, role);
    var c := Find(s, n, role);
    assert NamedCells(s, role, row)[n] == row[c];
    assert n in key && row[c] == Val(key[n]);
    assert CellIs(items[i], role, n, j, key[n]);
  }

  lemma FirstNames(items: seq<DataSyncItem>, role: ColumnRole, n: string)
    requires items != [] && SameKeys(items) && (role == OldPk || role == NewPk)
    ensures n in PkNames(items[0].schema, role) <==> n in Names(items[0].schema, OldPk)
  {
    NamesListed(items[0].schema, role, n);
    assert Names(items[0].schema, role) == Names(items[0].schema, OldPk);
  }

  lemma NamesListed(s: SyncSchema, role: ColumnRole, n: string)
    ensures n in PkNames(s, role) <==> n in Names(s, role)
  {
    if n in Names(s, role) {
      var c :| 0 <= c < |s| && s[c].role == role && s[c].name == n;
      ColumnListed(s, c);
      var i :| 0 <= i < |Columns(s, role)| && Columns(s, role)[i] == c;
      assert PkNames(s, role)[i] == n;
    }
    if n in PkNames(s, role) {
      var i :| 0 <= i < |PkNames(s, role)| && PkNames(s, role)[i] == n;
      assert s[Columns(s, role)[i]].name == n;
    }
  }

  lemma BoxHasRoom(items: seq<DataSyncItem>, i: nat, j: nat, role: ColumnRole, key: map<string, int>, st: PruningStats,
                   file: nat)
    requires items != [] && SameKeys(items) && i < |items| && j < |items[i].batch| && (role == OldPk || role == NewPk)
    requires KeyOf(items[i].schema, role, items[i].batch[j]) == Pk(key)
    requires ShapedStats(st) && file < st.containers && HasRoomFor(st, file, key)
    ensures BoxKeeps(items, role, st, file)
  {
    hide KeyOf, SameKeys, PkNames, MinOf, MaxOf, ShapedStats;
    forall n | n in PkNames(items[0].schema, role)
      ensures n in key && Occurs(items, role, n, key[n])
    {
      FirstNames(items, role, n);
      KeyOccursAt(items, i, j, role, key, n);
    }
    var n := FirstKeyName(items, role);
    assert Occurs(items, role, n, key[n]);
  }

  lemma FirstKeyName(items: seq<DataSyncItem>, role: ColumnRole) returns (n: string)
    requires items != [] && SameKeys(items) && (role == OldPk || role == NewPk)
    ensures n in PkNames(items[0].schema, role)
  {
    var names := Names(items[0].schema, OldPk);
    assert names != {};
    n :| n in names;
    FirstNames(items, role, n);
  }

  /** Coarse pruning keeps every file with a row that some change refers to. */
  lemma CoarsePruningSound(items: seq<DataSyncItem>, st: PruningStats, files: seq<seq<Row>>, f: nat, r: Row)
    requires items != [] && SameKeys(items) && Truthful(st, files) && f < |files| && r in files[f]
    requires r.key.Pk? && TouchesKey(items, r.key)
    ensures CoarseKeeps(items, st, f)
  {
    TruthfulKey(st, files, f, r);
    hide SameKeys, MinOf, MaxOf, KeyOf, TouchesKey, Truthful, ShapedStats, BoxKeeps;
    var i, j, role := KeyOccurs(items, r.key);
    BoxHasRoom(items, i, j, role, r.key.cols, st, f);
  }

  ghost predicate NoMixedKeys(items: seq<DataSyncItem>)
    requires SameKeys(items)
  {
    forall i, j, role :: 0 <= i < |items| && 0 <= j < |items[i].batch| && (role == OldPk || role == NewPk) ==>
      !KeyOf(items[i].schema, role, items[i].batch[j]).Mixed?
  }

  lemma {:induction false} VerdictColumn(s: SyncSchema, role: ColumnRole, row: seq<Cell>, st: PruningStats, file: nat,
                                         k: nat, i: nat)
    requires |row| == |s| && ShapedStats(st) && file < st.containers
    requires i < k <= |Columns(s, role)| && KeyColumnsCovered(s, role, st)
    requires KeyVerdict(s, role, row, st, file, k) != No
    ensures var c := Columns(s, role)[i]; !Bare(st, s[c].name) && ColumnVerdict(st, s[c].name, file, row[c]) != No
  {
    hide Columns, ColumnVerdict, ShapedStats;
    if i < k - 1 {
      VerdictColumn(s, role, row, st, file, k - 1, i);
    }
  }

  /** A row that keeps a file has a key that the file's statistics leave room for. */
  lemma KeptHasRoom(s: SyncSchema, role: ColumnRole, row: seq<Cell>, st: PruningStats, file: nat)
    requires DistinctColumns(s) && |row| == |s| && ShapedStats(st) && file < st.containers
    requires KeyColumnsCovered(s, role, st) && RowKeeps(s, role, row, st, file) && !KeyOf(s, role, row).Mixed?
    ensures KeyOf(s, role, row).Pk? && HasRoomFor(st, file, KeyOf(s, role, row).cols)
  {
    AbsentByPosition(s, role, row);
    assert PosKey(s, role, row)[0].Val?;
    hide Columns, PosKey, KeyVerdict, KeyColumnsCovered, MinOf, MaxOf, DistinctColumns;
    var key := KeyOf(s, role, row).cols;
    forall n | n in key
      ensures MinOf(st, n, file).Val? ==> MinOf(st, n, file).v <= key[n]
      ensures MaxOf(st, n, file).Val? ==> key[n] <= MaxOf(st, n, file).v
    {
      ColumnHasRoom(s, role, row, st, file, key, n);
    }
  }

  lemma ColumnHasRoom(s: SyncSchema, role: ColumnRole, row: seq<Cell>, st: PruningStats, file: nat,
                      key: map<string, int>, n: string)
    requires DistinctColumns(s) && |row| == |s| && ShapedStats(st) && file < st.containers
    requires KeyColumnsCovered(s, role, st) && KeyVerdict(s, role, row, st, file, |Columns(s, role)|) != No
    requires KeyOf(s, role, row) == Pk(key) && n in key
    ensures MinOf(st, n, file).Val? ==> MinOf(st, n, file).v <= key[n]
    ensures MaxOf(st, n, file).Val? ==> key[n] <= MaxOf(st, n, file).v
  {
    hide *;
    var i := KeyColumn(s, role, row, key, n);
    KeyCell(s, role, row, key, i);
    VerdictColumn(s, role, row, st, file, |Columns(s, role)|, i);
    VerdictBounds(st, n, file, key[n]);
  }

  lemma KeyColumn(s: SyncSchema, role: ColumnRole, row: seq<Cell>, key: map<string, int>, n: string) returns (i: nat)
    requires DistinctColumns(s) && |row| == |s| && KeyOf(s, role, row) == Pk(key) && n in key
    ensures i < |Columns(s, role)| && s[Columns(s, role)[i]].name == n
  {
    hide Columns, Find, DistinctColumns, Names;
    i := CellFrom(s, role, row, n);
  }

  lemma VerdictBounds(st: PruningStats, n: string, file: nat, v: int)
    requires ShapedStats(st) && file < st.containers && !Bare(st, n) && ColumnVerdict(st, n, file, Val(v)) != No
    ensures MinOf(st, n, file).Val? ==> MinOf(st, n, file).v <= v
    ensures MaxOf(st, n, file).Val? ==> v <= MaxOf(st, n, file).v
  {
  }

  /** The first key column of the row has a value. */
  ghost predicate FirstSet(s: SyncSchema, role: ColumnRole, row: seq<Cell>)
    requires |row| == |s|
  {
    exists c :: 0 <= c < |s| && s[c].role == role && row[c].Val? && forall d :: 0 <= d < c ==> s[d].role != role
  }

  /** The file's statistics leave room for every key value of the row. */
  ghost predicate FitsFile(s: SyncSchema, role: ColumnRole, row: seq<Cell>, st: PruningStats, file: nat)
    requires |row| == |s| && ShapedStats(st) && file < st.containers
  {
    forall c :: 0 <= c < |s| && s[c].role == role && row[c].Val? ==>
      && (MinOf(st, s[c].name, file).Val? ==> MinOf(st, s[c].name, file).v <= row[c].v)
      && (MaxOf(st, s[c].name, file).Val? ==> row[c].v <= MaxOf(st, s[c].name, file).v)
  }

  ghost predicate RowFits(item: DataSyncItem, role: ColumnRole, j: nat, st: PruningStats, file: nat)
    requires Shaped(item.schema, item.batch) && j < |item.batch| && ShapedStats(st) && file < st.containers
  {
    FirstSet(item.schema, role, item.batch[j]) && FitsFile(item.schema, role, item.batch[j], st, file)
  }

  lemma ColumnsSnoc(s: SyncSchema, role: ColumnRole)
    requires s != []
    ensures var n := |s| - 1; Columns(s, role) == Columns(s[..n], role) + if s[n].role == role then [n] else []
  {
  }

  lemma {:induction false} FirstColumn(s: SyncSchema, role: ColumnRole, d: nat)
    requires d < |s| && s[d].role == role
    ensures Columns(s, role) != [] && Columns(s, role)[0] <= d
  {
    hide Columns;
    ColumnsSnoc(s, role);
    var n := |s| - 1;
    if d < n {
      FirstColumn(s[..n], role, d);
    } else if Columns(s[..n], role) != [] {
      assert Columns(s, role)[0] == Columns(s[..n], role)[0];
    }
  }

  lemma FirstSetIs(s: SyncSchema, role: ColumnRole, row: seq<Cell>)
    requires |row| == |s|
    ensures HasKey(s, role, row) <==> FirstSet(s, role, row)
  {
    hide Columns;
    forall d | 0 <= d < |s| && s[d].role == role ensures Columns(s, role) != [] && Columns(s, role)[0] <= d {
      FirstColumn(s, role, d);
    }
    if HasKey(s, role, row) {
      var c := Columns(s, role)[0];
      assert s[c].role == role && row[c].Val?;
    }
  }

  lemma VerdictIs(st: PruningStats, n: string, file: nat, cell: Cell)
    requires ShapedStats(st) && file < st.containers && !Bare(st, n)
    ensures ColumnVerdict(st, n, file, cell) != No <==>
      (cell.Val? ==>
         && (MinOf(st, n, file).Val? ==> MinOf(st, n, file).v <= cell.v)
         && (MaxOf(st, n, file).Val? ==> cell.v <= MaxOf(st, n, file).v))
  {
  }

  lemma {:induction false} VerdictOfAll(s: SyncSchema, role: ColumnRole, row: seq<Cell>, st: PruningStats, file: nat,
                                        k: nat)
    requires |row| == |s| && ShapedStats(st) && file < st.containers
    requires k <= |Columns(s, role)| && KeyColumnsCovered(s, role, st)
    requires forall i :: 0 <= i < k ==>
      var c := Columns(s, role)[i]; !Bare(st, s[c].name) && ColumnVerdict(st, s[c].name, file, row[c]) != No
    ensures KeyVerdict(s, role, row, st, file, k) != No
  {
    hide Columns, ColumnVerdict, ShapedStats;
    if k > 0 {
      VerdictOfAll(s, role, row, st, file, k - 1);
    }
  }

  lemma RowKeepsIs(s: SyncSchema, role: ColumnRole, row: seq<Cell>, st: PruningStats, file: nat)
    requires |row| == |s| && ShapedStats(st) && file < st.containers && KeyColumnsCovered(s, role, st)
    ensures RowKeeps(s, role, row, st, file) <==> FirstSet(s, role, row) && FitsFile(s, role, row, st, file)
  {
    hide Columns, KeyVerdict, ColumnVerdict, HasKey, FirstSet, MinOf, MaxOf, ShapedStats, Bare;
    FirstSetIs(s, role, row);
    var cols := Columns(s, role);
    forall c | 0 <= c < |s| && s[c].role == role ensures exists i :: 0 <= i < |cols| && cols[i] == c {
      ColumnListed(s, c);
    }
    forall i | 0 <= i < |cols|
      ensures var c := cols[i];
        && s[c].role == role && !Bare(st, s[c].name)
        && (ColumnVerdict(st, s[c].name, file, row[c]) != No <==>
              (row[c].Val? ==>
                 && (MinOf(st, s[c].name, file).Val? ==> MinOf(st, s[c].name, file).v <= row[c].v)
                 && (MaxOf(st, s[c].name, file).Val? ==> row[c].v <= MaxOf(st, s[c].name, file).v)))
    {
      VerdictIs(st, s[cols[i]].name, file, row[cols[i]]);
    }
    if KeyVerdict(s, role, row, st, file, |cols|) != No {
      forall i | 0 <= i < |cols| ensures ColumnVerdict(st, s[cols[i]].name, file, row[cols[i]]) != No {
        VerdictColumn(s, role, row, st, file, |cols|, i);
      }
    }
    if FitsFile(s, role, row, st, file) {
      VerdictOfAll(s, role, row, st, file, |cols|);
    }
  }

  lemma KeptForIs(items: seq<DataSyncItem>, st: PruningStats, file: nat, i: nat, role: ColumnRole)
    requires items != [] && SameKeys(items) && ShapedStats(st) && file < st.containers
    requires !SomeBare(items, st) && i < |items| && (role == OldPk || role == NewPk)
    ensures KeptFor(items, st, file, i, role) <==>
      exists j :: 0 <= j < |items[i].batch| && RowFits(items[i], role, j, st, file)
  {
    hide FirstSet, FitsFile, RowKeeps, ShapedStats, KeyColumnsCovered, SomeBare;
    AllCovered(items, st, i, role);
    var s, batch := items[i].schema, items[i].batch;
    forall j | 0 <= j < |batch|
      ensures RowKeeps(s, role, batch[j], st, file) <==> RowFits(items[i], role, j, st, file)
    {
      RowKeepsIs(s, role, batch[j], st, file);
    }
  }

  /** Fine pruning keeps a file if and only if some key column has no statistics at all, or some row of
      some item has a value in its first key column and all its key values fit the file. */
  lemma FineExact(items: seq<DataSyncItem>, st: PruningStats, file: nat)
    requires items != [] && SameKeys(items) && ShapedStats(st) && file < st.containers
    ensures FineKeeps(items, st, file) <==>
      || (exists n :: n in Names(items[0].schema, OldPk) && n !in st.mins && n !in st.maxs)
      || (exists i, j, role :: 0 <= i < |items| && 0 <= j < |items[i].batch| && (role == OldPk || role == NewPk) &&
            RowFits(items[i], role, j, st, file))
  {
    hide RowFits, ShapedStats, Names, KeptFor, DistinctColumns;
    assert SomeBare(items, st) <==> exists n :: n in Names(items[0].schema, OldPk) && n !in st.mins && n !in st.maxs;
    if !SomeBare(items, st) {
      forall i, role | 0 <= i < |items| && (role == OldPk || role == NewPk)
        ensures KeptFor(items, st, file, i, role) <==>
          exists j :: 0 <= j < |items[i].batch| && RowFits(items[i], role, j, st, file)
      {
        KeptForIs(items, st, file, i, role);
      }
      forall i, j, role | 0 <= i < |items| && 0 <= j < |items[i].batch| && (role == OldPk || role == NewPk)
        ensures RowFits(items[i], role, j, st, file) ==> KeptFor(items, st, file, i, role)
      {
      }
    }
  }

  lemma KeptForRefines(items: seq<DataSyncItem>, st: PruningStats, file: nat, i: nat, role: ColumnRole)
    requires items != [] && SameKeys(items) && NoMixedKeys(items) && ShapedStats(st) && file < st.containers
    requires !SomeBare(items, st) && i < |items| && (role == OldPk || role == NewPk)
    requires KeptFor(items, st, file, i, role)
    ensures BoxKeeps(items, role, st, file)
  {
    AllCovered(items, st, i, role);
    var s := items[i].schema;
    var j :| 0 <= j < |items[i].batch| && RowKeeps(s, role, items[i].batch[j], st, file);
    assert !KeyOf(s, role, items[i].batch[j]).Mixed?;
    hide KeyOf, RowKeeps, SomeBare, ShapedStats, HasRoomFor, BoxKeeps, NoMixedKeys;
    KeptHasRoom(s, role, items[i].batch[j], st, file);
    BoxHasRoom(items, i, j, role, KeyOf(s, role, items[i].batch[j]).cols, st, file);
  }

  /** When every key column has statistics, a file kept by fine pruning is kept by coarse pruning. */
  lemma FineRefinesCoarse(items: seq<DataSyncItem>, st: PruningStats, file: nat)
    requires items != [] && SameKeys(items) && NoMixedKeys(items) && ShapedStats(st) && file < st.containers
    requires !SomeBare(items, st) && FineKeeps(items, st, file)
    ensures CoarseKeeps(items, st, file)
  {
    hide KeptFor, BoxKeeps, SameKeys, NoMixedKeys, SomeBare, ShapedStats;
    var i, role :| 0 <= i < |items| && (role == OldPk || role == NewPk) && KeptFor(items, st, file, i, role);
    KeptForRefines(items, st, file, i, role);
  }

  function CountTrue(m: seq<bool>): nat {
    if m == [] then 0 else CountTrue(m[..|m| - 1]) + if m[|m| - 1] then 1 else 0
  }

  lemma {:induction false} CountOfSubset(a: seq<bool>, b: seq<bool>)
    requires |a| == |b| && forall f :: 0 <= f < |a| && a[f] ==> b[f]
    ensures CountTrue(a) <= CountTrue(b) <= |b|
  {
    if a != [] {
      CountOfSubset(a[..|a| - 1], b[..|b| - 1]);
    }
  }

  lemma {:induction false} CountOfAll(m: seq<bool>)
    ensures CountTrue(m) <= |m|
    ensures CountTrue(m) == |m| <==> forall f :: 0 <= f < |m| ==> m[f]
  {
    if m != [] {
      CountOfAll(m[..|m| - 1]);
      assert forall f :: 0 <= f < |m| ==> (m[f] <==> if f < |m| - 1 then m[..|m| - 1][f] else m[|m| - 1]);
    }
  }

  /** What coarse and fine pruning keep, file by file. */
  ghost function CoarseMap(items: seq<DataSyncItem>, st: PruningStats): (m: seq<bool>)
    requires items != [] && ShapedStats(st)
    ensures |m| == st.containers && forall f :: 0 <= f < |m| ==> (m[f] <==> CoarseKeeps(items, st, f))
  {
    seq(st.containers, f requires 0 <= f < st.containers => CoarseKeeps(items, st, f))
  }

  ghost function FineMap(items: seq<DataSyncItem>, st: PruningStats): (m: seq<bool>)
    requires items != [] && SameKeys(items) && ShapedStats(st)
    ensures |m| == st.containers && forall f :: 0 <= f < |m| ==> (m[f] <==> FineKeeps(items, st, f))
  {
    seq(st.containers, f requires 0 <= f < st.containers => FineKeeps(items, st, f))
  }

  ghost predicate SomeDropped(items: seq<DataSyncItem>, st: PruningStats)
    requires items != [] && ShapedStats(st)
  {
    exists f :: 0 <= f < st.containers && !CoarseKeeps(items, st, f)
  }

  /** Fine pruning keeps more files than coarse pruning if some key column has no statistics and coarse
      pruning dropped a file, and with keys that are NULL all together or not at all only then. */
  lemma PrunedCountDifference(items: seq<DataSyncItem>, st: PruningStats)
    requires items != [] && SameKeys(items) && ShapedStats(st)
    ensures SomeBare(items, st) && SomeDropped(items, st) ==>
      CountTrue(CoarseMap(items, st)) < CountTrue(FineMap(items, st))
    ensures NoMixedKeys(items) && CountTrue(CoarseMap(items, st)) < CountTrue(FineMap(items, st)) ==>
      SomeBare(items, st) && SomeDropped(items, st)
  {
    hide CoarseKeeps, SameKeys, NoMixedKeys, ShapedStats, CountTrue;
    var fine, coarse := FineMap(items, st), CoarseMap(items, st);
    CountOfAll(fine);
    CountOfAll(coarse);
    if !SomeBare(items, st) && NoMixedKeys(items) {
      forall f | 0 <= f < st.containers && fine[f] ensures coarse[f] {
        FineRefinesCoarse(items, st, f);
      }
      CountOfSubset(fine, coarse);
    }
  }

  function TwoKeys(a: string, b: string): SyncSchema {
    [SyncColumn(OldPk, a), SyncColumn(OldPk, b), SyncColumn(NewPk, a), SyncColumn(NewPk, b)]
  }

  /** One insert, with the same value in both key columns. */
  function OneInsert(a: string, b: string, v: int): DataSyncItem {
    DataSyncItem(0, TwoKeys(a, b), [[Null, Null, Val(v), Val(v)]])
  }

  /** Two files, each with a range for one column and no other statistics. */
  function TwoRanges(b: string, lo: int, hi: int, lo': int, hi': int): PruningStats {
    PruningStats(2, map[b := [Val(lo), Val(lo')]], map[b := [Val(hi), Val(hi')]])
  }

  lemma TwoKeysFound(a: string, b: string, n: string)
    requires a != b
    ensures var s := TwoKeys(a, b);
      && DistinctColumns(s)
      && Find(s, n, OldPk) == (if n == a then 0 else if n == b then 1 else 4)
      && Find(s, n, NewPk) == (if n == a then 2 else if n == b then 3 else 4)
  {
    hide Find;
    var s := TwoKeys(a, b);
    FindUnique(s, 0);
    FindUnique(s, 1);
    FindUnique(s, 2);
    FindUnique(s, 3);
  }

  lemma TwoKeysNames(a: string, b: string)
    requires a != b
    ensures var s := TwoKeys(a, b); Names(s, OldPk) == Names(s, NewPk) == {a, b}
  {
    hide Names, Find;
    var s := TwoKeys(a, b);
    forall n ensures (n in Names(s, OldPk) <==> n in {a, b}) && (n in Names(s, NewPk) <==> n in {a, b}) {
      TwoKeysFound(a, b, n);
      NameFound(s, n, OldPk);
      NameFound(s, n, NewPk);
    }
  }

  lemma InsertKeys(a: string, b: string, v: int)
    requires a != b
    ensures SameKeys([OneInsert(a, b, v)]) && NoMixedKeys([OneInsert(a, b, v)])
  {
    hide Names, Find, KeyOf, DistinctColumns;
    InsertKey(a, b, v);
    TwoKeysNames(a, b);
    TwoKeysFound(a, b, a);
  }

  lemma InsertKey(a: string, b: string, v: int)
    requires a != b
    ensures var s, row := TwoKeys(a, b), OneInsert(a, b, v).batch[0];
      KeyOf(s, OldPk, row).NoPk? && KeyOf(s, NewPk, row).Pk?
  {
    hide Names, Find;
    var s, row := TwoKeys(a, b), OneInsert(a, b, v).batch[0];
    TwoKeysNames(a, b);
    forall n | n in Names(s, OldPk) ensures NamedCells(s, OldPk, row)[n] == Null {
      TwoKeysFound(a, b, n);
    }
    forall n | n in Names(s, NewPk) ensures NamedCells(s, NewPk, row)[n] == Val(v) {
      TwoKeysFound(a, b, n);
    }
    assert a in NamedCells(s, NewPk, row);
  }

  /** The only value of the new key column. */
  lemma InsertRange(a: string, b: string, v: int)
    requires a != b
    ensures var items := [OneInsert(a, b, v)];
      && IsRange(items, NewPk, b, Val(v), Val(v)) && AnyKey(items, NewPk) && !AnyKey(items, OldPk)
      && PkNames(items[0].schema, NewPk) == [a, b]
  {
    hide Names, Find, Columns;
    var items := [OneInsert(a, b, v)];
    forall n, x ensures !Occurs(items, OldPk, n, x) {
      TwoKeysFound(a, b, n);
    }
    TwoKeysFound(a, b, b);
    assert CellIs(items[0], NewPk, b, 0, v);
    assert Occurs(items, NewPk, b, v);
    forall x | Occurs(items, NewPk, b, x) ensures x == v {
      var i, j :| 0 <= i < |items| && 0 <= j < |items[i].batch| && CellIs(items[i], NewPk, b, j, x);
      assert i == 0 && j == 0;
    }
    KeysListed(a, b);
    assert b in PkNames(items[0].schema, NewPk) by { assert [a, b][1] == b; }
  }

  /** Coarse pruning keeps the first file and drops the second. */
  lemma InsertBoxes(a: string, b: string, v: int, lo: int, hi: int, lo': int, hi': int)
    requires a != b && lo <= v <= hi && v < lo' <= hi'
    ensures CoarseMap([OneInsert(a, b, v)], TwoRanges(b, lo, hi, lo', hi')) == [true, false]
  {
    hide Names, Find, Columns, IsRange, AnyKey, PkNames;
    var items, st := [OneInsert(a, b, v)], TwoRanges(b, lo, hi, lo', hi');
    InsertRange(a, b, v);
    forall n, x, y | n in PkNames(items[0].schema, NewPk) && IsRange(items, NewPk, n, Val(x), Val(y))
      ensures !Refutes(Bound(n, x, y), st, 0)
    {
      if n == b {
        RangeUnique(items, NewPk, b, x, y, v, v);
      }
    }
    assert Refutes(Bound(b, v, v), st, 1);
    assert b in PkNames(items[0].schema, NewPk) by { assert [a, b][1] == b; }
  }

  lemma KeysListed(a: string, b: string)
    ensures PkNames(TwoKeys(a, b), NewPk) == [a, b]
  {
    var s := TwoKeys(a, b);
    assert s[..3][..2] == s[..2] && s[..2][..1] == s[..1] == [s[0]];
    assert Columns([], NewPk) == [] && [s[0]][..0] == [];
    assert Columns(s[..1], NewPk) == [];
    assert Columns(s[..2], NewPk) == [] && Columns(s[..3], NewPk) == [2];
    assert Columns(s, NewPk) == [2, 3];
  }

  // ---------------------------------------------------------------------------------------------
  // Choosing the files
  // ---------------------------------------------------------------------------------------------

  const FINE_GRAINED_PRUNING_ROW_CRITERIA := 3_000_000

  /** The files kept and, if fine pruning took place, by how many files it kept fewer than coarse pruning.
      That number is an unsigned difference: where it is negative, the subtraction overflows. */
  datatype PruneResult = Keep(map_: seq<bool>, saved: Option<int>) | NoKeysPanic

  /** Rows recorded for the kept files; files without a record count for nothing. */
  function TotalRows(keep: seq<bool>, records: seq<Cell>): int
    requires |keep| == |records|
  {
    if keep == [] then 0
    else
      var n := |keep| - 1;
      TotalRows(keep[..n], records[..n]) + if keep[n] && records[n].Val? then records[n].v else 0
  }

  /** The rows of a file count if and only if it is kept and their number is known. */
  lemma {:induction false} TotalDropOne(keep: seq<bool>, records: seq<Cell>, i: nat)
    requires i < |keep| == |records| && keep[i]
    ensures TotalRows(keep, records)
         == TotalRows(keep[i := false], records) + if records[i].Val? then records[i].v else 0
  {
    var n := |keep| - 1;
    if i < n {
      TotalDropOne(keep[..n], records[..n], i);
      assert keep[i := false][..n] == keep[..n][i := false];
    } else {
      assert keep[i := false][..n] == keep[..n];
    }
  }

  lemma {:induction false} TotalNone(keep: seq<bool>, records: seq<Cell>)
    requires |keep| == |records| && forall i :: 0 <= i < |keep| ==> !keep[i]
    ensures TotalRows(keep, records) == 0
  {
    if keep != [] {
      var n := |keep| - 1;
      TotalNone(keep[..n], records[..n]);
    }
  }

  ghost predicate KeepsTouched(items: seq<DataSyncItem>, keep: seq<bool>, files: seq<seq<Row>>)
    requires SameKeys(items) && |keep| == |files|
  {
    forall f, r :: 0 <= f < |files| && r in files[f] && r.key.Pk? && TouchesKey(items, r.key) ==> keep[f]
  }

  /** Coarse pruning, then fine pruning if the files left hold more than three million rows. It panics
      when no item has any key at all; otherwise every file with a row that a change refers to, by old
      or by new key, is kept. */
  method PrunePartitions(items: seq<DataSyncItem>, st: PruningStats, records: seq<Cell>, ghost files: seq<seq<Row>>)
    returns (r: PruneResult)
    requires items != [] && SameKeys(items) && Truthful(st, files) && |records| == st.containers
    ensures r.NoKeysPanic? <==> !AnyKey(items, OldPk) && !AnyKey(items, NewPk)
    ensures r.Keep? ==> |r.map_| == st.containers && KeepsTouched(items, r.map_, files)
    ensures r.Keep? ==>
      var coarse, fine := CoarseMap(items, st), FineMap(items, st);
      r == if TotalRows(coarse, records) > 3_000_000
        then Keep(fine, Some(CountTrue(coarse) - CountTrue(fine)))
        else Keep(coarse, None)
    ensures r.Keep? && Overflowing(items, st, records) ==> Overflows(r)
    ensures r.Keep? && NoMixedKeys(items) && Overflows(r) ==> Overflowing(items, st, records)
  {
    hide BoxKeeps, FineKeeps, SameKeys, NoMixedKeys, Truthful, CountTrue, SomeBare, AnyKey, KeepsTouched, TotalRows;
    assert ShapedStats(st) && |files| == st.containers by { TruthfulShape(st, files); }
    var oldQ := ConstructQualifier(items, OldPk);
    var newQ := ConstructQualifier(items, NewPk);
    QualifierNonEmpty(items, OldPk, oldQ);
    QualifierNonEmpty(items, NewPk, newQ);
    if oldQ == [] && newQ == [] {
      return NoKeysPanic;
    }
    var keep := seq(st.containers, f requires 0 <= f < st.containers => Admits(oldQ, st, f) || Admits(newQ, st, f));
    forall f | 0 <= f < st.containers ensures keep[f] <==> CoarseKeeps(items, st, f) {
      QualifierIsBox(items, OldPk, oldQ, st, f);
      QualifierIsBox(items, NewPk, newQ, st, f);
    }
    assert keep == CoarseMap(items, st);
    PrunedCountDifference(items, st);
    var count := CountTrue(keep);
    if TotalRows(keep, records) > FINE_GRAINED_PRUNING_ROW_CRITERIA {
      var fine := GetPruneMap(items, st);
      assert fine == FineMap(items, st);
      SoundIfFine(items, st, fine, files);
      return Keep(fine, Some(count - CountTrue(fine)));
    }
    SoundIfCoarse(items, st, keep, files);
    r := Keep(keep, None);
  }

  /** The difference was computed, and is negative. */
  predicate Overflows(r: PruneResult) {
    r.Keep? && r.saved.Some? && r.saved.value < 0
  }

  /** The files that coarse pruning left hold more than three million rows, some key column has no
      statistics, and coarse pruning dropped a file. */
  ghost predicate Overflowing(items: seq<DataSyncItem>, st: PruningStats, records: seq<Cell>)
    requires items != [] && ShapedStats(st) && |records| == st.containers
  {
    && TotalRows(CoarseMap(items, st), records) > FINE_GRAINED_PRUNING_ROW_CRITERIA
    && SomeBare(items, st) && SomeDropped(items, st)
  }

  lemma TruthfulShape(st: PruningStats, files: seq<seq<Row>>)
    requires Truthful(st, files)
    ensures ShapedStats(st) && |files| == st.containers
  {
  }

  /** One insert over two key columns, one of which has no statistics, and two files, of which the other
      column rules out the second: if the first has more than three million rows, the difference is
      computed, and is negative. */
  method NegativeDifference(a: string, b: string, v: int, lo: int, hi: int, lo': int, hi': int, n: int, other: Cell,
                            ghost files: seq<seq<Row>>) returns (r: PruneResult)
    requires a != b && lo <= v <= hi && v < lo' <= hi' && n > FINE_GRAINED_PRUNING_ROW_CRITERIA
    requires Truthful(TwoRanges(b, lo, hi, lo', hi'), files)
    ensures r == Keep([true, true], Some(-1))
  {
    hide Names, Find, Columns, SameKeys, NoMixedKeys, CoarseKeeps, FineKeeps, Truthful, KeepsTouched, AnyKey;
    var items, st, records := [OneInsert(a, b, v)], TwoRanges(b, lo, hi, lo', hi'), [Val(n), other];
    InsertKeys(a, b, v);
    InsertRange(a, b, v);
    InsertBoxes(a, b, v, lo, hi, lo', hi');
    AllBare(a, b, v, lo, hi, lo', hi');
    CountTwo(n, other);
    r := PrunePartitions(items, st, records, files);
  }

  lemma AllBare(a: string, b: string, v: int, lo: int, hi: int, lo': int, hi': int)
    requires a != b
    ensures var items, st := [OneInsert(a, b, v)], TwoRanges(b, lo, hi, lo', hi');
      SameKeys(items) && ShapedStats(st) && FineMap(items, st) == [true, true]
  {
    hide Names, Find, Columns, SameKeys, NoMixedKeys;
    var items, st := [OneInsert(a, b, v)], TwoRanges(b, lo, hi, lo', hi');
    InsertKeys(a, b, v);
    TwoKeysNames(a, b);
    assert a in Names(items[0].schema, OldPk) && Bare(st, a);
  }

  lemma CountTwo(n: int, other: Cell)
    ensures CountTrue([true, false]) == 1 && CountTrue([true, true]) == 2
    ensures TotalRows([true, false], [Val(n), other]) == n
  {
    assert [true, false][..1] == [true] && [true, true][..1] == [true] && [true][..0] == [];
    assert [Val(n), other][..1] == [Val(n)] && [Val(n)][..0] == [];
    assert TotalRows([true], [Val(n)]) == n;
  }

  lemma SoundIfFine(items: seq<DataSyncItem>, st: PruningStats, keep: seq<bool>, files: seq<seq<Row>>)
    requires items != [] && SameKeys(items) && Truthful(st, files) && |keep| == st.containers
    requires forall f :: 0 <= f < st.containers ==> (keep[f] <==> FineKeeps(items, st, f))
    ensures KeepsTouched(items, keep, files)
  {
    forall f, r | 0 <= f < |files| && r in files[f] && r.key.Pk? && TouchesKey(items, r.key) ensures keep[f] {
      FinePruningSound(items, st, files, f, r);
    }
  }

  lemma SoundIfCoarse(items: seq<DataSyncItem>, st: PruningStats, keep: seq<bool>, files: seq<seq<Row>>)
    requires items != [] && SameKeys(items) && Truthful(st, files) && |keep| == st.containers
    requires forall f :: 0 <= f < st.containers ==> (keep[f] <==> CoarseKeeps(items, st, f))
    ensures KeepsTouched(items, keep, files)
  {
    forall f, r | 0 <= f < |files| && r in files[f] && r.key.Pk? && TouchesKey(items, r.key) ensures keep[f] {
      CoarsePruningSound(items, st, files, f, r);
    }
  }

  // ---------------------------------------------------------------------------------------------
  // Rewriting only the kept files
  // ---------------------------------------------------------------------------------------------

  /** The files on one side of the split, in order. */
  function Selected(files: seq<seq<Row>>, keep: seq<bool>, side: bool): seq<seq<Row>>
    requires |files| == |keep|
  {
    if files == [] then []
    else
      var n := |files| - 1;
      Selected(files[..n], keep[..n], side) + if keep[n] == side then [files[n]] else []
  }

  predicate ShapedItems(items: seq<DataSyncItem>) {
    forall i :: 0 <= i < |items| ==> Shaped(items[i].schema, items[i].batch)
  }

  function AllChanges(items: seq<DataSyncItem>): (b: seq<seq<Change>>)
    requires ShapedItems(items)
    ensures |b| == |items| && forall i :: 0 <= i < |items| ==> b[i] == Changes(items[i])
  {
    seq(|items|, i requires 0 <= i < |items| => Changes(items[i]))
  }

  lemma {:induction false} SplitBag(files: seq<seq<Row>>, keep: seq<bool>)
    requires |files| == |keep|
    ensures multiset(Flatten(files))
         == multiset(Flatten(Selected(files, keep, true))) + multiset(Flatten(Selected(files, keep, false)))
  {
    if files != [] {
      var n := |files| - 1;
      SplitBag(files[..n], keep[..n]);
      var a, b := Selected(files[..n], keep[..n], keep[n]), Selected(files[..n], keep[..n], !keep[n]);
      assert Selected(files, keep, keep[n]) == a + [files[n]] && Selected(files, keep, !keep[n]) == b;
      FlattenSnoc(a, files[n]);
      BagPlus(Flatten(files[..n]), Flatten(a), Flatten(b), files[n]);
      assert Flatten(files) == Flatten(files[..n]) + files[n];
      hide Flatten, Selected;
    }
  }

  lemma BagPlus(whole: seq<Row>, a: seq<Row>, b: seq<Row>, more: seq<Row>)
    requires multiset(whole) == multiset(a) + multiset(b)
    ensures multiset(whole + more) == multiset(a + more) + multiset(b) == multiset(b) + multiset(a + more)
  {
  }

  lemma {:induction false} InSelected(files: seq<seq<Row>>, keep: seq<bool>, side: bool, r: Row) returns (f: nat)
    requires |files| == |keep| && r in Flatten(Selected(files, keep, side))
    ensures f < |files| && r in files[f] && keep[f] == side
  {
    var n := |files| - 1;
    if keep[n] == side {
      FlattenSnoc(Selected(files[..n], keep[..n], side), files[n]);
    } else {
      assert Selected(files, keep, side) == Selected(files[..n], keep[..n], side);
    }
    if keep[n] == side && r in files[n] {
      f := n;
    } else {
      f := InSelected(files[..n], keep[..n], side, r);
    }
  }

  /** Applying all pending items to the kept files only, and leaving the others as they are, gives the
      same table as applying them to everything. The items need not be well-formed. */
  lemma PrunedRewrite(cols: set<string>, items: seq<DataSyncItem>, files: seq<seq<Row>>, keep: seq<bool>)
    requires SameKeys(items) && |keep| == |files| && KeepsTouched(items, keep, files)
    ensures multiset(ApplyAll(cols, Flatten(Selected(files, keep, true)), AllChanges(items))
                     + Flatten(Selected(files, keep, false)))
         == multiset(ApplyAll(cols, Flatten(files), AllChanges(items)))
  {
    var kept, rest := Flatten(Selected(files, keep, true)), Flatten(Selected(files, keep, false));
    var batches := AllChanges(items);
    forall r, i, c | r in rest && 0 <= i < |batches| && c in batches[i] ensures !Joins(r, c) {
      var f := InSelected(files, keep, false, r);
      assert !(r.key.Pk? && TouchesKey(items, r.key));
    }
    SplitBag(files, keep);
    ApplyAllFrame(cols, kept, rest, batches);
    ApplyAllBag(cols, Flatten(files), kept + rest, batches);
  }
}
