/** `squash_batches`: collapse the change chains of one message to one row each, picking for every
    column the input row whose cell survives. */
module Squash {
  import opened Tables
  import opened Schema
  import Chains

  /** Input rows picked for a chain: for its old key, for its new key and unflagged values, and for
      each `Changed` column. */
  datatype Chain = Chain(first: nat, last: nat, changed: seq<nat>)

  datatype State = State(chains: seq<Chain>, temp: set<nat>, index: map<seq<Cell>, nat>)

  predicate ChainInRange(s: SyncSchema, n: nat, ch: Chain) {
    && ch.first < n && ch.last < n
    && |ch.changed| == |Columns(s, Changed)|
    && forall p :: 0 <= p < |ch.changed| ==> ch.changed[p] < n
  }

  predicate InRange(s: SyncSchema, n: nat, st: State) {
    && (forall j :: 0 <= j < |st.chains| ==> ChainInRange(s, n, st.chains[j]))
    && (forall k :: k in st.index ==> st.index[k] < |st.chains|)
  }

  function NewChain(s: SyncSchema, i: nat): Chain {
    Chain(i, i, seq(|Columns(s, Changed)|, p => i))
  }

  function Extend(s: SyncSchema, row: seq<Cell>, i: nat, ch: Chain): Chain
    requires |row| == |s| && |ch.changed| == |Columns(s, Changed)|
  {
    Chain(ch.first, i,
          seq(|ch.changed|, p requires 0 <= p < |ch.changed| =>
            if IsTrue(row[Columns(s, Changed)[p]]) then i else ch.changed[p]))
  }

  function AddRow(s: SyncSchema, rows: Batch, st: State, i: nat): (st': State)
    requires Shaped(s, rows) && i < |rows| && InRange(s, i, st)
    ensures InRange(s, i + 1, st')
  {
    var oldPk, newPk := PosKey(s, OldPk, rows[i]), PosKey(s, NewPk, rows[i]);
    if oldPk in st.index then
      var id := st.index[oldPk];
      var ch := st.chains[id];
      State(
        st.chains[id := Extend(s, rows[i], i, ch)],
        if AllNull(newPk) && AllNull(PosKey(s, OldPk, rows[ch.first])) then st.temp + {id} else st.temp,
        if AllNull(newPk) then st.index - {oldPk} else (st.index - {oldPk})[newPk := id])
    else
      State(
        st.chains + [NewChain(s, i)],
        st.temp,
        if AllNull(newPk) then st.index else st.index[newPk := |st.chains|])
  }

  function FoldRows(s: SyncSchema, rows: Batch, n: nat): (st: State)
    requires Shaped(s, rows) && n <= |rows|
    ensures InRange(s, n, st)
  {
    if n == 0 then State([], {}, map[])
    else AddRow(s, rows, FoldRows(s, rows, n - 1), n - 1)
  }

  /** The input row picked for a column: every `Changed` column, and every value column that has one,
      takes the row tracked for the first `Changed` column of the schema. */
  function Picked(s: SyncSchema, ch: Chain, col: nat): (i: nat)
    requires col < |s| && |ch.changed| == |Columns(s, Changed)|
    ensures i == ch.first || i == ch.last || i in ch.changed
  {
    match s[col].role
    case OldPk => ch.first
    case NewPk => ch.last
    case Changed => ColumnListed(s, col); ch.changed[0]
    case Value =>
      var f := Find(s, s[col].name, Changed);
      if f < |s| then ColumnListed(s, f); ch.changed[0] else ch.last
  }

  function OutRow(s: SyncSchema, rows: Batch, ch: Chain): (r: seq<Cell>)
    requires Shaped(s, rows) && ChainInRange(s, |rows|, ch)
    ensures |r| == |s|
    ensures forall c :: 0 <= c < |s| ==> Picked(s, ch, c) < |rows| && r[c] == rows[Picked(s, ch, c)][c]
  {
    assert forall c :: 0 <= c < |s| ==> Picked(s, ch, c) < |rows|;
    seq(|s|, c requires 0 <= c < |s| => rows[Picked(s, ch, c)][c])
  }

  /** The surviving chains, as rows of the output batch. */
  function OutRows(s: SyncSchema, rows: Batch, chains: seq<Chain>, temp: set<nat>): (out: Batch)
    requires Shaped(s, rows)
    requires forall j :: 0 <= j < |chains| ==> ChainInRange(s, |rows|, chains[j])
    ensures Shaped(s, out)
  {
    if chains == [] then []
    else
      var n := |chains| - 1;
      OutRows(s, rows, chains[..n], temp) + if n in temp then [] else [OutRow(s, rows, chains[n])]
  }

  function SquashRows(s: SyncSchema, rows: Batch): (out: Batch)
    requires Shaped(s, rows)
    ensures Shaped(s, out)
  {
    var st := FoldRows(s, rows, |rows|);
    OutRows(s, rows, st.chains, st.temp)
  }

  // ---------------------------------------------------------------------------------------------
  // The rows picked for a chain decode to the composition of its changes
  // ---------------------------------------------------------------------------------------------

  /** What the squashing needs of a schema beyond validity. */
  predicate Squashable(s: SyncSchema) {
    |Columns(s, Changed)| <= 1 && PkNames(s, OldPk) == PkNames(s, NewPk)
  }

  function ChainChange(s: SyncSchema, rows: Batch, ch: Chain): Change
    requires Shaped(s, rows) && ChainInRange(s, |rows|, ch)
  {
    Decode(s, OutRow(s, rows, ch))
  }

  lemma SameCellsSameKey(s: SyncSchema, role: ColumnRole, a: seq<Cell>, b: seq<Cell>)
    requires |a| == |b| == |s| && forall c :: 0 <= c < |s| && s[c].role == role ==> a[c] == b[c]
    ensures KeyOf(s, role, a) == KeyOf(s, role, b)
  {
    forall n | n in Names(s, role) ensures NamedCells(s, role, a)[n] == NamedCells(s, role, b)[n] {
      NameFound(s, n, role);
    }
    assert NamedCells(s, role, a) == NamedCells(s, role, b);
  }

  lemma ChainKeys(s: SyncSchema, rows: Batch, ch: Chain)
    requires Shaped(s, rows) && ChainInRange(s, |rows|, ch)
    ensures ChainChange(s, rows, ch).oldPk == KeyOf(s, OldPk, rows[ch.first])
    ensures ChainChange(s, rows, ch).newPk == KeyOf(s, NewPk, rows[ch.last])
  {
    SameCellsSameKey(s, OldPk, OutRow(s, rows, ch), rows[ch.first]);
    SameCellsSameKey(s, NewPk, OutRow(s, rows, ch), rows[ch.last]);
  }

  lemma NewChainChange(s: SyncSchema, rows: Batch, i: nat)
    requires Shaped(s, rows) && i < |rows|
    ensures ChainInRange(s, |rows|, NewChain(s, i))
    ensures ChainChange(s, rows, NewChain(s, i)) == Decode(s, rows[i])
  {
    var out := OutRow(s, rows, NewChain(s, i));
    forall c | 0 <= c < |s| ensures out[c] == rows[i][c] {
      assert Picked(s, NewChain(s, i), c) == i;
    }
    assert out == rows[i];
  }

  /** The column written for name `n` by the row picked for a chain. */
  lemma ChainWrites(s: SyncSchema, rows: Batch, ch: Chain, n: string)
    requires Shaped(s, rows) && ChainInRange(s, |rows|, ch) && n in Names(s, Value)
    ensures var f, v := Find(s, n, Changed), Find(s, n, Value);
      v < |s| &&
      if f == |s| then
        n in ChainChange(s, rows, ch).write && ChainChange(s, rows, ch).write[n] == rows[ch.last][v]
      else
        |ch.changed| > 0 &&
        if IsTrue(rows[ch.changed[0]][f])
        then n in ChainChange(s, rows, ch).write && ChainChange(s, rows, ch).write[n] == rows[ch.changed[0]][v]
        else n !in ChainChange(s, rows, ch).write
  {
    NameFound(s, n, Value);
    var f, v := Find(s, n, Changed), Find(s, n, Value);
    var out := OutRow(s, rows, ch);
    if f < |s| {
      ColumnListed(s, f);
      assert out[f] == rows[ch.changed[0]][f];
      assert out[v] == rows[ch.changed[0]][v];
    } else {
      assert out[v] == rows[ch.last][v];
    }
  }

  lemma RowWrites(s: SyncSchema, row: seq<Cell>, n: string)
    requires |row| == |s| && n in Names(s, Value)
    ensures var f, v := Find(s, n, Changed), Find(s, n, Value);
      v < |s| &&
      if f == |s| || IsTrue(row[f]) then n in Writes(s, row) && Writes(s, row)[n] == row[v]
      else n !in Writes(s, row)
  {
    NameFound(s, n, Value);
  }

  lemma FirstChanged(s: SyncSchema, c: nat)
    requires |Columns(s, Changed)| <= 1 && c < |s| && s[c].role == Changed
    ensures |Columns(s, Changed)| == 1 && Columns(s, Changed)[0] == c
  {
    ColumnListed(s, c);
    hide *;
  }

  lemma ExtendedInRange(s: SyncSchema, n: nat, row: seq<Cell>, i: nat, ch: Chain)
    requires |row| == |s| && i < n && ChainInRange(s, n, ch)
    ensures ChainInRange(s, n, Extend(s, row, i, ch))
  {
  }

  ghost predicate MergedAt(w: Values, r: Values, w': Values, n: string) {
    && (n in w' <==> n in w || n in r)
    && (n in w' ==> w'[n] == if n in r then r[n] else w[n])
  }

  lemma MergedEverywhere(w: Values, r: Values, w': Values, names: set<string>)
    requires w.Keys <= names && r.Keys <= names && w'.Keys <= names
    requires forall n :: n in names ==> MergedAt(w, r, w', n)
    ensures w' == w + r
  {
  }

  lemma ExtendedWrite(s: SyncSchema, rows: Batch, i: nat, ch: Chain, ch': Chain, n: string)
    requires Shaped(s, rows) && i < |rows| && ChainInRange(s, |rows|, ch) && Squashable(s)
    requires ch' == Extend(s, rows[i], i, ch) && ChainInRange(s, |rows|, ch')
    requires n in Names(s, Value)
    ensures MergedAt(ChainChange(s, rows, ch).write, Writes(s, rows[i]), ChainChange(s, rows, ch').write, n)
  {
    ChainWrites(s, rows, ch, n);
    ChainWrites(s, rows, ch', n);
    RowWrites(s, rows[i], n);
    var f := Find(s, n, Changed);
    if f < |s| {
      FirstChanged(s, f);
      assert ch'.changed[0] == if IsTrue(rows[i][f]) then i else ch.changed[0];
    }
    hide ChainChange, Writes, Find, Columns, PkNames, ChainInRange, Names;
  }

  lemma WritesValues(s: SyncSchema, rows: Batch, ch: Chain, row: seq<Cell>)
    requires Shaped(s, rows) && ChainInRange(s, |rows|, ch) && |row| == |s|
    ensures Writes(s, row).Keys <= Names(s, Value)
    ensures ChainChange(s, rows, ch).write.Keys <= Names(s, Value)
  {
    hide KeyOf, Written, OutRow;
  }

  lemma ExtendedWrites(s: SyncSchema, rows: Batch, i: nat, ch: Chain, ch': Chain)
    requires Shaped(s, rows) && i < |rows| && ChainInRange(s, |rows|, ch) && Squashable(s)
    requires ch' == Extend(s, rows[i], i, ch) && ChainInRange(s, |rows|, ch')
    ensures ChainChange(s, rows, ch').write == ChainChange(s, rows, ch).write + Writes(s, rows[i])
  {
    assert |rows[i]| == |s|;
    hide *;
    WritesValues(s, rows, ch, rows[i]);
    WritesValues(s, rows, ch', rows[i]);
    forall n | n in Names(s, Value)
      ensures MergedAt(ChainChange(s, rows, ch).write, Writes(s, rows[i]), ChainChange(s, rows, ch').write, n)
    {
      ExtendedWrite(s, rows, i, ch, ch', n);
    }
    MergedEverywhere(ChainChange(s, rows, ch).write, Writes(s, rows[i]), ChainChange(s, rows, ch').write,
                     Names(s, Value));
  }

  lemma ExtendedChange(s: SyncSchema, rows: Batch, i: nat, ch: Chain)
    requires Shaped(s, rows) && i < |rows| && ChainInRange(s, |rows|, ch) && Squashable(s)
    ensures ChainInRange(s, |rows|, Extend(s, rows[i], i, ch))
    ensures ChainChange(s, rows, Extend(s, rows[i], i, ch))
         == Chains.Compose(ChainChange(s, rows, ch), Decode(s, rows[i]))
  {
    var ch' := Extend(s, rows[i], i, ch);
    ExtendedInRange(s, |rows|, rows[i], i, ch);
    ChainKeys(s, rows, ch);
    ChainKeys(s, rows, ch');
    ExtendedWrites(s, rows, i, ch, ch');
    hide ChainChange, KeyOf, Writes, OutRow, Columns;
  }

  // ---------------------------------------------------------------------------------------------
  // The loop over row positions computes the chains of the decoded changes
  // ---------------------------------------------------------------------------------------------

  ghost predicate SameIndex(s: SyncSchema, index: map<seq<Cell>, nat>, live: map<Key, nat>) {
    forall row: seq<Cell> {:trigger PosKey(s, OldPk, row)} {:trigger KeyOf(s, OldPk, row)} :: |row| == |s| ==>
      && (PosKey(s, OldPk, row) in index <==> KeyOf(s, OldPk, row) in live)
      && (PosKey(s, OldPk, row) in index ==> index[PosKey(s, OldPk, row)] == live[KeyOf(s, OldPk, row)])
  }

  ghost predicate Corresponds(s: SyncSchema, rows: Batch, st: State, a: Chains.ChainState)
    requires Shaped(s, rows)
  {
    && InRange(s, |rows|, st)
    && |st.chains| == |a.chains|
    && (forall j :: 0 <= j < |st.chains| ==> ChainChange(s, rows, st.chains[j]) == a.chains[j])
    && st.temp == a.temp
    && SameIndex(s, st.index, a.live)
  }

  lemma IndexWithout(s: SyncSchema, index: map<seq<Cell>, nat>, live: map<Key, nat>, row: seq<Cell>)
    requires DistinctColumns(s) && Squashable(s) && |row| == |s| && SameIndex(s, index, live)
    ensures SameIndex(s, index - {PosKey(s, OldPk, row)}, live - {KeyOf(s, OldPk, row)})
  {
    forall r: seq<Cell> | |r| == |s|
      ensures KeyOf(s, OldPk, r) == KeyOf(s, OldPk, row) <==> PosKey(s, OldPk, r) == PosKey(s, OldPk, row)
    {
      KeysByPosition(s, OldPk, r, OldPk, row);
    }
  }

  lemma IndexWith(s: SyncSchema, index: map<seq<Cell>, nat>, live: map<Key, nat>, row: seq<Cell>, id: nat)
    requires DistinctColumns(s) && Squashable(s) && |row| == |s| && SameIndex(s, index, live)
    ensures SameIndex(s, index[PosKey(s, NewPk, row) := id], live[KeyOf(s, NewPk, row) := id])
  {
    forall r: seq<Cell> | |r| == |s|
      ensures KeyOf(s, OldPk, r) == KeyOf(s, NewPk, row) <==> PosKey(s, OldPk, r) == PosKey(s, NewPk, row)
    {
      KeysByPosition(s, OldPk, r, NewPk, row);
    }
  }

  lemma ContinueIndex(s: SyncSchema, index: map<seq<Cell>, nat>, live: map<Key, nat>, row: seq<Cell>, id: nat)
    requires DistinctColumns(s) && Squashable(s) && |row| == |s| && SameIndex(s, index, live)
    ensures var oldPk, newPk := PosKey(s, OldPk, row), PosKey(s, NewPk, row);
      var c := Decode(s, row);
      SameIndex(s, if AllNull(newPk) then index - {oldPk} else (index - {oldPk})[newPk := id],
                   if c.newPk.NoPk? then live - {c.oldPk} else (live - {c.oldPk})[c.newPk := id])
  {
    AbsentByPosition(s, NewPk, row);
    IndexWithout(s, index, live, row);
    IndexWith(s, index - {PosKey(s, OldPk, row)}, live - {KeyOf(s, OldPk, row)}, row, id);
  }

  lemma ContinueChain(s: SyncSchema, rows: Batch, chains: seq<Chain>, cs: seq<Change>, i: nat, id: nat)
    requires Shaped(s, rows) && Squashable(s) && i < |rows| && id < |chains| == |cs|
    requires ChainInRange(s, |rows|, chains[id])
    requires forall j :: 0 <= j < |chains| ==> ChainInRange(s, |rows|, chains[j])
    requires forall j :: 0 <= j < |chains| ==> ChainChange(s, rows, chains[j]) == cs[j]
    ensures var chains' := chains[id := Extend(s, rows[i], i, chains[id])];
      var cs' := cs[id := Chains.Compose(cs[id], Decode(s, rows[i]))];
      && (forall j :: 0 <= j < |chains| ==> ChainInRange(s, |rows|, chains'[j]))
      && (forall j :: 0 <= j < |chains| ==> ChainChange(s, rows, chains'[j]) == cs'[j])
  {
    ExtendedChange(s, rows, i, chains[id]);
  }

  lemma ContinueCorresponds(s: SyncSchema, rows: Batch, st: State, a: Chains.ChainState, i: nat)
    requires Shaped(s, rows) && DistinctColumns(s) && Squashable(s) && i < |rows| && InRange(s, i, st)
    requires Chains.LiveInRange(a) && Corresponds(s, rows, st, a)
    requires PosKey(s, OldPk, rows[i]) in st.index
    ensures Corresponds(s, rows, AddRow(s, rows, st, i), Chains.AddChange(a, Decode(s, rows[i])))
  {
    var id := st.index[PosKey(s, OldPk, rows[i])];
    var ch := st.chains[id];
    assert KeyOf(s, OldPk, rows[i]) in a.live && a.live[KeyOf(s, OldPk, rows[i])] == id;
    ContinueChain(s, rows, st.chains, a.chains, i, id);
    ContinueIndex(s, st.index, a.live, rows[i], id);
    AbsentByPosition(s, NewPk, rows[i]);
    AbsentByPosition(s, OldPk, rows[ch.first]);
    ChainKeys(s, rows, ch);
    assert Chains.AddChange(a, Decode(s, rows[i])).chains
        == a.chains[id := Chains.Compose(a.chains[id], Decode(s, rows[i]))];
  }

  lemma StartChain(s: SyncSchema, rows: Batch, chains: seq<Chain>, cs: seq<Change>, i: nat)
    requires Shaped(s, rows) && i < |rows| && |chains| == |cs|
    requires forall j :: 0 <= j < |chains| ==> ChainInRange(s, |rows|, chains[j])
    requires forall j :: 0 <= j < |chains| ==> ChainChange(s, rows, chains[j]) == cs[j]
    ensures var chains', cs' := chains + [NewChain(s, i)], cs + [Decode(s, rows[i])];
      && (forall j :: 0 <= j < |chains'| ==> ChainInRange(s, |rows|, chains'[j]))
      && (forall j :: 0 <= j < |chains'| ==> ChainChange(s, rows, chains'[j]) == cs'[j])
  {
    NewChainChange(s, rows, i);
    hide *;
  }

  lemma StartIndex(s: SyncSchema, index: map<seq<Cell>, nat>, live: map<Key, nat>, row: seq<Cell>, id: nat)
    requires DistinctColumns(s) && Squashable(s) && |row| == |s| && SameIndex(s, index, live)
    ensures SameIndex(s, if AllNull(PosKey(s, NewPk, row)) then index else index[PosKey(s, NewPk, row) := id],
                         if KeyOf(s, NewPk, row).NoPk? then live else live[KeyOf(s, NewPk, row) := id])
  {
    AbsentByPosition(s, NewPk, row);
    IndexWith(s, index, live, row, id);
    hide *;
  }

  lemma StartCorresponds(s: SyncSchema, rows: Batch, st: State, a: Chains.ChainState, i: nat)
    requires Shaped(s, rows) && DistinctColumns(s) && Squashable(s) && i < |rows| && InRange(s, i, st)
    requires Chains.LiveInRange(a) && Corresponds(s, rows, st, a)
    requires PosKey(s, OldPk, rows[i]) !in st.index
    ensures Corresponds(s, rows, AddRow(s, rows, st, i), Chains.AddChange(a, Decode(s, rows[i])))
  {
    StartChain(s, rows, st.chains, a.chains, i);
    StartIndex(s, st.index, a.live, rows[i], |st.chains|);
    assert KeyOf(s, OldPk, rows[i]) !in a.live;
    hide KeyOf, PosKey, ChainInRange, ChainChange, NewChain, SameIndex, Squashable, DistinctColumns;
  }

  lemma StepCorresponds(s: SyncSchema, rows: Batch, st: State, a: Chains.ChainState, i: nat)
    requires Shaped(s, rows) && DistinctColumns(s) && Squashable(s) && i < |rows| && InRange(s, i, st)
    requires Chains.LiveInRange(a) && Corresponds(s, rows, st, a)
    ensures Corresponds(s, rows, AddRow(s, rows, st, i), Chains.AddChange(a, Decode(s, rows[i])))
  {
    assert |rows[i]| == |s|;
    hide *;
    if PosKey(s, OldPk, rows[i]) in st.index {
      ContinueCorresponds(s, rows, st, a, i);
    } else {
      StartCorresponds(s, rows, st, a, i);
    }
  }

  lemma EmptyCorresponds(s: SyncSchema, rows: Batch)
    requires Shaped(s, rows)
    ensures Corresponds(s, rows, State([], {}, map[]), Chains.ChainState([], {}, map[]))
  {
    hide PosKey, KeyOf, ChainChange;
  }

  lemma {:induction false} FoldCorresponds(s: SyncSchema, rows: Batch, n: nat)
    requires Shaped(s, rows) && DistinctColumns(s) && Squashable(s) && n <= |rows|
    ensures Corresponds(s, rows, FoldRows(s, rows, n), Chains.Fold(DecodeAll(s, rows)[..n]))
  {
    hide *;
    var cs := DecodeAll(s, rows);
    if n > 0 {
      FoldCorresponds(s, rows, n - 1);
      FoldRowsNext(s, rows, n - 1);
      Chains.FoldNext(cs, n - 1);
      StepCorresponds(s, rows, FoldRows(s, rows, n - 1), Chains.Fold(cs[..n - 1]), n - 1);
    } else {
      FoldRowsNone(s, rows);
      Chains.FoldNone();
      EmptyCorresponds(s, rows);
    }
  }

  lemma FoldRowsNone(s: SyncSchema, rows: Batch)
    requires Shaped(s, rows)
    ensures FoldRows(s, rows, 0) == State([], {}, map[])
  {
  }

  lemma FoldRowsNext(s: SyncSchema, rows: Batch, n: nat)
    requires Shaped(s, rows) && n < |rows|
    ensures FoldRows(s, rows, n + 1) == AddRow(s, rows, FoldRows(s, rows, n), n)
  {
    hide AddRow, InRange;
  }

  lemma {:induction false} OutRowsDecode(s: SyncSchema, rows: Batch, chains: seq<Chain>, temp: set<nat>,
                                         cs: seq<Change>)
    requires Shaped(s, rows) && |chains| == |cs|
    requires forall j :: 0 <= j < |chains| ==> ChainInRange(s, |rows|, chains[j])
    requires forall j :: 0 <= j < |chains| ==> ChainChange(s, rows, chains[j]) == cs[j]
    ensures DecodeAll(s, OutRows(s, rows, chains, temp)) == Chains.Survivors(cs, temp)
  {
    hide OutRow, ChainInRange, ChainChange, DecodeAll, Chains.Survivors;
    if chains != [] {
      var n := |chains| - 1;
      OutRowsDecode(s, rows, chains[..n], temp, cs[..n]);
      Chains.SurvivorsNext(cs, temp);
      if n !in temp {
        assert ChainInRange(s, |rows|, chains[n]);
        ChainDecode(s, rows, chains[n]);
        DecodeSnoc(s, OutRows(s, rows, chains[..n], temp), OutRow(s, rows, chains[n]));
      }
    } else {
      Chains.NoSurvivors(temp);
    }
  }

  lemma ChainDecode(s: SyncSchema, rows: Batch, ch: Chain)
    requires Shaped(s, rows) && ChainInRange(s, |rows|, ch)
    ensures Decode(s, OutRow(s, rows, ch)) == ChainChange(s, rows, ch)
  {
  }

  lemma DecodeSnoc(s: SyncSchema, rows: Batch, row: seq<Cell>)
    requires Shaped(s, rows) && |row| == |s|
    ensures DecodeAll(s, rows + [row]) == DecodeAll(s, rows) + [Decode(s, row)]
  {
    hide Decode;
  }

  /** The squashed rows decode to the squashed changes. */
  lemma SquashRowsDecode(s: SyncSchema, rows: Batch)
    requires Shaped(s, rows) && DistinctColumns(s) && Squashable(s)
    ensures DecodeAll(s, SquashRows(s, rows)) == Chains.Squashed(DecodeAll(s, rows))
  {
    var st, cs := FoldRows(s, rows, |rows|), DecodeAll(s, rows);
    FoldCorresponds(s, rows, |rows|);
    assert cs[..|rows|] == cs;
    OutRowsDecode(s, rows, st.chains, st.temp, Chains.Fold(cs).chains);
  }

  // ---------------------------------------------------------------------------------------------
  // The squashing of one message
  // ---------------------------------------------------------------------------------------------

  /** The join of any rows of the table with the squashed message gives what its rows give one at a time. */
  ghost predicate Preserves(s: SyncSchema, cols: set<string>, t: Table, rows: Batch)
    requires Shaped(s, rows)
  {
    forall base :: Represents(multiset(base), t) ==>
      Represents(multiset(ApplySync(cols, base, DecodeAll(s, SquashRows(s, rows)))),
                 Replay(cols, t, DecodeAll(s, rows)))
  }

  ghost predicate WellFormed(s: SyncSchema, cols: set<string>, t: Table, rows: Batch) {
    && Shaped(s, rows)
    && (forall k :: k in t ==> k.Pk?)
    && StreamOk(cols, t, DecodeAll(s, rows))
  }

  lemma MessagePreserved(s: SyncSchema, cols: set<string>, t: Table, rows: Batch)
    requires DistinctColumns(s) && Squashable(s) && WellFormed(s, cols, t, rows)
    ensures BatchOk(t, DecodeAll(s, SquashRows(s, rows)))
    ensures Preserves(s, cols, t, rows)
    ensures forall k :: k in Replay(cols, t, DecodeAll(s, rows)) ==> k.Pk?
  {
    SquashRowsDecode(s, rows);
    Chains.SquashPreservesMeaning(cols, t, DecodeAll(s, rows));
    hide SquashRows, ApplySync, Represents, BatchOk, IsApplied, Replay;
    var out, r := DecodeAll(s, SquashRows(s, rows)), Replay(cols, t, DecodeAll(s, rows));
    forall base | Represents(multiset(base), t) ensures Represents(multiset(ApplySync(cols, base, out)), r) {
      ApplySyncRepresents(cols, base, t, out, r);
    }
  }

  // ---------------------------------------------------------------------------------------------
  // The loops
  // ---------------------------------------------------------------------------------------------

  datatype SquashResult = Squashed(batch: Batch) | IndexPanic

  function Surviving(n: nat, temp: set<nat>): seq<nat> {
    if n == 0 then [] else Surviving(n - 1, temp) + if n - 1 in temp then [] else [n - 1]
  }

  lemma {:induction false} OutRowsAt(s: SyncSchema, rows: Batch, chains: seq<Chain>, temp: set<nat>)
    requires Shaped(s, rows)
    requires forall j :: 0 <= j < |chains| ==> ChainInRange(s, |rows|, chains[j])
    ensures var ids, out := Surviving(|chains|, temp), OutRows(s, rows, chains, temp);
      && |out| == |ids|
      && (forall r :: 0 <= r < |ids| ==> ids[r] < |chains| && out[r] == OutRow(s, rows, chains[ids[r]]))
  {
    hide ChainInRange, OutRow, Surviving;
    var n := |chains| - 1;
    if chains != [] {
      OutRowsAt(s, rows, chains[..n], temp);
      SurvivingNext(n, temp);
    } else {
      NoneSurviving(temp);
    }
  }

  lemma NoneSurviving(temp: set<nat>)
    ensures Surviving(0, temp) == []
  {
  }

  lemma SurvivingNext(n: nat, temp: set<nat>)
    ensures Surviving(n + 1, temp) == Surviving(n, temp) + if n in temp then [] else [n]
  {
  }

  predicate Assigned(s: SyncSchema, col: nat, c: nat)
    requires c < |s|
  {
    c < col || (s[c].role == Value && Find(s, s[c].name, Changed) < col)
  }

  /** The rows assigned to column `c` once the columns before `col` have been visited. */
  function Wanted(s: SyncSchema, col: nat, c: nat, oldPks: seq<nat>, newPks: seq<nat>,
                  changedRows: seq<seq<nat>>): seq<nat>
    requires c < |s|
  {
    match s[c].role
    case OldPk => oldPks
    case NewPk => newPks
    case Changed => if changedRows == [] then [] else changedRows[0]
    case Value =>
      if Find(s, s[c].name, Changed) < col && changedRows != [] then changedRows[0] else newPks
  }

  lemma FlagOf(s: SyncSchema, col: nat)
    requires Valid(s) && col < |s| && s[col].role == Changed
    ensures Find(s, s[col].name, Value) < |s|
    ensures forall c :: 0 <= c < |s| && s[c].role == Value ==>
      (Find(s, s[c].name, Changed) == col <==> c == Find(s, s[col].name, Value))
  {
    assert s[col].name in Names(s, Changed);
    NameFound(s, s[col].name, Value);
    FindUnique(s, col);
    forall c | 0 <= c < |s| && s[c].role == Value
      ensures Find(s, s[c].name, Changed) == col <==> c == Find(s, s[col].name, Value)
    {
      FindUnique(s, c);
    }
  }

  ghost predicate AssignedUpTo(s: SyncSchema, col: nat, indices: map<nat, seq<nat>>,
                               oldPks: seq<nat>, newPks: seq<nat>, changedRows: seq<seq<nat>>) {
    forall c :: 0 <= c < |s| ==>
      && (c in indices <==> Assigned(s, col, c))
      && (c in indices ==> indices[c] == Wanted(s, col, c, oldPks, newPks, changedRows))
  }

  /** How one more visited column changes the assignment. */
  lemma NextAssigned(s: SyncSchema, col: nat, c: nat, oldPks: seq<nat>, newPks: seq<nat>, changedRows: seq<seq<nat>>)
    requires Valid(s) && col < |s| && c < |s|
    ensures var flags := s[col].role == Changed && c == Find(s, s[col].name, Value);
      && (Assigned(s, col + 1, c) <==> Assigned(s, col, c) || c == col || flags)
      && Wanted(s, col + 1, c, oldPks, newPks, changedRows)
         == if flags && changedRows != [] then changedRows[0] else Wanted(s, col, c, oldPks, newPks, changedRows)
  {
    if s[col].role == Changed {
      FlagOf(s, col);
    } else if s[c].role == Value {
      assert Find(s, s[c].name, Changed) != col;
    }
  }

  lemma AssignPlain(s: SyncSchema, col: nat, indices: map<nat, seq<nat>>,
                    oldPks: seq<nat>, newPks: seq<nat>, changedRows: seq<seq<nat>>)
    requires Valid(s) && col < |s| && s[col].role != Changed
    requires AssignedUpTo(s, col, indices, oldPks, newPks, changedRows)
    ensures AssignedUpTo(s, col + 1,
      if col in indices then indices else indices[col := Wanted(s, col, col, oldPks, newPks, changedRows)],
      oldPks, newPks, changedRows)
  {
    hide Wanted, Assigned, Valid;
    forall c | 0 <= c < |s|
      ensures Assigned(s, col + 1, c) <==> Assigned(s, col, c) || c == col
      ensures Wanted(s, col + 1, c, oldPks, newPks, changedRows) == Wanted(s, col, c, oldPks, newPks, changedRows)
    {
      NextAssigned(s, col, c, oldPks, newPks, changedRows);
    }
  }

  lemma AssignFlag(s: SyncSchema, col: nat, indices: map<nat, seq<nat>>,
                   oldPks: seq<nat>, newPks: seq<nat>, changedRows: seq<seq<nat>>)
    requires Valid(s) && col < |s| && s[col].role == Changed && changedRows != []
    requires AssignedUpTo(s, col, indices, oldPks, newPks, changedRows)
    ensures AssignedUpTo(s, col + 1,
      indices[col := changedRows[0]][Find(s, s[col].name, Value) := changedRows[0]],
      oldPks, newPks, changedRows)
  {
    assert Wanted(s, col, col, oldPks, newPks, changedRows) == changedRows[0];
    hide Wanted, Assigned, Valid, Find;
    var f := Find(s, s[col].name, Value);
    var after := indices[col := changedRows[0]][f := changedRows[0]];
    forall c | 0 <= c < |s|
      ensures c in after <==> Assigned(s, col + 1, c)
      ensures c in after ==> after[c] == Wanted(s, col + 1, c, oldPks, newPks, changedRows)
    {
      NextAssigned(s, col, c, oldPks, newPks, changedRows);
      assert c in indices <==> Assigned(s, col, c);
    }
  }

  /** The chosen chains exist and have a row for every `Changed` column. */
  ghost predicate AreChains(s: SyncSchema, chains: seq<Chain>, ids: seq<nat>) {
    forall r :: 0 <= r < |ids| ==> ids[r] < |chains| && |chains[ids[r]].changed| == |Columns(s, Changed)|
  }

  ghost predicate IsTransposed(s: SyncSchema, chains: seq<Chain>, ids: seq<nat>,
                               oldPks: seq<nat>, newPks: seq<nat>, changedRows: seq<seq<nat>>)
    requires AreChains(s, chains, ids)
  {
    && |oldPks| == |newPks| == |ids|
    && (forall r :: 0 <= r < |ids| ==> oldPks[r] == chains[ids[r]].first && newPks[r] == chains[ids[r]].last)
    && |changedRows| == (if ids == [] then 0 else |Columns(s, Changed)|)
    && (forall p :: 0 <= p < |changedRows| ==> |changedRows[p]| == |ids|)
    && (forall p, r :: 0 <= p < |changedRows| && 0 <= r < |ids| ==> changedRows[p][r] == chains[ids[r]].changed[p])
  }

  method PushChanged(changedRows: seq<seq<nat>>, changed: seq<nat>) returns (r: seq<seq<nat>>)
    requires changedRows == [] || |changedRows| == |changed|
    ensures |r| == |changed|
    ensures forall p :: 0 <= p < |changed| ==>
      r[p] == (if changedRows == [] then [] else changedRows[p]) + [changed[p]]
  {
    r := changedRows;
    var idx := 0;
    while idx < |changed|
      invariant 0 <= idx <= |changed|
      invariant |r| == if changedRows == [] then idx else |changed|
      invariant forall p :: 0 <= p < idx ==>
        r[p] == (if changedRows == [] then [] else changedRows[p]) + [changed[p]]
      invariant forall p :: idx <= p < |r| ==> r[p] == changedRows[p]
    {
      if idx < |r| {
        r := r[idx := r[idx] + [changed[idx]]];
      } else {
        r := r + [[changed[idx]]];
      }
      idx := idx + 1;
    }
  }

  lemma TransposedMore(s: SyncSchema, chains: seq<Chain>, ids: seq<nat>, id: nat,
                       oldPks: seq<nat>, newPks: seq<nat>, changedRows: seq<seq<nat>>, more: seq<seq<nat>>)
    requires AreChains(s, chains, ids)
    requires id < |chains| && |chains[id].changed| == |Columns(s, Changed)|
    requires IsTransposed(s, chains, ids, oldPks, newPks, changedRows)
    requires |more| == |chains[id].changed|
    requires forall p :: 0 <= p < |more| ==>
      more[p] == (if changedRows == [] then [] else changedRows[p]) + [chains[id].changed[p]]
    ensures AreChains(s, chains, ids + [id])
    ensures IsTransposed(s, chains, ids + [id], oldPks + [chains[id].first], newPks + [chains[id].last], more)
  {
    hide Columns;
  }

  lemma NoneTransposed(s: SyncSchema, chains: seq<Chain>)
    ensures AreChains(s, chains, []) && IsTransposed(s, chains, [], [], [], [])
  {
    hide Columns;
  }

  lemma TransposedWidth(s: SyncSchema, chains: seq<Chain>, ids: seq<nat>,
                        oldPks: seq<nat>, newPks: seq<nat>, changedRows: seq<seq<nat>>)
    requires AreChains(s, chains, ids) && IsTransposed(s, chains, ids, oldPks, newPks, changedRows)
    ensures changedRows == [] || |changedRows| == |Columns(s, Changed)|
  {
    hide Columns;
  }

  method Transpose(s: SyncSchema, ghost n: nat, columnRows: seq<Chain>, tempRows: set<nat>)
    returns (oldPks: seq<nat>, newPks: seq<nat>, changedRows: seq<seq<nat>>)
    requires forall j :: 0 <= j < |columnRows| ==> ChainInRange(s, n, columnRows[j])
    ensures var ids := Surviving(|columnRows|, tempRows);
      AreChains(s, columnRows, ids) && IsTransposed(s, columnRows, ids, oldPks, newPks, changedRows)
  {
    hide AreChains, IsTransposed, Surviving, Columns;
    oldPks, newPks, changedRows := [], [], [];
    NoneTransposed(s, columnRows);
    NoneSurviving(tempRows);
    var id := 0;
    while id < |columnRows|
      invariant 0 <= id <= |columnRows| && AreChains(s, columnRows, Surviving(id, tempRows))
      invariant IsTransposed(s, columnRows, Surviving(id, tempRows), oldPks, newPks, changedRows)
    {
      SurvivingNext(id, tempRows);
      if id !in tempRows {
        assert ChainInRange(s, n, columnRows[id]);
        TransposedWidth(s, columnRows, Surviving(id, tempRows), oldPks, newPks, changedRows);
        var more := PushChanged(changedRows, columnRows[id].changed);
        TransposedMore(s, columnRows, Surviving(id, tempRows), id, oldPks, newPks, changedRows, more);
        oldPks := oldPks + [columnRows[id].first];
        newPks := newPks + [columnRows[id].last];
        changedRows := more;
      } else {
        assert Surviving(id + 1, tempRows) == Surviving(id, tempRows);
      }
      id := id + 1;
    }
  }

  /** Follow the chains through the rows. */
  method TrackChains(s: SyncSchema, rows: Batch) returns (columnRows: seq<Chain>, tempRows: set<nat>)
    requires Shaped(s, rows)
    ensures columnRows == FoldRows(s, rows, |rows|).chains && tempRows == FoldRows(s, rows, |rows|).temp
  {
    hide FoldRows, PosKey, NewChain, AllNull, Columns;
    columnRows, tempRows := [], {};
    var pkChains: map<seq<Cell>, nat> := map[];
    FoldRowsNone(s, rows);
    var rowId := 0;
    while rowId < |rows|
      invariant 0 <= rowId <= |rows|
      invariant State(columnRows, tempRows, pkChains) == FoldRows(s, rows, rowId)
    {
      FoldRowsNext(s, rows, rowId);
      var oldPk, newPk := PosKey(s, OldPk, rows[rowId]), PosKey(s, NewPk, rows[rowId]);
      if oldPk in pkChains {
        var chainId := pkChains[oldPk];
        pkChains := pkChains - {oldPk};
        columnRows := columnRows[chainId := Extend(s, rows[rowId], rowId, columnRows[chainId])];
        if !AllNull(newPk) {
          pkChains := pkChains[newPk := chainId];
        } else if AllNull(PosKey(s, OldPk, rows[columnRows[chainId].first])) {
          tempRows := tempRows + {chainId};
        }
      } else {
        columnRows := columnRows + [NewChain(s, rowId)];
        if !AllNull(newPk) {
          pkChains := pkChains[newPk := |columnRows| - 1];
        }
      }
      rowId := rowId + 1;
    }
  }

  /** Choose the row positions for every column; `None` when the first `Changed` list does not exist. */
  method AssignColumns(s: SyncSchema, oldPks: seq<nat>, newPks: seq<nat>, changedRows: seq<seq<nat>>)
    returns (ok: bool, indices: map<nat, seq<nat>>)
    requires Valid(s)
    ensures ok <==> Columns(s, Changed) == [] || changedRows != []
    ensures ok ==> forall c :: 0 <= c < |s| ==>
      c in indices && indices[c] == Wanted(s, |s|, c, oldPks, newPks, changedRows)
  {
    hide AssignedUpTo, Wanted, Valid, Columns, Find;
    indices := map[];
    NoneAssigned(s, oldPks, newPks, changedRows);
    var col := 0;
    while col < |s|
      invariant 0 <= col <= |s|
      invariant AssignedUpTo(s, col, indices, oldPks, newPks, changedRows)
      invariant forall c :: 0 <= c < col && s[c].role == Changed ==> changedRows != []
    {
      FirstAssigned(s, col, indices, oldPks, newPks, changedRows);
      match s[col].role {
        case OldPk =>
          AssignPlain(s, col, indices, oldPks, newPks, changedRows);
          indices := indices[col := oldPks];
        case NewPk =>
          AssignPlain(s, col, indices, oldPks, newPks, changedRows);
          indices := indices[col := newPks];
        case Changed =>
          if changedRows == [] {
            SomeChanged(s);
            return false, map[];
          }
          AssignFlag(s, col, indices, oldPks, newPks, changedRows);
          indices := indices[col := changedRows[0]];
          indices := indices[Find(s, s[col].name, Value) := changedRows[0]];
        case Value =>
          AssignPlain(s, col, indices, oldPks, newPks, changedRows);
          if col !in indices {
            indices := indices[col := newPks];
          }
      }
      col := col + 1;
    }
    ok := true;
    SomeChanged(s);
    AllAssigned(s, indices, oldPks, newPks, changedRows);
  }

  lemma SomeChanged(s: SyncSchema)
    ensures Columns(s, Changed) != [] <==> exists c :: 0 <= c < |s| && s[c].role == Changed
  {
    if c :| 0 <= c < |s| && s[c].role == Changed {
      ColumnListed(s, c);
    }
    assert Columns(s, Changed) != [] ==> s[Columns(s, Changed)[0]].role == Changed;
  }

  lemma NoneAssigned(s: SyncSchema, oldPks: seq<nat>, newPks: seq<nat>, changedRows: seq<seq<nat>>)
    ensures AssignedUpTo(s, 0, map[], oldPks, newPks, changedRows)
  {
    hide Wanted, Find;
  }

  /** What the rows of the visited column are, unless a `Changed` column came first. */
  lemma FirstAssigned(s: SyncSchema, col: nat, indices: map<nat, seq<nat>>,
                      oldPks: seq<nat>, newPks: seq<nat>, changedRows: seq<seq<nat>>)
    requires col < |s| && AssignedUpTo(s, col, indices, oldPks, newPks, changedRows)
    ensures s[col].role == OldPk ==>
      col !in indices && Wanted(s, col, col, oldPks, newPks, changedRows) == oldPks
    ensures s[col].role == NewPk ==>
      col !in indices && Wanted(s, col, col, oldPks, newPks, changedRows) == newPks
    ensures s[col].role == Value && col !in indices ==>
      Wanted(s, col, col, oldPks, newPks, changedRows) == newPks
  {
    hide Find;
  }

  lemma AllAssigned(s: SyncSchema, indices: map<nat, seq<nat>>,
                    oldPks: seq<nat>, newPks: seq<nat>, changedRows: seq<seq<nat>>)
    requires AssignedUpTo(s, |s|, indices, oldPks, newPks, changedRows)
    ensures forall c :: 0 <= c < |s| ==>
      c in indices && indices[c] == Wanted(s, |s|, c, oldPks, newPks, changedRows)
  {
    hide Wanted, Find;
  }

  lemma WantedIsPicked(s: SyncSchema, n: nat, chains: seq<Chain>, ids: seq<nat>, r: nat, c: nat,
                       oldPks: seq<nat>, newPks: seq<nat>, changedRows: seq<seq<nat>>)
    requires AreChains(s, chains, ids)
    requires IsTransposed(s, chains, ids, oldPks, newPks, changedRows) && r < |ids| && c < |s|
    ensures var w := Wanted(s, |s|, c, oldPks, newPks, changedRows);
      |w| == |ids| && w[r] == Picked(s, chains[ids[r]], c)
  {
    if s[c].role == Changed {
      ColumnListed(s, c);
    } else if s[c].role == Value && Find(s, s[c].name, Changed) < |s| {
      ColumnListed(s, Find(s, s[c].name, Changed));
    }
  }

  function Gather(s: SyncSchema, rows: Batch, n: nat, indices: map<nat, seq<nat>>): (b: Batch)
    requires Shaped(s, rows)
    requires forall c :: 0 <= c < |s| ==> c in indices && |indices[c]| == n
    requires forall c, i :: 0 <= c < |s| && 0 <= i < n ==> indices[c][i] < |rows|
    ensures |b| == n
    ensures forall i :: 0 <= i < n ==> |b[i]| == |s|
    ensures forall i, c :: 0 <= i < n && 0 <= c < |s| ==> b[i][c] == rows[indices[c][i]][c]
  {
    seq(n, i requires 0 <= i < n => seq(|s|, c requires 0 <= c < |s| => rows[indices[c][i]][c]))
  }

  ghost predicate Assignment(s: SyncSchema, rows: Batch, chains: seq<Chain>, temp: set<nat>,
                             indices: map<nat, seq<nat>>,
                             oldPks: seq<nat>, newPks: seq<nat>, changedRows: seq<seq<nat>>) {
    && Shaped(s, rows)
    && (forall j :: 0 <= j < |chains| ==> ChainInRange(s, |rows|, chains[j]))
    && AreChains(s, chains, Surviving(|chains|, temp))
    && IsTransposed(s, chains, Surviving(|chains|, temp), oldPks, newPks, changedRows)
    && (forall c :: 0 <= c < |s| ==>
          c in indices && indices[c] == Wanted(s, |s|, c, oldPks, newPks, changedRows))
    && (Columns(s, Changed) == [] || changedRows != [])
  }

  lemma AssignedRows(s: SyncSchema, rows: Batch, chains: seq<Chain>, temp: set<nat>, indices: map<nat, seq<nat>>,
                     oldPks: seq<nat>, newPks: seq<nat>, changedRows: seq<seq<nat>>)
    requires Assignment(s, rows, chains, temp, indices, oldPks, newPks, changedRows)
    ensures forall c :: 0 <= c < |s| ==> c in indices && |indices[c]| == |oldPks|
    ensures forall c, i :: 0 <= c < |s| && 0 <= i < |oldPks| ==>
      indices[c][i] < |rows| && indices[c][i] == Picked(s, chains[Surviving(|chains|, temp)[i]], c)
  {
    var ids := Surviving(|chains|, temp);
    forall c | 0 <= c < |s| ensures |indices[c]| == |oldPks| {
      if s[c].role == Changed {
        ColumnListed(s, c);
      }
    }
    hide Wanted, Columns, Picked, Surviving;
    forall c, i | 0 <= c < |s| && 0 <= i < |oldPks|
      ensures indices[c][i] < |rows| && indices[c][i] == Picked(s, chains[ids[i]], c)
    {
      WantedIsPicked(s, |rows|, chains, ids, i, c, oldPks, newPks, changedRows);
      assert ChainInRange(s, |rows|, chains[ids[i]]);
    }
  }

  lemma GatheredRows(s: SyncSchema, rows: Batch, chains: seq<Chain>, temp: set<nat>, indices: map<nat, seq<nat>>,
                     oldPks: seq<nat>, newPks: seq<nat>, changedRows: seq<seq<nat>>)
    requires Assignment(s, rows, chains, temp, indices, oldPks, newPks, changedRows)
    ensures forall c :: 0 <= c < |s| ==> c in indices && |indices[c]| == |oldPks|
    ensures forall c, i :: 0 <= c < |s| && 0 <= i < |oldPks| ==> indices[c][i] < |rows|
    ensures Gather(s, rows, |oldPks|, indices) == OutRows(s, rows, chains, temp)
  {
    AssignedRows(s, rows, chains, temp, indices, oldPks, newPks, changedRows);
    OutRowsAt(s, rows, chains, temp);
    var ids := Surviving(|chains|, temp);
    assert |ids| == |oldPks|;
    var out, got := OutRows(s, rows, chains, temp), Gather(s, rows, |oldPks|, indices);
    hide *;
    forall i | 0 <= i < |oldPks| ensures got[i] == out[i] {
      assert out[i] == OutRow(s, rows, chains[ids[i]]);
    }
  }

  lemma SquashedFrom(s: SyncSchema, rows: Batch, chains: seq<Chain>, temp: set<nat>)
    requires Shaped(s, rows)
    requires chains == FoldRows(s, rows, |rows|).chains && temp == FoldRows(s, rows, |rows|).temp
    ensures forall j :: 0 <= j < |chains| ==> ChainInRange(s, |rows|, chains[j])
    ensures SquashRows(s, rows) == OutRows(s, rows, chains, temp)
    ensures |SquashRows(s, rows)| == |Surviving(|chains|, temp)|
  {
    OutRowsAt(s, rows, chains, temp);
  }

  lemma TransposedSize(s: SyncSchema, chains: seq<Chain>, ids: seq<nat>,
                       oldPks: seq<nat>, newPks: seq<nat>, changedRows: seq<seq<nat>>)
    requires AreChains(s, chains, ids)
    requires IsTransposed(s, chains, ids, oldPks, newPks, changedRows)
    ensures changedRows == [] <==> ids == [] || Columns(s, Changed) == []
  {
    hide Columns;
  }

  /** Squash a message. Looking up the rows of the first `Changed` column panics when the schema has a
      `Changed` column and every chain is temporary; otherwise the result is the squashed batch. */
  method SquashBatches(s: SyncSchema, rows: Batch) returns (r: SquashResult)
    requires Shaped(s, rows) && Valid(s)
    ensures r == if Columns(s, Changed) != [] && SquashRows(s, rows) == [] then IndexPanic
                 else Squashed(SquashRows(s, rows))
  {
    hide SquashRows, OutRows, Columns, Surviving, Wanted, Valid, ChainInRange, FoldRows, IsTransposed;
    var columnRows, tempRows := TrackChains(s, rows);
    SquashedFrom(s, rows, columnRows, tempRows);
    var oldPks, newPks, changedRows := Transpose(s, |rows|, columnRows, tempRows);
    TransposedSize(s, columnRows, Surviving(|columnRows|, tempRows), oldPks, newPks, changedRows);
    var ok, indices := AssignColumns(s, oldPks, newPks, changedRows);
    if !ok {
      return IndexPanic;
    }
    GatheredRows(s, rows, columnRows, tempRows, indices, oldPks, newPks, changedRows);
    r := Squashed(Gather(s, rows, |oldPks|, indices));
  }
}
