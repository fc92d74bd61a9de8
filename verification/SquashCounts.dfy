/** What squashing conserves, for every schema with distinct columns and for all rows, well-formed or
    not. */
module SquashCounts {
  import opened Schema
  import opened Squash
  import Chains

  /** One for a chain that inserts, minus one for one that deletes, by position. */
  function ChainWeight(s: SyncSchema, rows: Batch, ch: Chain): int
    requires Shaped(s, rows) && ch.first < |rows| && ch.last < |rows|
  {
    (if AllNull(PosKey(s, OldPk, rows[ch.first])) then 1 else 0)
    - (if AllNull(PosKey(s, NewPk, rows[ch.last])) then 1 else 0)
  }

  ghost predicate AllInRange(s: SyncSchema, n: nat, chains: seq<Chain>) {
    forall j :: 0 <= j < |chains| ==> ChainInRange(s, n, chains[j])
  }

  ghost function TotalWeight(s: SyncSchema, rows: Batch, chains: seq<Chain>): int
    requires Shaped(s, rows) && AllInRange(s, |rows|, chains)
  {
    if chains == [] then 0
    else
      var n := |chains| - 1;
      assert ChainInRange(s, |rows|, chains[n]);
      TotalWeight(s, rows, chains[..n]) + ChainWeight(s, rows, chains[n])
  }

  lemma {:induction false} WeightOfUpdate(s: SyncSchema, rows: Batch, chains: seq<Chain>, id: nat, ch: Chain)
    requires Shaped(s, rows) && id < |chains| && ChainInRange(s, |rows|, ch)
    requires AllInRange(s, |rows|, chains)
    ensures TotalWeight(s, rows, chains[id := ch])
         == TotalWeight(s, rows, chains) - ChainWeight(s, rows, chains[id]) + ChainWeight(s, rows, ch)
  {
    hide ChainInRange, ChainWeight, Shaped;
    var n := |chains| - 1;
    if id == n {
      assert chains[id := ch][..n] == chains[..n];
    } else {
      WeightOfUpdate(s, rows, chains[..n], id, ch);
      assert chains[id := ch][..n] == chains[..n][id := ch];
    }
  }

  lemma WeightOfAppend(s: SyncSchema, rows: Batch, chains: seq<Chain>, ch: Chain)
    requires Shaped(s, rows) && ChainInRange(s, |rows|, ch)
    requires AllInRange(s, |rows|, chains)
    ensures TotalWeight(s, rows, chains + [ch]) == TotalWeight(s, rows, chains) + ChainWeight(s, rows, ch)
  {
    hide ChainInRange, ChainWeight, Shaped;
    assert (chains + [ch])[..|chains|] == chains;
  }

  /** Every key in the index is the last key of its chain, and temporary chains weigh nothing. */
  ghost predicate Tracked(s: SyncSchema, rows: Batch, n: nat, st: State)
    requires Shaped(s, rows) && n <= |rows|
  {
    && InRange(s, n, st)
    && (forall k :: k in st.index ==>
          !AllNull(k) && st.index[k] !in st.temp && PosKey(s, NewPk, rows[st.chains[st.index[k]].last]) == k)
    && (forall j :: j in st.temp ==> j < |st.chains| && ChainWeight(s, rows, st.chains[j]) == 0)
  }

  lemma ExtendWeighs(s: SyncSchema, rows: Batch, st: State, i: nat)
    requires Shaped(s, rows) && i < |rows| && Tracked(s, rows, i, st) && PosKey(s, OldPk, rows[i]) in st.index
    ensures var id := st.index[PosKey(s, OldPk, rows[i])];
      var ch, ch' := st.chains[id], AddRow(s, rows, st, i).chains[id];
      && ch'.first == ch.first && ch'.last == i && ch.first < |rows| && ch.last < |rows|
      && ChainWeight(s, rows, ch') == ChainWeight(s, rows, ch) + ChainWeight(s, rows, NewChain(s, i))
  {
    hide AllNull, PosKey, Columns, IsTrue;
    assert ChainInRange(s, i, st.chains[st.index[PosKey(s, OldPk, rows[i])]]);
  }

  lemma ContinueTracked(s: SyncSchema, rows: Batch, st: State, i: nat)
    requires Shaped(s, rows) && i < |rows| && Tracked(s, rows, i, st) && PosKey(s, OldPk, rows[i]) in st.index
    ensures Tracked(s, rows, i + 1, AddRow(s, rows, st, i))
    ensures var id := st.index[PosKey(s, OldPk, rows[i])];
      ChainWeight(s, rows, AddRow(s, rows, st, i).chains[id])
        == ChainWeight(s, rows, st.chains[id]) + ChainWeight(s, rows, NewChain(s, i))
  {
    hide AllNull, PosKey, Columns, IsTrue, ChainInRange, NewChain;
    var st' := AddRow(s, rows, st, i);
    var id := st.index[PosKey(s, OldPk, rows[i])];
    ExtendWeighs(s, rows, st, i);
    forall k | k in st'.index && k != PosKey(s, NewPk, rows[i])
      ensures k in st.index && st'.index[k] == st.index[k] != id
    {
    }
  }

  lemma StartTracked(s: SyncSchema, rows: Batch, st: State, i: nat)
    requires Shaped(s, rows) && i < |rows| && Tracked(s, rows, i, st) && PosKey(s, OldPk, rows[i]) !in st.index
    ensures Tracked(s, rows, i + 1, AddRow(s, rows, st, i))
  {
    hide AllNull, PosKey, Columns;
  }

  /** The weight of a row by position is that of its change. */
  lemma RowWeight(s: SyncSchema, rows: Batch, i: nat)
    requires DistinctColumns(s) && Shaped(s, rows) && i < |rows|
    ensures ChainWeight(s, rows, NewChain(s, i)) == Chains.Weight(Decode(s, rows[i]))
  {
    AbsentByPosition(s, OldPk, rows[i]);
    AbsentByPosition(s, NewPk, rows[i]);
  }

  lemma OutWeight(s: SyncSchema, rows: Batch, ch: Chain)
    requires DistinctColumns(s) && Shaped(s, rows) && ChainInRange(s, |rows|, ch)
    ensures ChainWeight(s, rows, ch) == Chains.Weight(Decode(s, OutRow(s, rows, ch)))
  {
    ChainKeys(s, rows, ch);
    AbsentByPosition(s, OldPk, rows[ch.first]);
    AbsentByPosition(s, NewPk, rows[ch.last]);
  }

  lemma StepWeighs(s: SyncSchema, rows: Batch, st: State, i: nat)
    requires Shaped(s, rows) && i < |rows| && Tracked(s, rows, i, st) && AllInRange(s, |rows|, st.chains)
    ensures var st' := AddRow(s, rows, st, i);
      && Tracked(s, rows, i + 1, st') && AllInRange(s, |rows|, st'.chains) && |st'.chains| <= |st.chains| + 1
      && TotalWeight(s, rows, st'.chains) == TotalWeight(s, rows, st.chains) + ChainWeight(s, rows, NewChain(s, i))
  {
    hide TotalWeight, ChainWeight, AllNull, PosKey, Columns, IsTrue;
    var st' := AddRow(s, rows, st, i);
    var oldPk := PosKey(s, OldPk, rows[i]);
    if oldPk in st.index {
      ContinueTracked(s, rows, st, i);
      WeightOfUpdate(s, rows, st.chains, st.index[oldPk], st'.chains[st.index[oldPk]]);
    } else {
      StartTracked(s, rows, st, i);
      WeightOfAppend(s, rows, st.chains, NewChain(s, i));
    }
  }

  lemma NetNext(s: SyncSchema, rows: Batch, n: nat)
    requires Shaped(s, rows) && n < |rows|
    ensures Shaped(s, rows[..n]) && Shaped(s, rows[..n + 1])
    ensures Chains.NetInserts(DecodeAll(s, rows[..n + 1]))
         == Chains.NetInserts(DecodeAll(s, rows[..n])) + Chains.Weight(Decode(s, rows[n]))
  {
    hide Decode, Chains.Weight;
    var a, b := DecodeAll(s, rows[..n]), DecodeAll(s, rows[..n + 1]);
    assert b[..n] == a;
  }

  lemma FoldStarts(s: SyncSchema, rows: Batch)
    requires Shaped(s, rows)
    ensures var st := FoldRows(s, rows, 0);
      && st.chains == [] && Tracked(s, rows, 0, st) && AllInRange(s, |rows|, st.chains)
      && TotalWeight(s, rows, st.chains) == 0
    ensures Shaped(s, rows[..0]) && Chains.NetInserts(DecodeAll(s, rows[..0])) == 0
  {
  }

  lemma {:induction false} FoldWeighs(s: SyncSchema, rows: Batch, n: nat)
    requires DistinctColumns(s) && Shaped(s, rows) && n <= |rows|
    ensures Shaped(s, rows[..n])
    ensures var st := FoldRows(s, rows, n);
      && Tracked(s, rows, n, st) && |st.chains| <= n && AllInRange(s, |rows|, st.chains)
      && TotalWeight(s, rows, st.chains) == Chains.NetInserts(DecodeAll(s, rows[..n]))
  {
    hide *;
    if n == 0 {
      FoldStarts(s, rows);
    } else {
      FoldWeighs(s, rows, n - 1);
      FoldRowsNext(s, rows, n - 1);
      StepWeighs(s, rows, FoldRows(s, rows, n - 1), n - 1);
      RowWeight(s, rows, n - 1);
      NetNext(s, rows, n - 1);
    }
  }

  lemma {:induction false} OutWeighs(s: SyncSchema, rows: Batch, chains: seq<Chain>, temp: set<nat>)
    requires DistinctColumns(s) && Shaped(s, rows) && AllInRange(s, |rows|, chains)
    requires forall j :: 0 <= j < |chains| && j in temp ==> ChainWeight(s, rows, chains[j]) == 0
    ensures var out := OutRows(s, rows, chains, temp);
      && Chains.NetInserts(DecodeAll(s, out)) == TotalWeight(s, rows, chains)
      && |out| + |Chains.TempBelow(temp, |chains|)| == |chains|
  {
    hide ChainWeight, Decode, OutRow, Chains.TempBelow, DistinctColumns, Chains.Weight, Columns;
    if chains == [] {
      Chains.NoneBelow(temp);
    } else {
      var n := |chains| - 1;
      OutWeighs(s, rows, chains[..n], temp);
      Chains.TempNext(temp, n);
      var a, b := OutRows(s, rows, chains[..n], temp), OutRows(s, rows, chains, temp);
      if n !in temp {
        assert ChainInRange(s, |rows|, chains[n]);
        OutWeight(s, rows, chains[n]);
        assert b == a + [OutRow(s, rows, chains[n])];
        assert DecodeAll(s, b) == DecodeAll(s, a) + [Decode(s, OutRow(s, rows, chains[n]))];
        Chains.NetOfAppend(DecodeAll(s, a), Decode(s, OutRow(s, rows, chains[n])));
      } else {
        assert b == a;
      }
      assert TotalWeight(s, rows, chains) == TotalWeight(s, rows, chains[..n]) + ChainWeight(s, rows, chains[n]);
    }
  }

  /** For every message, inserts minus deletes is unchanged, the output has a row for every chain that is
      not temporary, and rows are never added. */
  lemma MessageConserved(s: SyncSchema, rows: Batch)
    requires DistinctColumns(s) && Shaped(s, rows)
    ensures Chains.NetInserts(DecodeAll(s, SquashRows(s, rows))) == Chains.NetInserts(DecodeAll(s, rows))
    ensures var st := FoldRows(s, rows, |rows|); |SquashRows(s, rows)| == |st.chains| - |st.temp|
    ensures |SquashRows(s, rows)| <= |rows|
  {
    hide FoldRows, TotalWeight, ChainWeight, DistinctColumns;
    var st := FoldRows(s, rows, |rows|);
    FoldWeighs(s, rows, |rows|);
    assert rows[..|rows|] == rows;
    OutWeighs(s, rows, st.chains, st.temp);
    assert Chains.TempBelow(st.temp, |st.chains|) == st.temp;
  }
}
