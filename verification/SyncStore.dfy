/** The committed tables: what every commit adds to them, and which items a flush skips. */
module SyncStore {
  import opened Basics
  import opened Schema
  import opened Prune
  import opened SyncState
  import opened SyncInvariant
  import Squash

  ghost predicate UniqueTxs(rec: seq<TxRecord>) {
    forall i, j :: 0 <= i < j < |rec| && rec[i].sequence.Some? ==> rec[i] != rec[j]
  }

  /** No transaction of this run repeats another one's origin and sequence number, or those that the
      table was found with at startup. */
  ghost predicate NoReplay(rec: seq<TxRecord>, found: Option<CommitInfo>) {
    && UniqueTxs(rec)
    && (found.Some? ==> forall i :: 0 <= i < |rec| ==>
          rec[i] != TxRecord(found.value.origin, Some(found.value.sequence)))
  }

  ghost predicate IsNamed(info: CommitInfo, t: TxRecord) {
    t == TxRecord(info.origin, Some(info.sequence))
  }

  /** The commit names a transaction that all pending items come after. */
  ghost predicate NamesPast(info: CommitInfo, rec: seq<TxRecord>, log: seq<LogItem>, done: nat, i: nat) {
    && i < |rec| && IsNamed(info, rec[i])
    && forall j :: done <= j < |log| ==> i < log[j].item.txId
  }

  /** A commit names a past transaction of this run, or what the table was found with. */
  ghost predicate CommitFrom(commit: Option<CommitInfo>, found: Option<CommitInfo>, rec: seq<TxRecord>,
                             log: seq<LogItem>, done: nat) {
    commit.Some? ==>
      || (exists i :: NamesPast(commit.value, rec, log, done, i))
      || (found.Some? && found.value.origin == commit.value.origin && found.value.sequence == commit.value.sequence)
  }

  ghost predicate NamedEarlier(info: CommitInfo, found: Option<CommitInfo>, rec: seq<TxRecord>, l: nat) {
    || (exists i :: 0 <= i < l && i < |rec| && IsNamed(info, rec[i]))
    || (found.Some? && found.value.origin == info.origin && found.value.sequence == info.sequence)
  }

  /** A commit that ends with a complete transaction names the transaction of the last item done; one
      that ends with an open transaction names an earlier one. */
  ghost predicate CommitEnds(commit: Option<CommitInfo>, found: Option<CommitInfo>, rec: seq<TxRecord>,
                             log: seq<LogItem>, done: nat) {
    0 < done <= |log| && commit.Some? ==>
      var l := log[done - 1].item.txId;
      && l < |rec|
      && (if commit.value.newTx then NamedEarlier(commit.value, found, rec, l) else IsNamed(commit.value, rec[l]))
  }

  /** What is known of one table: its rows are the applied items on top of what it was found with,
      and without replays the applied items are all the items done. */
  ghost predicate StoreInv(t: StoredTable, b: StoredTable, rec: seq<TxRecord>, log: seq<LogItem>, done: nat,
                           applied: seq<DataSyncItem>) {
    && t.cols == b.cols && ShapedItems(applied)
    && t.bag == ApplyBag(b.cols, b.bag, AllChanges(applied))
    && done <= |log|
    && CommitFrom(t.commit, b.commit, rec, log, done)
    && (NoReplay(rec, b.commit) ==> applied == ItemsOf(log)[..done] && CommitEnds(t.commit, b.commit, rec, log, done))
  }

  ghost predicate TableStore(s: State, url: string) {
    if url in s.tables && url in s.h.base
    then StoreInv(s.tables[url], s.h.base[url], s.h.txs, LogOf(s.h, url), DoneOf(s.h, url), AppliedOf(s.h, url))
    else DoneOf(s.h, url) == 0 && AppliedOf(s.h, url) == []
  }

  ghost predicate Inv(s: State) {
    && MemInv(s.m, s.h)
    && s.tables.Keys == s.h.base.Keys
    && forall url :: TableStore(s, url)
  }

  lemma InvMem(s: State)
    requires Inv(s)
    ensures MemInv(s.m, s.h)
  {
  }

  // ---------------------------------------------------------------------------------------------
  // Skipping
  // ---------------------------------------------------------------------------------------------

  lemma {:induction false} SkipsNone(txs: seq<Transaction>, last: Option<CommitInfo>, items: seq<DataSyncItem>,
                                     from: nat)
    requires from <= |items|
    requires last.Some? ==> forall i :: from <= i < |items| ==> !FromCommitted(txs, last.value, items[i])
    ensures SkipCount(txs, last, items, from) == 0
    decreases |items| - from
  {
    hide FromCommitted;
    if last.Some? && from < |items| {
      SkipsNone(txs, last, items, from + 1);
    }
  }

  lemma {:induction false} SkipStops(txs: seq<Transaction>, info: CommitInfo, items: seq<DataSyncItem>, from: nat)
    requires from <= |items|
    ensures var n := SkipCount(txs, Some(info), items, from);
      if n == 0 then forall k :: from <= k < |items| ==> !FromCommitted(txs, info, items[k])
      else
        && from < n && FromCommitted(txs, info, items[n - 1])
        && forall k :: from <= k < n - 1 ==> !FromCommitted(txs, info, items[k])
    decreases |items| - from
  {
    hide FromCommitted;
    if from < |items| && !FromCommitted(txs, info, items[from]) {
      SkipStops(txs, info, items, from + 1);
    }
  }

  lemma NoSkip(txs: seq<Transaction>, items: seq<DataSyncItem>)
    ensures SkipCount(txs, None, items, 0) == 0
  {
  }

  /** A queue that is skipped whole ends with an item of the committed transaction. */
  lemma SkippedEnds(txs: seq<Transaction>, last: Option<CommitInfo>, items: seq<DataSyncItem>)
    requires items != [] && Kept(txs, last, items) == []
    ensures EndsComplete(txs, items)
  {
    hide TxWithId, SkipCount;
    if last.Some? {
      SkipStops(txs, last.value, items, 0);
    } else {
      NoSkip(txs, items);
    }
  }

  /** The item's transaction is in memory and has its number. */
  ghost predicate HasNumber(txs: seq<Transaction>, item: DataSyncItem) {
    TxWithId(txs, item.txId).Some? && TxWithId(txs, item.txId).value.sequence.Some?
  }

  /** The last of the items that belongs to a complete transaction. */
  ghost predicate IsLastComplete(txs: seq<Transaction>, items: seq<DataSyncItem>, k: int) {
    0 <= k < |items| && HasNumber(txs, items[k]) && forall j :: k < j < |items| ==> !HasNumber(txs, items[j])
  }

  /** The commit info for some items on top of the previous one. There is one if there was one or some item
      belongs to a complete transaction. It names the last complete transaction among the items, or else
      the one named before, and says whether the last item belongs to an open transaction. */
  ghost predicate IsCommitOf(txs: seq<Transaction>, last: Option<CommitInfo>, kept: seq<DataSyncItem>,
                             commit: Option<CommitInfo>) {
    && (commit.Some? <==> last.Some? || exists k :: 0 <= k < |kept| && HasNumber(txs, kept[k]))
    && (commit.Some? ==>
          (commit.value.newTx <==>
             kept != [] && TxWithId(txs, kept[|kept| - 1].txId).Some? && !HasNumber(txs, kept[|kept| - 1])))
    && (commit.Some? && (forall k :: 0 <= k < |kept| ==> !HasNumber(txs, kept[k])) ==>
          last.Some? && commit.value.origin == last.value.origin && commit.value.sequence == last.value.sequence)
    && (forall k :: IsLastComplete(txs, kept, k) ==> commit.Some? && FromCommitted(txs, commit.value, kept[k]))
  }

  /** The last complete item is the one that names the commit. */
  lemma {:induction false} LastCompleteIs(txs: seq<Transaction>, items: seq<DataSyncItem>, newTx: bool, k: nat)
    requires k < |items| && HasNumber(txs, items[k]) && forall j :: k < j < |items| ==> !HasNumber(txs, items[j])
    ensures var r := LastComplete(txs, items, newTx); r.Some? && FromCommitted(txs, r.value, items[k])
  {
    hide TxWithId;
    var n := |items| - 1;
    if k < n {
      assert !HasNumber(txs, items[n]);
      LastCompleteIs(txs, items[..n], newTx, k);
    }
  }

  lemma {:induction false} NoneComplete(txs: seq<Transaction>, items: seq<DataSyncItem>, newTx: bool)
    ensures LastComplete(txs, items, newTx).Some? <==> exists k :: 0 <= k < |items| && HasNumber(txs, items[k])
  {
    hide TxWithId;
    if items != [] {
      var n := |items| - 1;
      NoneComplete(txs, items[..n], newTx);
      assert forall k :: 0 <= k < n ==> items[..n][k] == items[k];
      assert HasNumber(txs, items[n]) || LastComplete(txs, items, newTx) == LastComplete(txs, items[..n], newTx);
    }
  }

  /** What the commit info of a flush is. */
  lemma NewCommitIs(txs: seq<Transaction>, last: Option<CommitInfo>, items: seq<DataSyncItem>)
    ensures IsCommitOf(txs, last, Kept(txs, last, items), NewCommit(txs, last, items))
  {
    hide TxWithId, SkipCount, LastComplete;
    var kept := Kept(txs, last, items);
    var open := EndsOpen(txs, kept);
    LastCompleteAt(txs, kept, open);
    NoneComplete(txs, kept, open);
    forall k | IsLastComplete(txs, kept, k)
      ensures var r := NewCommit(txs, last, items); r.Some? && FromCommitted(txs, r.value, kept[k])
    {
      LastCompleteIs(txs, kept, open, k);
    }
  }

  lemma PendingItem(m: Memory, h: History, url: string, i: nat)
    requires MemInv(m, h) && i < |PendingIn(m.syncs, url)|
    ensures var j := DoneOf(h, url) + i;
      && j < |LogOf(h, url)| && PendingIn(m.syncs, url)[i] == LogOf(h, url)[j].item
      && |h.txs| - |m.txs| <= LogOf(h, url)[j].item.txId < |h.txs|
      && IsSquashed(LogOf(h, url)[j])
  {
    var j := DoneOf(h, url) + i;
    hide LastSequences, LocationsExact, QueueShape, OnlyLastOpen, IsSquashed;
    assert TableInv(m.txs, m.syncs, |h.txs|, url, LogOf(h, url), DoneOf(h, url));
    assert Holds(m.txs, |h.txs|, LogOf(h, url)[j].item.txId, url);
  }

  /** A pending item's transaction is always found in memory, with its record's origin and sequence. */
  lemma PendingTxFound(m: Memory, h: History, url: string, i: nat)
    requires MemInv(m, h) && i < |PendingIn(m.syncs, url)|
    ensures var id, tx := PendingIn(m.syncs, url)[i].txId, TxWithId(m.txs, PendingIn(m.syncs, url)[i].txId);
      id < |h.txs| && tx.Some? && tx.value.origin == h.txs[id].origin && tx.value.sequence == h.txs[id].sequence
  {
    PendingItem(m, h, url, i);
    hide LastSequences, LocationsExact, QueueShape, OnlyLastOpen, TableInv;
    TxFound(m.txs, h.txs, PendingIn(m.syncs, url)[i].txId);
  }

  /** Without replays a flush skips nothing. */
  lemma NothingSkipped(m: Memory, h: History, url: string, commit: Option<CommitInfo>, found: Option<CommitInfo>)
    requires MemInv(m, h) && NoReplay(h.txs, found)
    requires CommitFrom(commit, found, h.txs, LogOf(h, url), DoneOf(h, url))
    ensures Kept(m.txs, commit, PendingIn(m.syncs, url)) == PendingIn(m.syncs, url)
  {
    var items := PendingIn(m.syncs, url);
    if commit.Some? {
      forall i | 0 <= i < |items| ensures !FromCommitted(m.txs, commit.value, items[i]) {
        PendingTxFound(m, h, url, i);
        PendingItem(m, h, url, i);
        hide MemInv, TxWithId;
        var id := items[i].txId;
        assert !IsNamed(commit.value, h.txs[id]);
      }
    }
    SkipsNone(m.txs, commit, items, 0);
  }

  lemma {:induction false} LastCompleteAt(txs: seq<Transaction>, items: seq<DataSyncItem>, newTx: bool)
    ensures var r := LastComplete(txs, items, newTx);
      r.Some? ==> r.value.newTx == newTx && exists k :: 0 <= k < |items| && FromCommitted(txs, r.value, items[k])
  {
    if items != [] {
      var n := |items| - 1;
      LastCompleteAt(txs, items[..n], newTx);
      hide TxWithId;
      var tx, r := TxWithId(txs, items[n].txId), LastComplete(txs, items, newTx);
      if tx.Some? && tx.value.sequence.Some? {
        assert FromCommitted(txs, r.value, items[n]);
      } else if r.Some? {
        var k :| 0 <= k < n && FromCommitted(txs, r.value, items[..n][k]);
        assert items[..n][k] == items[k];
      }
    }
  }

  lemma CommittedIsNamed(m: Memory, h: History, url: string, i: nat, info: CommitInfo)
    requires MemInv(m, h) && i < |PendingIn(m.syncs, url)| && FromCommitted(m.txs, info, PendingIn(m.syncs, url)[i])
    ensures PendingIn(m.syncs, url)[i].txId < |h.txs| && IsNamed(info, h.txs[PendingIn(m.syncs, url)[i].txId])
  {
    PendingTxFound(m, h, url, i);
  }

  /** The commit info written by a flush names a past transaction, or what the table was found with. */
  lemma NewCommitFrom(m: Memory, h: History, url: string, commit: Option<CommitInfo>, found: Option<CommitInfo>)
    requires MemInv(m, h) && CommitFrom(commit, found, h.txs, LogOf(h, url), DoneOf(h, url))
    ensures CommitFrom(NewCommit(m.txs, commit, PendingIn(m.syncs, url)), found, h.txs, LogOf(h, url), |LogOf(h, url)|)
  {
    hide MemInv, SkipCount, LastComplete, FromCommitted, EndsOpen, IsNamed, PendingIn, LogOf, DoneOf;
    var items := PendingIn(m.syncs, url);
    var n := SkipCount(m.txs, commit, items, 0);
    var kept := Kept(m.txs, commit, items);
    var open := EndsOpen(m.txs, kept);
    var full := LastComplete(m.txs, kept, open);
    LastCompleteAt(m.txs, kept, open);
    if full.Some? {
      var k :| 0 <= k < |kept| && FromCommitted(m.txs, full.value, kept[k]);
      assert kept[k] == items[n + k];
      CommittedIsNamed(m, h, url, n + k, full.value);
      assert NamesPast(full.value, h.txs, LogOf(h, url), |LogOf(h, url)|, kept[k].txId);
    } else if commit.Some? {
      InheritedFrom(commit.value, open, found, h.txs, LogOf(h, url), DoneOf(h, url));
    }
  }

  lemma InheritedFrom(info: CommitInfo, open: bool, found: Option<CommitInfo>, rec: seq<TxRecord>, log: seq<LogItem>,
                      done: nat)
    requires CommitFrom(Some(info), found, rec, log, done)
    ensures CommitFrom(Some(info.(newTx := open)), found, rec, log, |log|)
  {
    if i: nat :| NamesPast(info, rec, log, done, i) {
      assert NamesPast(info.(newTx := open), rec, log, |log|, i);
    }
  }

  lemma NewCommitLast(txs: seq<Transaction>, commit: Option<CommitInfo>, items: seq<DataSyncItem>)
    requires items != [] && Kept(txs, commit, items) == items && TxWithId(txs, items[|items| - 1].txId).Some?
    requires NewCommit(txs, commit, items).Some?
    ensures var r, tx := NewCommit(txs, commit, items).value, TxWithId(txs, items[|items| - 1].txId).value;
      if r.newTx then
        && tx.sequence.None?
        && ((exists k :: 0 <= k < |items| && FromCommitted(txs, r, items[k]))
            || (commit.Some? && r == commit.value.(newTx := true)))
      else r.origin == tx.origin && Some(r.sequence) == tx.sequence
  {
    hide TxWithId, Kept;
    var tx := TxWithId(txs, items[|items| - 1].txId).value;
    assert EndsOpen(txs, items) <==> tx.sequence.None?;
    LastCompleteAt(txs, items, EndsOpen(txs, items));
    if tx.sequence.Some? {
      assert LastComplete(txs, items, false) == Some(CommitInfo(tx.origin, tx.sequence.value, false));
    }
  }

  lemma MessagesOrdered(m: Memory, h: History, url: string)
    requires MemInv(m, h)
    ensures LogOrdered(LogOf(h, url), |h.txs|)
  {
    hide LastSequences, LocationsExact, QueueShape, OnlyLastOpen, TxsMatch, LogOk, PendingHeld, QueueMatches,
      LogOrdered;
    assert TableInv(m.txs, m.syncs, |h.txs|, url, LogOf(h, url), DoneOf(h, url));
  }

  lemma PendingOrdered(m: Memory, h: History, url: string, k: nat)
    requires MemInv(m, h) && k < |PendingIn(m.syncs, url)|
    ensures var items := PendingIn(m.syncs, url); items[k].txId <= items[|items| - 1].txId
  {
    hide MemInv, PendingIn, LogOf, DoneOf;
    var log, done := LogOf(h, url), DoneOf(h, url);
    PendingLength(m, h, url);
    MessagesOrdered(m, h, url);
    assert log[done + k].item.txId <= log[|log| - 1].item.txId;
  }

  /** A commit that ends with an open transaction names a transaction before it. */
  lemma OpenEnds(m: Memory, h: History, url: string, info: CommitInfo, k: nat)
    requires MemInv(m, h) && k < |PendingIn(m.syncs, url)| && FromCommitted(m.txs, info, PendingIn(m.syncs, url)[k])
    requires var items := PendingIn(m.syncs, url);
      items[|items| - 1].txId < |h.txs| && h.txs[items[|items| - 1].txId].sequence.None?
    ensures var items := PendingIn(m.syncs, url); NamedEarlier(info, None, h.txs, items[|items| - 1].txId)
  {
    hide MemInv, PendingIn, FromCommitted;
    CommittedIsNamed(m, h, url, k, info);
    PendingOrdered(m, h, url, k);
  }

  /** If the last item kept belongs to a complete transaction, the commit info names that one, and
      otherwise an earlier one. */
  lemma NewCommitEnds(m: Memory, h: History, url: string, commit: Option<CommitInfo>, found: Option<CommitInfo>)
    requires MemInv(m, h) && PendingIn(m.syncs, url) != []
    requires Kept(m.txs, commit, PendingIn(m.syncs, url)) == PendingIn(m.syncs, url)
    requires CommitFrom(commit, found, h.txs, LogOf(h, url), DoneOf(h, url))
    ensures CommitEnds(NewCommit(m.txs, commit, PendingIn(m.syncs, url)), found, h.txs, LogOf(h, url), |LogOf(h, url)|)
  {
    hide MemInv, TxWithId, IsSquashed, Kept, NewCommit, PendingIn, FromCommitted, IsNamed, CommitFrom, LogOf, DoneOf;
    var items := PendingIn(m.syncs, url);
    var n := |items| - 1;
    PendingTxFound(m, h, url, n);
    PendingItem(m, h, url, n);
    PendingLength(m, h, url);
    var r := NewCommit(m.txs, commit, items);
    if r.Some? {
      NewCommitLast(m.txs, commit, items);
      if !r.value.newTx {
        NamedLast(r.value, h.txs, items[n].txId);
      } else if k :| 0 <= k < |items| && FromCommitted(m.txs, r.value, items[k]) {
        OpenEnds(m, h, url, r.value, k);
      } else {
        InheritedEnds(commit.value, found, h.txs, LogOf(h, url), DoneOf(h, url));
      }
    }
  }

  lemma NamedLast(info: CommitInfo, rec: seq<TxRecord>, l: nat)
    requires l < |rec| && rec[l].origin == info.origin && rec[l].sequence == Some(info.sequence)
    ensures IsNamed(info, rec[l])
  {
  }

  lemma InheritedEnds(info: CommitInfo, found: Option<CommitInfo>, rec: seq<TxRecord>, log: seq<LogItem>, done: nat)
    requires CommitFrom(Some(info), found, rec, log, done) && done < |log|
    ensures NamedEarlier(info.(newTx := true), found, rec, log[|log| - 1].item.txId)
  {
    if i: nat :| NamesPast(info, rec, log, done, i) {
      assert IsNamed(info.(newTx := true), rec[i]);
    }
  }

  lemma PendingLength(m: Memory, h: History, url: string)
    requires MemInv(m, h)
    ensures DoneOf(h, url) + |PendingIn(m.syncs, url)| == |LogOf(h, url)|
    ensures PendingIn(m.syncs, url) == ItemsOf(LogOf(h, url))[DoneOf(h, url)..]
  {
    hide LastSequences, LocationsExact, QueueShape, OnlyLastOpen, PendingHeld, LogOrdered, LogOk, TxsMatch;
    assert TableInv(m.txs, m.syncs, |h.txs|, url, LogOf(h, url), DoneOf(h, url));
  }

  lemma PendingShaped(m: Memory, h: History, url: string)
    requires MemInv(m, h)
    ensures ShapedItems(PendingIn(m.syncs, url))
  {
    forall i | 0 <= i < |PendingIn(m.syncs, url)|
      ensures Shaped(PendingIn(m.syncs, url)[i].schema, PendingIn(m.syncs, url)[i].batch)
    {
      PendingItem(m, h, url, i);
      hide MemInv, Squash.SquashRows;
    }
  }

  lemma ChangesConcat(a: seq<DataSyncItem>, b: seq<DataSyncItem>)
    requires ShapedItems(a) && ShapedItems(b)
    ensures ShapedItems(a + b) && AllChanges(a + b) == AllChanges(a) + AllChanges(b)
  {
    hide Shaped, Changes;
  }

  // ---------------------------------------------------------------------------------------------
  // Preservation
  // ---------------------------------------------------------------------------------------------

  lemma AppliedCommitted(m: Memory, h: History, url: string, commit: Option<CommitInfo>, found: Option<CommitInfo>)
    requires MemInv(m, h) && PendingIn(m.syncs, url) != [] && NoReplay(h.txs, found)
    requires CommitFrom(commit, found, h.txs, LogOf(h, url), DoneOf(h, url))
    requires AppliedOf(h, url) == ItemsOf(LogOf(h, url))[..DoneOf(h, url)]
    ensures var log, items := LogOf(h, url), PendingIn(m.syncs, url);
      && AppliedOf(h, url) + Kept(m.txs, commit, items) == ItemsOf(log)[..|log|]
      && CommitEnds(NewCommit(m.txs, commit, items), found, h.txs, log, |log|)
  {
    hide MemInv, CommitFrom, CommitEnds, NoReplay, NewCommit, Kept;
    var log, done := LogOf(h, url), DoneOf(h, url);
    PendingLength(m, h, url);
    NothingSkipped(m, h, url, commit, found);
    NewCommitEnds(m, h, url, commit, found);
    assert ItemsOf(log)[..done] + ItemsOf(log)[done..] == ItemsOf(log);
    assert ItemsOf(log)[..|log|] == ItemsOf(log);
  }

  lemma BagCommitted(t: StoredTable, b: StoredTable, applied: seq<DataSyncItem>, kept: seq<DataSyncItem>)
    requires ShapedItems(applied) && ShapedItems(kept) && t.cols == b.cols
    requires t.bag == ApplyBag(b.cols, b.bag, AllChanges(applied))
    ensures ShapedItems(applied + kept)
    ensures ApplyBag(t.cols, t.bag, AllChanges(kept)) == ApplyBag(b.cols, b.bag, AllChanges(applied + kept))
  {
    ChangesConcat(applied, kept);
    hide ApplyBag, ShapedItems;
    ApplyBagConcat(b.cols, b.bag, AllChanges(applied), AllChanges(kept));
  }

  lemma StoreCommitted(m: Memory, h: History, url: string, t: StoredTable, b: StoredTable, t': StoredTable,
                       kept: seq<DataSyncItem>)
    requires MemInv(m, h) && PendingIn(m.syncs, url) != []
    requires StoreInv(t, b, h.txs, LogOf(h, url), DoneOf(h, url), AppliedOf(h, url))
    requires kept == Kept(m.txs, t.commit, PendingIn(m.syncs, url)) && ShapedItems(kept)
    requires t' == StoredTable(t.cols, ApplyBag(t.cols, t.bag, AllChanges(kept)),
                               NewCommit(m.txs, t.commit, PendingIn(m.syncs, url)))
    ensures StoreInv(t', b, h.txs, LogOf(h, url), |LogOf(h, url)|, AppliedOf(h, url) + kept)
  {
    hide MemInv, CommitFrom, CommitEnds, NoReplay, ApplyBag, ShapedItems, NewCommit, Kept, PendingIn, LogOf,
      DoneOf, AppliedOf;
    NewCommitFrom(m, h, url, t.commit, b.commit);
    BagCommitted(t, b, AppliedOf(h, url), kept);
    if NoReplay(h.txs, b.commit) {
      AppliedCommitted(m, h, url, t.commit, b.commit);
    }
  }

  lemma StoreSkipped(m: Memory, h: History, url: string, t: StoredTable, b: StoredTable)
    requires MemInv(m, h) && PendingIn(m.syncs, url) != []
    requires StoreInv(t, b, h.txs, LogOf(h, url), DoneOf(h, url), AppliedOf(h, url))
    requires Kept(m.txs, t.commit, PendingIn(m.syncs, url)) == []
    ensures StoreInv(t, b, h.txs, LogOf(h, url), |LogOf(h, url)|, AppliedOf(h, url))
  {
    hide MemInv, NoReplay, ApplyBag, ShapedItems, Kept, CommitEnds;
    if NoReplay(h.txs, b.commit) {
      NothingSkipped(m, h, url, t.commit, b.commit);
    }
    if i: nat :| t.commit.Some? && NamesPast(t.commit.value, h.txs, LogOf(h, url), DoneOf(h, url), i) {
      assert NamesPast(t.commit.value, h.txs, LogOf(h, url), |LogOf(h, url)|, i);
    }
  }

  /** How the records and one table's log may grow while a message is enqueued. */
  ghost predicate Grows(rec: seq<TxRecord>, rec': seq<TxRecord>, log: seq<LogItem>, log': seq<LogItem>) {
    && |rec| <= |rec'| && |log| <= |log'| && log'[..|log|] == log
    && (forall i :: 0 <= i < |rec| && rec[i].sequence.Some? ==> rec'[i] == rec[i])
    && (forall i, j :: 0 <= i < |rec| && rec[i].sequence.Some? && |log| <= j < |log'| ==> i < log'[j].item.txId)
  }

  lemma StoreGrown(t: StoredTable, b: StoredTable, rec: seq<TxRecord>, rec': seq<TxRecord>, log: seq<LogItem>,
                   log': seq<LogItem>,
                   done: nat, applied: seq<DataSyncItem>)
    requires StoreInv(t, b, rec, log, done, applied) && Grows(rec, rec', log, log')
    ensures StoreInv(t, b, rec', log', done, applied)
  {
    hide ApplyBag, ShapedItems;
    if t.commit.Some? {
      if i: nat :| NamesPast(t.commit.value, rec, log, done, i) {
        forall j | done <= j < |log'| ensures i < log'[j].item.txId {
          if j < |log| {
            assert log'[j] == log[j];
          }
        }
        assert NamesPast(t.commit.value, rec', log', done, i);
      }
    }
    if NoReplay(rec', b.commit) {
      assert NoReplay(rec, b.commit);
      assert ItemsOf(log')[..done] == ItemsOf(log)[..done];
      EndsGrown(t.commit, b.commit, rec, rec', log, log', done);
    }
  }

  lemma EndsGrown(commit: Option<CommitInfo>, found: Option<CommitInfo>, rec: seq<TxRecord>, rec': seq<TxRecord>,
                  log: seq<LogItem>, log': seq<LogItem>, done: nat)
    requires CommitEnds(commit, found, rec, log, done) && Grows(rec, rec', log, log') && done <= |log|
    ensures CommitEnds(commit, found, rec', log', done)
  {
    if 0 < done && commit.Some? {
      var l := log[done - 1].item.txId;
      assert log'[done - 1] == log[done - 1];
      if commit.value.newTx {
        if i :| 0 <= i < l && i < |rec| && IsNamed(commit.value, rec[i]) {
          assert IsNamed(commit.value, rec'[i]);
        }
      }
    }
  }

  lemma RecordGrows(m: Memory, rec: seq<TxRecord>, msg: Message)
    requires TxsMatch(m.txs, rec) && m.nextTx == |rec| && TxOutcome(m, msg) == Accepted
    ensures var rec' := RecordTx(rec, HasOpenTx(m), JoinedTx(m, msg));
      && |rec| <= |rec'|
      && forall i :: 0 <= i < |rec| && rec[i].sequence.Some? ==> rec'[i] == rec[i] && i < JoinedTx(m, msg).id
  {
  }

  lemma EnqueueGrows(m: Memory, h: History, msg: Message, url: string)
    requires MemInv(m, h) && MessageOk(h, msg)
    ensures var h' := EnqueueHistory(m, h, msg);
      Grows(h.txs, h'.txs, LogOf(h, url), LogOf(h', url)) && DoneOf(h', url) == DoneOf(h, url)
      && AppliedOf(h', url) == AppliedOf(h, url) && h'.base == h.base
  {
    hide MemInv, Squash.SquashRows, SquashPanics, TxOutcome, JoinedTx, ToldTx, RecordTx, HasOpenTx, Shaped, Valid,
      Names;
    if TxOutcome(m, msg) == Accepted {
      InvRecords(m, h);
      RecordGrows(m, h.txs, msg);
      LogGrows(m, h, msg, url);
    }
  }

  lemma LogGrows(m: Memory, h: History, msg: Message, url: string)
    requires Shaped(msg.schema, msg.rows) && TxOutcome(m, msg) == Accepted
    ensures var log, log' := LogOf(h, url), LogOf(EnqueueHistory(m, h, msg), url);
      && |log| <= |log'| && log'[..|log|] == log
      && forall j :: |log| <= j < |log'| ==> log'[j].item.txId == JoinedTx(m, msg).id
  {
    hide Squash.SquashRows, SquashPanics, TxOutcome, JoinedTx, ToldTx, RecordTx, HasOpenTx, Shaped;
  }

  lemma InvRecords(m: Memory, h: History)
    requires MemInv(m, h)
    ensures TxsMatch(m.txs, h.txs) && m.nextTx == |h.txs| && OnlyLastOpen(m.txs, h.txs)
  {
    hide TableInv, LocationsExact, QueueShape, LastSequences;
  }

  lemma EnqueueInv(s: State, msg: Message)
    requires Inv(s) && MessageOk(s.h, msg)
    ensures Inv(Next(s, Enqueue(msg)))
  {
    hide MemInv, StoreInv, MessageOk, EnqueueMem, EnqueueHistory, Grows;
    var s' := Next(s, Enqueue(msg));
    EnqueueKeeps(s.m, s.h, msg);
    forall url ensures TableStore(s', url) {
      assert TableStore(s, url);
      EnqueueGrows(s.m, s.h, msg, url);
      if url in s.tables && url in s.h.base {
        StoreGrown(s.tables[url], s.h.base[url], s.h.txs, s'.h.txs, LogOf(s.h, url), LogOf(s'.h, url), DoneOf(s.h, url),
                   AppliedOf(s.h, url));
      }
    }
    EnqueueGrows(s.m, s.h, msg, "");
  }

  lemma CommitStore(s: State, url: string, u: string)
    requires Inv(s) && Enabled(s, Commit(url))
    ensures TableStore(Next(s, Commit(url)), u)
  {
    hide MemInv, StoreInv, CommitMem, ApplyBag, NewCommit, Kept, ShapedItems, Shaped;
    var s' := Next(s, Commit(url));
    assert s.m.syncs[EntryOf(s.m.syncs, url)].items == PendingIn(s.m.syncs, url);
    assert TableStore(s, u);
    if u == url {
      var kept := Kept(s.m.txs, s.tables[url].commit, PendingIn(s.m.syncs, url));
      PendingShaped(s.m, s.h, url);
      KeptShaped(s.m.txs, s.tables[url].commit, PendingIn(s.m.syncs, url));
      EntryNonEmpty(s.m, s.h, url);
      StoreCommitted(s.m, s.h, url, s.tables[url], s.h.base[url], s'.tables[url], kept);
      assert AppliedOf(s'.h, url) == AppliedOf(s.h, url) + kept && DoneOf(s'.h, url) == |LogOf(s.h, url)|;
    }
  }

  lemma KeptShaped(txs: seq<Transaction>, last: Option<CommitInfo>, items: seq<DataSyncItem>)
    requires ShapedItems(items)
    ensures ShapedItems(Kept(txs, last, items))
  {
    hide Shaped, SkipCount;
  }

  lemma CommitInv(s: State, url: string)
    requires Inv(s) && Enabled(s, Commit(url))
    ensures Inv(Next(s, Commit(url)))
  {
    hide MemInv, TableStore, CommitMem, ApplyBag, NewCommit, Kept;
    var s' := Next(s, Commit(url));
    CommitKeeps(s.m, s.h, url, s'.h);
    forall u ensures TableStore(s', u) {
      CommitStore(s, url, u);
    }
  }

  lemma SkipAllStore(s: State, url: string, u: string)
    requires Inv(s) && Enabled(s, SkipAll(url))
    ensures TableStore(Next(s, SkipAll(url)), u)
  {
    hide MemInv, StoreInv, Kept, RemoveEntry, ApplyBag;
    var s' := Next(s, SkipAll(url));
    assert s.m.syncs[EntryOf(s.m.syncs, url)].items == PendingIn(s.m.syncs, url);
    assert TableStore(s, u);
    if u == url {
      EntryNonEmpty(s.m, s.h, url);
      StoreSkipped(s.m, s.h, url, s.tables[url], s.h.base[url]);
      assert AppliedOf(s'.h, url) == AppliedOf(s.h, url) + [] == AppliedOf(s.h, url);
    }
  }

  lemma EntryNonEmpty(m: Memory, h: History, url: string)
    requires MemInv(m, h) && EntryOf(m.syncs, url) < |m.syncs|
    ensures PendingIn(m.syncs, url) != []
  {
    hide LastSequences, LocationsExact, OnlyLastOpen, TableInv, TxsMatch, SumSizes;
  }

  lemma QueueIs(syncs: seq<Entry>, url: string)
    requires EntryOf(syncs, url) < |syncs|
    ensures PendingIn(syncs, url) == syncs[EntryOf(syncs, url)].items
  {
  }

  lemma SkipAllInv(s: State, url: string)
    requires Inv(s) && Enabled(s, SkipAll(url))
    ensures Inv(Next(s, SkipAll(url)))
  {
    hide MemInv, TableStore, RemoveEntry, Kept;
    var s' := Next(s, SkipAll(url));
    EntryNonEmpty(s.m, s.h, url);
    QueueIs(s.m.syncs, url);
    SkippedEnds(s.m.txs, s.tables[url].commit, PendingIn(s.m.syncs, url));
    SkipAllKeeps(s.m, s.h, url, s'.h);
    forall u ensures TableStore(s', u) {
      SkipAllStore(s, url, u);
    }
  }

  lemma CreateInv(s: State, url: string, cols: set<string>)
    requires Inv(s) && Enabled(s, Create(url, cols))
    ensures Inv(Next(s, Create(url, cols)))
  {
    hide MemInv, StoreInv;
    var s' := Next(s, Create(url, cols));
    CreateKeeps(s.m, s.h, s'.h);
    FreshStore(StoredTable(cols, multiset{}, None), s.h.txs, LogOf(s.h, url));
    forall u ensures TableStore(s', u) {
      assert TableStore(s, u);
    }
  }

  lemma FreshStore(t: StoredTable, rec: seq<TxRecord>, log: seq<LogItem>)
    ensures StoreInv(t, t, rec, log, 0, [])
  {
    assert AllChanges([]) == [];
    assert ApplyBag(t.cols, t.bag, []) == t.bag;
  }

  lemma CreateKeeps(m: Memory, h: History, h': History)
    requires MemInv(m, h) && h' == h.(base := h'.base)
    ensures MemInv(m, h')
  {
    hide TableInv, LastSequences, TxsMatch, OnlyLastOpen, QueueShape;
    forall u ensures TableInv(m.txs, m.syncs, |h'.txs|, u, LogOf(h', u), DoneOf(h', u)) {
      assert LogOf(h', u) == LogOf(h, u) && DoneOf(h', u) == DoneOf(h, u);
    }
    SameWaits(m.txs, h, h');
  }

  lemma StartInv(s: State)
    requires Initial(s)
    ensures Inv(s)
  {
    forall u ensures TableInv([], [], 0, u, LogOf(s.h, u), DoneOf(s.h, u)) && TableStore(s, u) {
      assert ItemsOf([]) == [];
      if u in s.tables {
        FreshStore(s.tables[u], [], []);
      }
    }
  }

  lemma NextInv(s: State, step: Step)
    requires Inv(s) && Enabled(s, step)
    ensures Inv(Next(s, step))
  {
    hide Inv;
    match step
    case Enqueue(msg) => EnqueueInv(s, msg);
    case Create(url, cols) => CreateInv(s, url, cols);
    case Commit(url) => CommitInv(s, url);
    case SkipAll(url) => SkipAllInv(s, url);
    case Restart => StartInv(Next(s, Restart));
  }

  /** The invariant holds in every state of every run, restarts included. */
  lemma {:induction false} RunInv(run: seq<State>, steps: seq<Step>, i: nat)
    requires IsRun(run, steps) && i < |run|
    ensures Inv(run[i])
  {
    hide Inv, Next, Initial, Enabled;
    if i == 0 {
      StartInv(run[0]);
    } else {
      RunInv(run, steps, i - 1);
      NextInv(run[i - 1], steps[i - 1]);
      assert run[i] == Next(run[i - 1], steps[i - 1]);
    }
  }

  lemma CommitInfoStays(s: State, step: Step, url: string)
    requires Enabled(s, step) && url in s.tables && s.tables[url].commit.Some?
    ensures var s' := Next(s, step); url in s'.tables && s'.tables[url].commit.Some?
  {
    hide EnqueueMem, EnqueueHistory, CommitMem, RemoveEntry, ApplyBag, AllChanges, Kept, EntryOf, MessageOk,
      ShapedItems, NewCommit;
    if step == Commit(url) {
      NewCommitIs(s.m.txs, s.tables[url].commit, s.m.syncs[EntryOf(s.m.syncs, url)].items);
    }
  }

  /** Once a table has commit info it has some for ever, restarts included. */
  lemma {:induction false} CommitNeverLost(run: seq<State>, steps: seq<Step>, url: string, i: nat, j: nat)
    requires IsRun(run, steps) && i <= j < |run| && url in run[i].tables && run[i].tables[url].commit.Some?
    ensures url in run[j].tables && run[j].tables[url].commit.Some?
  {
    hide Next, Enabled, Initial;
    if i < j {
      CommitNeverLost(run, steps, url, i, j - 1);
      assert Enabled(run[j - 1], steps[j - 1]) && run[j - 1 + 1] == Next(run[j - 1], steps[j - 1]);
      CommitInfoStays(run[j - 1], steps[j - 1], url);
    }
  }

  lemma RunExtends(run: seq<State>, steps: seq<Step>, step: Step)
    requires IsRun(run, steps) && Enabled(run[|run| - 1], step)
    ensures IsRun(run + [Next(run[|run| - 1], step)], steps + [step])
  {
    hide Initial, Enabled, Next;
  }
}
