/** What happens when the writer restarts and the client sends transactions again: which messages a
    flush skips, and when every message is applied exactly once. */
module SyncRecovery {
  import opened Basics
  import opened Tables
  import opened Prune
  import opened SyncState
  import opened SyncInvariant
  import opened SyncStore
  import opened SyncConvergence

  // ---------------------------------------------------------------------------------------------
  // Where skipping stops
  // ---------------------------------------------------------------------------------------------

  /** A flush keeps exactly the items from `q` on if and only if the item before `q` is the first one
      of the committed transaction. */
  lemma SkipsTo(txs: seq<Transaction>, last: Option<CommitInfo>, items: seq<DataSyncItem>, q: nat)
    requires 0 < q <= |items|
    ensures Kept(txs, last, items) == items[q..] <==>
      && last.Some? && FromCommitted(txs, last.value, items[q - 1])
      && forall k :: 0 <= k < q - 1 ==> !FromCommitted(txs, last.value, items[k])
  {
    hide FromCommitted, SkipCount;
    var n := SkipCount(txs, last, items, 0);
    assert |Kept(txs, last, items)| == |items| - n;
    if last.Some? {
      SkipStops(txs, last.value, items, 0);
    } else {
      NoSkip(txs, items);
    }
  }

  // ---------------------------------------------------------------------------------------------
  // Sending transactions again
  // ---------------------------------------------------------------------------------------------

  /** Two items carry the same rows, for the same transaction, which may still lack its number when it is
      sent again. */
  ghost predicate SameItem(a: DataSyncItem, recA: seq<TxRecord>, b: DataSyncItem, recB: seq<TxRecord>) {
    && a.schema == b.schema && a.batch == b.batch && a.txId < |recA| && b.txId < |recB|
    && (recB[b.txId].sequence.Some? ==> recA[a.txId] == recB[b.txId])
  }

  /** The items sent again are the items committed before, from position `p` on, as far as they have
      arrived, and then others. */
  ghost predicate Resent(before: seq<DataSyncItem>, rec: seq<TxRecord>, again: seq<DataSyncItem>, rec': seq<TxRecord>,
                         p: nat) {
    && p < |before|
    && forall i :: p <= i < |before| && i - p < |again| ==> SameItem(before[i], rec, again[i - p], rec')
  }

  /** The first `q` items have arrived again, and the transaction of the last of them is complete. */
  ghost predicate CaughtUp(again: seq<DataSyncItem>, rec: seq<TxRecord>, q: nat) {
    0 < q <= |again| && again[q - 1].txId < |rec| && rec[again[q - 1].txId].sequence.Some?
  }

  /** A table at the last state before a restart, and the same table after the restart while the client
      sends again, from position `p` on, what was committed, and nothing has been flushed yet. */
  ghost predicate Restarted(s: State, s': State, url: string, p: nat) {
    && Inv(s) && Inv(s') && url in s.tables && url in s.h.base && url in s'.tables
    && s'.tables[url] == s.tables[url] && DoneOf(s'.h, url) == 0
    && NoReplay(s.h.txs, s.h.base[url].commit) && UniqueTxs(s'.h.txs)
    && DoneOf(s.h, url) <= |LogOf(s.h, url)|
    && Resent(ItemsOf(LogOf(s.h, url))[..DoneOf(s.h, url)], s.h.txs, PendingIn(s'.m.syncs, url), s'.h.txs, p)
  }

  /** The first `q` items end with an item whose transaction has no other item among them. */
  ghost predicate EndsAlone(items: seq<DataSyncItem>, q: nat)
    requires 0 < q <= |items|
  {
    forall k :: 0 <= k < q - 1 ==> items[k].txId != items[q - 1].txId
  }

  lemma CommittedIffNamed(m: Memory, h: History, url: string, k: nat, info: CommitInfo)
    requires MemInv(m, h) && k < |PendingIn(m.syncs, url)|
    ensures var id := PendingIn(m.syncs, url)[k].txId;
      id < |h.txs| && (FromCommitted(m.txs, info, PendingIn(m.syncs, url)[k]) <==> IsNamed(info, h.txs[id]))
  {
    PendingTxFound(m, h, url, k);
  }

  /** The transaction of the last committed item is the named one exactly when no open one followed it. */
  lemma LastNamed(commit: CommitInfo, found: Option<CommitInfo>, rec: seq<TxRecord>, log: seq<LogItem>, done: nat)
    requires 0 < done <= |log| && CommitEnds(Some(commit), found, rec, log, done) && NoReplay(rec, found)
    ensures var l := log[done - 1].item.txId; l < |rec| && (IsNamed(commit, rec[l]) <==> !commit.newTx)
  {
  }

  lemma StoredEnds(s: State, url: string)
    requires Inv(s) && url in s.tables && url in s.h.base && NoReplay(s.h.txs, s.h.base[url].commit)
    ensures CommitEnds(s.tables[url].commit, s.h.base[url].commit, s.h.txs, LogOf(s.h, url), DoneOf(s.h, url))
  {
    hide MemInv, ApplyBag, CommitFrom, CommitEnds, NoReplay, ShapedItems;
    assert TableStore(s, url);
  }

  lemma NamedAlone(info: CommitInfo, rec: seq<TxRecord>, i: nat, j: nat)
    requires UniqueTxs(rec) && i < |rec| && j < |rec| && IsNamed(info, rec[j])
    ensures IsNamed(info, rec[i]) <==> i == j
  {
  }

  /** Whether an item that was sent again belongs to the committed transaction. */
  lemma AgainNamed(s: State, s': State, url: string, p: nat, k: nat)
    requires Restarted(s, s', url, p) && s.tables[url].commit.Some?
    requires k < |PendingIn(s'.m.syncs, url)| && k < DoneOf(s.h, url) - p
    ensures var again, info := PendingIn(s'.m.syncs, url), s.tables[url].commit.value;
      var a := LogOf(s.h, url)[p + k].item.txId;
      && a < |s.h.txs| && again[k].txId < |s'.h.txs|
      && (FromCommitted(s'.m.txs, info, again[k]) <==>
            s'.h.txs[again[k].txId].sequence.Some? && IsNamed(info, s.h.txs[a]))
      && (FromCommitted(s'.m.txs, info, again[k]) <==> IsNamed(info, s'.h.txs[again[k].txId]))
  {
    hide Inv, MemInv, NoReplay, UniqueTxs, FromCommitted, PendingIn, LogOf, DoneOf;
    var again, log, done := PendingIn(s'.m.syncs, url), LogOf(s.h, url), DoneOf(s.h, url);
    assert SameItem(ItemsOf(log)[..done][p + k], s.h.txs, again[p + k - p], s'.h.txs);
    InvMem(s');
    CommittedIffNamed(s'.m, s'.h, url, k, s.tables[url].commit.value);
  }

  /** After a restart, a flush skips exactly what was committed before if and only if all of that has
      arrived again with its last transaction complete, and the last commit ended with a complete
      transaction that has a single item for the table. */
  lemma RestartSkips(s: State, s': State, url: string, p: nat)
    requires Restarted(s, s', url, p)
    ensures var again, commit := PendingIn(s'.m.syncs, url), s.tables[url].commit;
      var q := DoneOf(s.h, url) - p;
      && 0 < q
      && (q <= |again| && Kept(s'.m.txs, commit, again) == again[q..] <==>
            CaughtUp(again, s'.h.txs, q) && commit.Some? && !commit.value.newTx && EndsAlone(again, q))
  {
    hide Inv, MemInv, NoReplay, UniqueTxs, Kept, FromCommitted, IsNamed, PendingIn, LogOf, DoneOf, CommitEnds, Resent;
    var again, commit := PendingIn(s'.m.syncs, url), s.tables[url].commit;
    var log, done := LogOf(s.h, url), DoneOf(s.h, url);
    var q := done - p;
    SentSome(ItemsOf(log)[..done], s.h.txs, again, s'.h.txs, p);
    if q <= |again| {
      SkipsTo(s'.m.txs, commit, again, q);
      if commit.Some? {
        StoredEnds(s, url);
        LastNamed(commit.value, s.h.base[url].commit, s.h.txs, log, done);
        AgainNamed(s, s', url, p, q - 1);
        assert p + (q - 1) == done - 1;
        if FromCommitted(s'.m.txs, commit.value, again[q - 1]) {
          forall k | 0 <= k < q - 1
            ensures FromCommitted(s'.m.txs, commit.value, again[k]) <==> again[k].txId == again[q - 1].txId
          {
            AgainNamed(s, s', url, p, k);
            NamedAlone(commit.value, s'.h.txs, again[k].txId, again[q - 1].txId);
          }
        }
      }
    }
  }

  lemma SentSome(before: seq<DataSyncItem>, rec: seq<TxRecord>, again: seq<DataSyncItem>, rec': seq<TxRecord>, p: nat)
    requires Resent(before, rec, again, rec', p)
    ensures p < |before|
  {
  }

  /** The last item done is the only one of its transaction, from position `p` on. */
  ghost predicate LastAlone(log: seq<LogItem>, done: nat, p: nat)
    requires 0 < done <= |log|
  {
    forall i :: p <= i < done - 1 ==> log[i].item.txId != log[done - 1].item.txId
  }

  /** A flush before that point: whatever has arrived again is applied again. */
  lemma FlushedEarly(s: State, s': State, url: string, p: nat)
    requires Restarted(s, s', url, p) && s.tables[url].commit.Some? && !s.tables[url].commit.value.newTx
    requires DoneOf(s.h, url) > p && LastAlone(LogOf(s.h, url), DoneOf(s.h, url), p)
    requires var again, q := PendingIn(s'.m.syncs, url), DoneOf(s.h, url) - p;
      |again| <= q && !CaughtUp(again, s'.h.txs, q)
    ensures Kept(s'.m.txs, s.tables[url].commit, PendingIn(s'.m.syncs, url)) == PendingIn(s'.m.syncs, url)
  {
    hide Inv, MemInv, SkipCount, FromCommitted, IsNamed, PendingIn, LogOf, DoneOf, CommitEnds, Resent;
    var again, info := PendingIn(s'.m.syncs, url), s.tables[url].commit.value;
    var log, done := LogOf(s.h, url), DoneOf(s.h, url);
    StoredEnds(s, url);
    LastNamed(info, s.h.base[url].commit, s.h.txs, log, done);
    forall k | 0 <= k < |again| ensures !FromCommitted(s'.m.txs, info, again[k]) {
      AgainNamed(s, s', url, p, k);
      NamedAlone(info, s.h.txs, log[p + k].item.txId, log[done - 1].item.txId);
    }
    SkipsNone(s'.m.txs, Some(info), again, 0);
  }

  /** The first commit after the restart adds exactly the items that the flush kept to those committed
      before the restart. */
  lemma RestartApplies(s: State, s': State, url: string, p: nat)
    requires Restarted(s, s', url, p) && Enabled(s', Commit(url))
    ensures var kept := Kept(s'.m.txs, s.tables[url].commit, PendingIn(s'.m.syncs, url));
      var applied := ItemsOf(LogOf(s.h, url)[..DoneOf(s.h, url)]) + kept;
      && ShapedItems(applied)
      && Next(s', Commit(url)).tables[url].bag == ApplyBag(s.tables[url].cols, s.h.base[url].bag, AllChanges(applied))
  {
    hide Inv, NoReplay, UniqueTxs, Resent, ApplyBag, Kept, NewCommit, CommitMem, CommitHistory, ShapedItems,
      AllChanges;
    StoredItems(s, url);
    var kept := Kept(s'.m.txs, s.tables[url].commit, PendingIn(s'.m.syncs, url));
    KeptShaped(s'.m.txs, s.tables[url].commit, PendingIn(s'.m.syncs, url));
    var before := ItemsOf(LogOf(s.h, url)[..DoneOf(s.h, url)]);
    BagCommitted(s.tables[url], s.h.base[url], before, kept);
  }

  /** Recovery: if the client has caught up, and the last commit before the restart ended with a complete
      transaction that has one item for the table, the first commit after it leaves the table as if the
      raw rows committed before the restart and the new ones had been replayed once each, in order. */
  lemma Recovery(s: State, s': State, url: string, p: nat, t0: Table)
    requires Restarted(s, s', url, p) && Enabled(s', Commit(url))
    requires s.tables[url].commit.Some? && !s.tables[url].commit.value.newTx
    requires DoneOf(s.h, url) > p && CaughtUp(PendingIn(s'.m.syncs, url), s'.h.txs, DoneOf(s.h, url) - p)
    requires EndsAlone(PendingIn(s'.m.syncs, url), DoneOf(s.h, url) - p)
    requires DoneOf(s.h, url) - p <= |LogOf(s'.h, url)|
    requires var all := LogOf(s.h, url)[..DoneOf(s.h, url)] + LogOf(s'.h, url)[DoneOf(s.h, url) - p..];
      && Squashables(all) && AllPk(t0) && Represents(s.h.base[url].bag, t0)
      && StreamOk(s.tables[url].cols, t0, RawChanges(all))
    ensures var all := LogOf(s.h, url)[..DoneOf(s.h, url)] + LogOf(s'.h, url)[DoneOf(s.h, url) - p..];
      Represents(Next(s', Commit(url)).tables[url].bag, Replay(s.tables[url].cols, t0, RawChanges(all)))
  {
    hide Inv, MemInv, NoReplay, UniqueTxs, Resent, ApplyBag, Kept, Next, Enabled, EndsAlone, CaughtUp, Squashables,
      AllPk, Represents, StreamOk, Replay, RawChanges, ShapedItems, AllChanges, PendingIn, LogOf, DoneOf;
    var done := DoneOf(s.h, url);
    var log, log' := LogOf(s.h, url)[..done], LogOf(s'.h, url);
    RestartSkips(s, s', url, p);
    RestartApplies(s, s', url, p);
    InvMem(s');
    PendingLength(s'.m, s'.h, url);
    assert ItemsOf(log + log'[done - p..]) == ItemsOf(log) + PendingIn(s'.m.syncs, url)[done - p..];
    ConvergesBag(s.tables[url].cols, s.h.base[url].bag, t0, log + log'[done - p..]);
  }
}
