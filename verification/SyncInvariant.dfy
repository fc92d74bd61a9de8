/** The inductive invariant of the data-sync writer's memory, and its preservation by every step. */
module SyncInvariant {
  import opened Basics
  import opened Schema
  import opened Prune
  import opened SyncState
  import Squash

  /** The transactions in memory are a contiguous suffix of the history, and ids are positions in it. */
  ghost predicate TxsMatch(txs: seq<Transaction>, rec: seq<TxRecord>) {
    && |txs| <= |rec|
    && forall i :: 0 <= i < |txs| ==>
         && txs[i].id == |rec| - |txs| + i
         && rec[|rec| - |txs| + i] == TxRecord(txs[i].origin, txs[i].sequence)
  }

  /** Only the last transaction in memory may lack a sequence number. */
  ghost predicate OnlyLastOpen(txs: seq<Transaction>, rec: seq<TxRecord>) {
    forall i :: 0 <= i < |rec| && (i < |rec| - |txs| || i < |rec| - 1) ==> rec[i].sequence.Some?
  }

  ghost predicate DistinctUrls(syncs: seq<Entry>) {
    forall a, b :: 0 <= a < b < |syncs| ==> syncs[a].url != syncs[b].url
  }

  function PendingIn(syncs: seq<Entry>, url: string): seq<DataSyncItem> {
    var e := EntryOf(syncs, url);
    if e < |syncs| then syncs[e].items else []
  }

  /** A table's queue holds exactly the accepted messages that are not done. */
  ghost predicate QueueMatches(syncs: seq<Entry>, url: string, log: seq<LogItem>, done: nat) {
    done <= |log| && PendingIn(syncs, url) == ItemsOf(log)[done..]
  }

  /** A transaction in memory that still has the table among its locations. */
  ghost predicate Holds(txs: seq<Transaction>, total: nat, id: nat, url: string) {
    |txs| <= total && total - |txs| <= id < total && url in txs[id - (total - |txs|)].locations
  }

  /** Every pending item's transaction is still in memory and waits for the table. */
  ghost predicate PendingHeld(txs: seq<Transaction>, total: nat, url: string, log: seq<LogItem>, done: nat) {
    forall j :: done <= j < |log| ==> Holds(txs, total, log[j].item.txId, url)
  }

  /** Messages of one table belong to transactions in order. */
  ghost predicate LogOrdered(log: seq<LogItem>, total: nat) {
    && (forall j :: 0 <= j < |log| ==> log[j].item.txId < total)
    && (forall i, j :: 0 <= i < j < |log| ==> log[i].item.txId <= log[j].item.txId)
  }

  /** A logged item is the squashed form of its message. */
  ghost predicate IsSquashed(l: LogItem) {
    && Valid(l.item.schema) && Shaped(l.item.schema, l.raw)
    && l.item.batch == Squash.SquashRows(l.item.schema, l.raw)
  }

  ghost predicate LogOk(log: seq<LogItem>) {
    forall j :: 0 <= j < |log| ==>
      IsSquashed(log[j]) && Names(log[j].item.schema, OldPk) == Names(log[0].item.schema, OldPk)
  }

  /** The latest known sequence number per origin. */
  function LastSequences(rec: seq<TxRecord>): map<string, nat> {
    if rec == [] then map[]
    else
      var n := |rec| - 1;
      var d := LastSequences(rec[..n]);
      if rec[n].sequence.Some? then d[rec[n].origin := rec[n].sequence.value] else d
  }

  function SumSizes(syncs: seq<Entry>): nat {
    if syncs == [] then 0 else SumSizes(syncs[..|syncs| - 1]) + syncs[|syncs| - 1].size
  }

  /** Entries are non-empty, one per table, in order of their first message, and add up to the size. */
  ghost predicate QueueShape(syncs: seq<Entry>, size: nat, clock: nat) {
    && DistinctUrls(syncs)
    && (forall e :: 0 <= e < |syncs| ==> syncs[e].items != [] && syncs[e].insertionTime <= clock)
    && (forall a, b :: 0 <= a < b < |syncs| ==> syncs[a].insertionTime <= syncs[b].insertionTime)
    && size == SumSizes(syncs)
  }

  /** Some pending item of the table belongs to the transaction. */
  ghost predicate WaitsFor(id: nat, log: seq<LogItem>, done: nat) {
    exists j :: done <= j < |log| && log[j].item.txId == id
  }

  /** A transaction waits only for tables that have pending items of it. */
  ghost predicate LocationsExact(txs: seq<Transaction>, h: History) {
    forall i, url :: 0 <= i < |txs| && url in txs[i].locations ==> WaitsFor(txs[i].id, LogOf(h, url), DoneOf(h, url))
  }

  /** Since the last start, no message failed and no queue was skipped whole. */
  predicate Clean(h: History) {
    h.intact && !h.skipped
  }

  /** A complete transaction that waits for a table without any pending item of it. */
  ghost predicate StuckAt(tx: Transaction, url: string, h: History) {
    tx.sequence.Some? && url in tx.locations && !WaitsFor(tx.id, LogOf(h, url), DoneOf(h, url))
  }

  ghost predicate IsStuck(txs: seq<Transaction>, h: History) {
    exists i, url :: 0 <= i < |txs| && StuckAt(txs[i], url, h)
  }

  /** Clients are told the origin of every transaction, and at most its sequence number. */
  ghost predicate IsTold(told: seq<TxRecord>, rec: seq<TxRecord>) {
    |told| == |rec| && forall i :: 0 <= i < |rec| ==> told[i] == rec[i] || told[i] == rec[i].(sequence := None)
  }

  /** What the invariant says of one table. */
  ghost predicate TableInv(txs: seq<Transaction>, syncs: seq<Entry>, total: nat, url: string, log: seq<LogItem>,
                           done: nat) {
    && QueueMatches(syncs, url, log, done)
    && PendingHeld(txs, total, url, log, done)
    && LogOrdered(log, total)
    && LogOk(log)
  }

  ghost predicate MemInv(m: Memory, h: History) {
    && TxsMatch(m.txs, h.txs) && m.nextTx == |h.txs|
    && OnlyLastOpen(m.txs, h.txs)
    && m.durable == LastSequences(h.txs[..|h.txs| - |m.txs|])
    && IsTold(h.told, h.txs) && m.memory == LastSequences(h.told) && (h.intact ==> h.told == h.txs)
    && QueueShape(m.syncs, m.size, h.clock)
    && (forall url :: TableInv(m.txs, m.syncs, |h.txs|, url, LogOf(h, url), DoneOf(h, url)))
    && (Clean(h) ==> LocationsExact(m.txs, h))
    && (h.skipped ==> IsStuck(m.txs, h))
  }

  lemma {:induction false} TxAtOffset(txs: seq<Transaction>, from: int, id: nat)
    requires forall i :: 0 <= i < |txs| ==> txs[i].id == from + i
    requires from <= id < from + |txs|
    ensures TxWithId(txs, id) == Some(txs[id - from])
  {
    if txs[0].id != id {
      TxAtOffset(txs[1..], from + 1, id);
    }
  }

  /** A transaction in memory is found by its id. */
  lemma TxFound(txs: seq<Transaction>, rec: seq<TxRecord>, id: nat)
    requires TxsMatch(txs, rec) && |rec| - |txs| <= id < |rec|
    ensures TxWithId(txs, id) == Some(txs[id - (|rec| - |txs|)])
    ensures TxWithId(txs, id).value.origin == rec[id].origin && TxWithId(txs, id).value.sequence == rec[id].sequence
  {
    TxAtOffset(txs, |rec| - |txs|, id);
  }

  lemma EntryFound(syncs: seq<Entry>, e: nat)
    requires DistinctUrls(syncs) && e < |syncs|
    ensures EntryOf(syncs, syncs[e].url) == e
  {
    FoundAt(syncs, syncs[e].url, e);
  }

  lemma {:induction false} EntryMissing(syncs: seq<Entry>, url: string, e: nat)
    requires EntryOf(syncs, url) == |syncs| && e < |syncs|
    ensures syncs[e].url != url
  {
    if e > 0 {
      EntryMissing(syncs[1..], url, e - 1);
    }
  }

  // ---------------------------------------------------------------------------------------------
  // Joining a transaction
  // ---------------------------------------------------------------------------------------------

  lemma JoinTxs(m: Memory, rec: seq<TxRecord>, msg: Message)
    requires TxsMatch(m.txs, rec) && OnlyLastOpen(m.txs, rec) && m.nextTx == |rec| && TxOutcome(m, msg) == Accepted
    ensures var m', rec' := JoinTx(m, msg), RecordTx(rec, HasOpenTx(m), JoinedTx(m, msg));
      && TxsMatch(m'.txs, rec') && OnlyLastOpen(m'.txs, rec') && m'.nextTx == |rec'|
      && |rec'| - |m'.txs| == |rec| - |m.txs|
      && JoinedTx(m, msg).id == |rec'| - 1 && |rec'| >= |rec|
      && m'.txs[|m'.txs| - 1] == JoinedTx(m, msg)
      && (forall i :: 0 <= i < |m.txs| ==> m'.txs[i].id == m.txs[i].id && m.txs[i].locations <= m'.txs[i].locations)
  {
    hide TxsMatch, OnlyLastOpen;
    MatchInit(m.txs, rec);
    if HasOpenTx(m) {
      MatchSnoc(m.txs[..|m.txs| - 1], rec[..|rec| - 1], JoinedTx(m, msg));
    } else {
      MatchSnoc(m.txs, rec, JoinedTx(m, msg));
    }
  }

  /** All transactions but the last are complete, and the last is if it has a sequence number. */
  lemma MatchInit(txs: seq<Transaction>, rec: seq<TxRecord>)
    requires TxsMatch(txs, rec) && OnlyLastOpen(txs, rec)
    ensures |txs| <= |rec|
    ensures txs != [] ==> TxsMatch(txs[..|txs| - 1], rec[..|rec| - 1]) && txs[|txs| - 1].id == |rec| - 1
    ensures txs != [] ==> forall i :: 0 <= i < |rec| - 1 ==> rec[i].sequence.Some?
    ensures txs == [] || txs[|txs| - 1].sequence.Some? ==> forall i :: 0 <= i < |rec| ==> rec[i].sequence.Some?
  {
    assert txs != [] ==> rec[|rec| - 1] == TxRecord(txs[|txs| - 1].origin, txs[|txs| - 1].sequence);
  }

  /** A transaction at the end of the complete ones may be open. */
  lemma MatchSnoc(txs: seq<Transaction>, rec: seq<TxRecord>, tx: Transaction)
    requires TxsMatch(txs, rec) && tx.id == |rec| && forall i :: 0 <= i < |rec| ==> rec[i].sequence.Some?
    ensures var rec' := rec + [TxRecord(tx.origin, tx.sequence)];
      TxsMatch(txs + [tx], rec') && OnlyLastOpen(txs + [tx], rec')
  {
  }

  lemma {:induction false} LastSequencesSnoc(rec: seq<TxRecord>, t: TxRecord)
    ensures LastSequences(rec + [t])
         == if t.sequence.Some? then LastSequences(rec)[t.origin := t.sequence.value] else LastSequences(rec)
  {
    assert (rec + [t])[..|rec|] == rec;
  }

  function MemoryAfter(memory: map<string, nat>, msg: Message): map<string, nat> {
    if msg.sequence.Some? then memory[msg.origin := msg.sequence.value] else memory
  }

  /** Replacing an open record, or adding one, changes the sequence numbers as the message says. */
  lemma RecordSequences(rec: seq<TxRecord>, open: bool, tx: Transaction)
    requires open ==> rec != [] && rec[|rec| - 1].sequence.None?
    ensures LastSequences(RecordTx(rec, open, tx))
         == if tx.sequence.Some? then LastSequences(rec)[tx.origin := tx.sequence.value] else LastSequences(rec)
  {
    hide LastSequences;
    var t, n := TxRecord(tx.origin, tx.sequence), |rec| - 1;
    if open {
      assert rec == rec[..n] + [rec[n]];
      LastSequencesSnoc(rec[..n], rec[n]);
      LastSequencesSnoc(rec[..n], t);
    } else {
      LastSequencesSnoc(rec, t);
    }
  }

  lemma OpenLast(m: Memory, rec: seq<TxRecord>)
    requires TxsMatch(m.txs, rec) && HasOpenTx(m)
    ensures rec != [] && rec[|rec| - 1].sequence.None?
  {
  }

  lemma ToldRecord(told: seq<TxRecord>, rec: seq<TxRecord>, open: bool, tx: Transaction, tx': Transaction)
    requires IsTold(told, rec) && (tx' == tx || tx' == tx.(sequence := None))
    ensures IsTold(RecordTx(told, open, tx'), RecordTx(rec, open, tx))
  {
  }

  lemma JoinPrefix(m: Memory, rec: seq<TxRecord>, msg: Message)
    requires TxsMatch(m.txs, rec) && TxOutcome(m, msg) == Accepted
    ensures var rec' := RecordTx(rec, HasOpenTx(m), JoinedTx(m, msg));
      |rec| - |m.txs| <= |rec'| && rec'[..|rec| - |m.txs|] == rec[..|rec| - |m.txs|]
  {
    hide JoinedTx, TxOutcome;
    if HasOpenTx(m) {
      OpenLast(m, rec);
    }
  }

  /** What is told of the transactions, and the memory numbers, after a message. */
  lemma JoinTold(m: Memory, h: History, msg: Message)
    requires TxsMatch(m.txs, h.txs) && IsTold(h.told, h.txs) && TxOutcome(m, msg) == Accepted
    requires Shaped(msg.schema, msg.rows)
    ensures var open := HasOpenTx(m);
      var rec', told' := RecordTx(h.txs, open, JoinedTx(m, msg)), RecordTx(h.told, open, ToldTx(m, msg));
      && IsTold(told', rec')
      && LastSequences(told')
           == (if SquashPanics(msg) then LastSequences(h.told) else MemoryAfter(LastSequences(h.told), msg))
      && (h.told == h.txs && !SquashPanics(msg) ==> told' == rec')
  {
    assert JoinedTx(m, msg).origin == msg.origin && JoinedTx(m, msg).sequence == msg.sequence;
    hide JoinedTx, TxOutcome, SquashPanics, TxsMatch, LastSequences, RecordTx, HasOpenTx, Shaped;
    var open := HasOpenTx(m);
    if open {
      OpenLast(m, h.txs);
    }
    ToldRecord(h.told, h.txs, open, JoinedTx(m, msg), ToldTx(m, msg));
    RecordSequences(h.told, open, ToldTx(m, msg));
  }

  /** A table's part of the invariant survives more transactions and more locations. */
  lemma TableJoined(txs: seq<Transaction>, txs': seq<Transaction>, syncs: seq<Entry>, total: nat, total': nat,
                    url: string, log: seq<LogItem>, done: nat)
    requires TableInv(txs, syncs, total, url, log, done)
    requires total <= total' && |txs| <= total && total - |txs| == total' - |txs'|
    requires forall i :: 0 <= i < |txs| ==> txs[i].locations <= txs'[i].locations
    ensures TableInv(txs', syncs, total', url, log, done)
  {
    hide QueueMatches, LogOk;
  }

  // ---------------------------------------------------------------------------------------------
  // Queueing an item
  // ---------------------------------------------------------------------------------------------

  lemma {:induction false} EntryOfUpdated(syncs: seq<Entry>, e: nat, x: Entry, url: string)
    requires e < |syncs| && x.url == syncs[e].url
    ensures EntryOf(syncs[e := x], url) == EntryOf(syncs, url)
  {
    if e > 0 && syncs[0].url != url {
      EntryOfUpdated(syncs[1..], e - 1, x, url);
      assert syncs[e := x][1..] == syncs[1..][e - 1 := x];
    } else if e == 0 {
      assert syncs[e := x][1..] == syncs[1..];
    }
  }

  lemma {:induction false} EntryOfAppended(syncs: seq<Entry>, x: Entry, url: string)
    ensures EntryOf(syncs + [x], url)
         == if EntryOf(syncs, url) < |syncs| then EntryOf(syncs, url) else if x.url == url then |syncs| else |syncs| + 1
  {
    if syncs == [] {
      assert syncs + [x] == [x] && [x][1..] == [];
    } else {
      EntryOfAppended(syncs[1..], x, url);
      assert (syncs + [x])[1..] == syncs[1..] + [x];
    }
  }

  lemma {:induction false} SumOfUpdated(syncs: seq<Entry>, e: nat, x: Entry)
    requires e < |syncs|
    ensures SumSizes(syncs[e := x]) == SumSizes(syncs) - syncs[e].size + x.size
  {
    var n := |syncs| - 1;
    if e == n {
      assert syncs[e := x][..n] == syncs[..n];
    } else {
      SumOfUpdated(syncs[..n], e, x);
      assert syncs[e := x][..n] == syncs[..n][e := x];
    }
  }

  lemma PushPending(syncs: seq<Entry>, msg: Message, item: DataSyncItem, url: string)
    ensures PendingIn(PushItem(syncs, msg, item), url)
         == if url == msg.url then PendingIn(syncs, url) + [item] else PendingIn(syncs, url)
  {
    var e := EntryOf(syncs, msg.url);
    if e < |syncs| {
      EntryOfUpdated(syncs, e, PushItem(syncs, msg, item)[e], url);
      if url != msg.url && EntryOf(syncs, url) < |syncs| {
        assert EntryOf(syncs, url) != e;
      }
    } else {
      EntryOfAppended(syncs, Entry(msg.url, msg.size, |item.batch|, msg.now, [item]), url);
    }
  }

  lemma ShapeUpdated(syncs: seq<Entry>, size: nat, clock: nat, now: nat, e: nat, entry: Entry)
    requires QueueShape(syncs, size, clock) && clock <= now && e < |syncs| && syncs[e].size <= entry.size
    requires entry.url == syncs[e].url && entry.insertionTime == syncs[e].insertionTime && entry.items != []
    ensures QueueShape(syncs[e := entry], size + (entry.size - syncs[e].size), now)
  {
    hide SumSizes;
    SumOfUpdated(syncs, e, entry);
  }

  lemma ShapeAppended(syncs: seq<Entry>, size: nat, clock: nat, now: nat, entry: Entry)
    requires QueueShape(syncs, size, clock) && clock <= now == entry.insertionTime && entry.items != []
    requires forall a :: 0 <= a < |syncs| ==> syncs[a].url != entry.url
    ensures QueueShape(syncs + [entry], size + entry.size, now)
  {
    hide SumSizes;
    SumOfAppended(syncs, entry);
  }

  lemma SumOfAppended(syncs: seq<Entry>, entry: Entry)
    ensures SumSizes(syncs + [entry]) == SumSizes(syncs) + entry.size
  {
    assert (syncs + [entry])[..|syncs|] == syncs;
  }

  lemma PushShape(syncs: seq<Entry>, size: nat, clock: nat, msg: Message, item: DataSyncItem)
    requires QueueShape(syncs, size, clock) && clock <= msg.now
    ensures QueueShape(PushItem(syncs, msg, item), size + msg.size, msg.now)
  {
    hide QueueShape, EntryOf;
    var e := EntryOf(syncs, msg.url);
    if e < |syncs| {
      ShapeUpdated(syncs, size, clock, msg.now, e, PushItem(syncs, msg, item)[e]);
    } else {
      forall a | 0 <= a < |syncs| ensures syncs[a].url != msg.url {
        EntryMissing(syncs, msg.url, a);
      }
      ShapeAppended(syncs, size, clock, msg.now, Entry(msg.url, msg.size, |item.batch|, msg.now, [item]));
    }
  }

  lemma PushQueue(syncs: seq<Entry>, msg: Message, l: LogItem, url: string, log: seq<LogItem>, done: nat)
    requires QueueMatches(syncs, url, log, done)
    ensures QueueMatches(PushItem(syncs, msg, l.item), url, if url == msg.url then log + [l] else log, done)
  {
    PushPending(syncs, msg, l.item, url);
    assert ItemsOf(log + [l]) == ItemsOf(log) + [l.item];
    assert (ItemsOf(log) + [l.item])[done..] == ItemsOf(log)[done..] + [l.item];
  }

  lemma HeldSnoc(txs: seq<Transaction>, total: nat, url: string, log: seq<LogItem>, done: nat, l: LogItem)
    requires PendingHeld(txs, total, url, log, done) && Holds(txs, total, l.item.txId, url)
    ensures PendingHeld(txs, total, url, log + [l], done)
  {
    hide Holds;
  }

  lemma OrderedSnoc(log: seq<LogItem>, total: nat, l: LogItem)
    requires LogOrdered(log, total) && l.item.txId == total - 1
    ensures LogOrdered(log + [l], total)
  {
  }

  lemma OkSnoc(log: seq<LogItem>, l: LogItem)
    requires LogOk(log) && IsSquashed(l)
    requires log != [] ==> Names(l.item.schema, OldPk) == Names(log[0].item.schema, OldPk)
    ensures LogOk(log + [l])
  {
    hide IsSquashed, Names;
  }

  lemma TablePushed(txs: seq<Transaction>, syncs: seq<Entry>, total: nat, msg: Message, l: LogItem,
                    url: string, log: seq<LogItem>, done: nat)
    requires TableInv(txs, syncs, total, url, log, done)
    requires url == msg.url ==>
      && Holds(txs, total, l.item.txId, url) && l.item.txId == total - 1 && IsSquashed(l)
      && (log != [] ==> Names(l.item.schema, OldPk) == Names(log[0].item.schema, OldPk))
    ensures TableInv(txs, PushItem(syncs, msg, l.item), total, url, if url == msg.url then log + [l] else log, done)
  {
    hide QueueMatches, IsSquashed, Holds, Names, PushItem, PendingHeld, LogOrdered, LogOk;
    PushQueue(syncs, msg, l, url, log, done);
    if url == msg.url {
      HeldSnoc(txs, total, url, log, done, l);
      OrderedSnoc(log, total, l);
      OkSnoc(log, l);
    }
  }

  lemma PushExact(txs: seq<Transaction>, txs': seq<Transaction>, h: History, h': History, url0: string, l: LogItem)
    requires LocationsExact(txs, h) && |txs'| > 0 && |txs| <= |txs'| <= |txs| + 1
    requires forall i :: 0 <= i < |txs| ==> txs'[i].id == txs[i].id && txs'[i].locations <= txs[i].locations + {url0}
    requires forall i :: 0 <= i < |txs'| - 1 ==> txs'[i].locations <= txs[i].locations
    requires |txs'| == |txs| + 1 ==> txs'[|txs|].locations == {url0}
    requires l.item.txId == txs'[|txs'| - 1].id && DoneOf(h, url0) <= |LogOf(h, url0)|
    requires h'.log == h.log[url0 := LogOf(h, url0) + [l]] && h'.done == h.done
    ensures LocationsExact(txs', h')
  {
    forall i, url | 0 <= i < |txs'| && url in txs'[i].locations
      ensures WaitsFor(txs'[i].id, LogOf(h', url), DoneOf(h', url))
    {
      if i == |txs'| - 1 && url == url0 {
        assert LogOf(h', url)[|LogOf(h, url)|] == l;
      } else {
        assert i < |txs| && url in txs[i].locations;
        var j :| DoneOf(h, url) <= j < |LogOf(h, url)| && LogOf(h, url)[j].item.txId == txs[i].id;
        assert LogOf(h', url)[j] == LogOf(h, url)[j];
      }
    }
  }

  /** Closing the open transaction without rows changes no location. */
  lemma SameExact(txs: seq<Transaction>, txs': seq<Transaction>, h: History, h': History)
    requires LocationsExact(txs, h) && |txs'| == |txs| && h'.log == h.log && h'.done == h.done
    requires forall i :: 0 <= i < |txs| ==> txs'[i].id == txs[i].id && txs'[i].locations == txs[i].locations
    ensures LocationsExact(txs', h')
  {
    forall i, url | 0 <= i < |txs'| && url in txs'[i].locations
      ensures WaitsFor(txs'[i].id, LogOf(h', url), DoneOf(h', url))
    {
      assert url in txs[i].locations;
      assert WaitsFor(txs[i].id, LogOf(h, url), DoneOf(h, url));
      assert LogOf(h', url) == LogOf(h, url) && DoneOf(h', url) == DoneOf(h, url);
    }
  }

  // ---------------------------------------------------------------------------------------------
  // Every outcome of enqueueing keeps the invariant
  // ---------------------------------------------------------------------------------------------

  /** What joining a transaction does to the transactions and their records. */
  ghost predicate IsJoin(m: Memory, h: History, msg: Message, txs': seq<Transaction>, rec': seq<TxRecord>) {
    && TxsMatch(txs', rec') && OnlyLastOpen(txs', rec')
    && |rec'| - |txs'| == |h.txs| - |m.txs| && |rec'| >= |h.txs| && |txs'| > 0 && |txs'| <= |m.txs| + 1
    && rec'[..|h.txs| - |m.txs|] == h.txs[..|h.txs| - |m.txs|]
    && (forall i :: 0 <= i < |m.txs| ==> txs'[i].id == m.txs[i].id && m.txs[i].locations <= txs'[i].locations)
    && (forall i :: 0 <= i < |m.txs| ==>
          txs'[i].locations <= m.txs[i].locations + if msg.rows == [] then {} else {msg.url})
    && (forall i :: 0 <= i < |txs'| - 1 ==> txs'[i].locations <= m.txs[i].locations)
    && (|txs'| == |m.txs| + 1 ==> msg.rows != [] && txs'[|m.txs|].locations == {msg.url})
    && (msg.rows != [] ==> msg.url in txs'[|txs'| - 1].locations)
    && (forall i :: 0 <= i < |m.txs| && m.txs[i].sequence.Some? ==> i < |txs'| - 1 && txs'[i] == m.txs[i])
  }

  /** What the client is told, and the memory numbers, after a message that joined. */
  ghost predicate ToldJoin(m: Memory, h: History, msg: Message, memory': map<string, nat>, rec': seq<TxRecord>,
                           told': seq<TxRecord>, intact': bool) {
    IsTold(told', rec') && memory' == LastSequences(told') && (intact' ==> h.intact && told' == rec')
  }

  lemma JoinIs(m: Memory, h: History, msg: Message)
    requires TxsMatch(m.txs, h.txs) && OnlyLastOpen(m.txs, h.txs) && m.nextTx == |h.txs|
    requires TxOutcome(m, msg) == Accepted && !IsProbe(msg)
    ensures IsJoin(m, h, msg, JoinTx(m, msg).txs, RecordTx(h.txs, HasOpenTx(m), JoinedTx(m, msg)))
    ensures JoinTx(m, msg) == m.(txs := JoinTx(m, msg).txs, nextTx := |RecordTx(h.txs, HasOpenTx(m), JoinedTx(m, msg))|)
    ensures JoinedTx(m, msg).id == JoinTx(m, msg).nextTx - 1
  {
    JoinTxs(m, h.txs, msg);
    JoinPrefix(m, h.txs, msg);
    var txs' := JoinTx(m, msg).txs;
    assert forall i :: 0 <= i < |txs'| - 1 ==> txs'[i] == m.txs[i];
    hide TxsMatch, OnlyLastOpen, RecordTx;
  }

  lemma JoinKeeps(m: Memory, h: History, msg: Message, txs': seq<Transaction>, rec': seq<TxRecord>, url: string)
    requires MemInv(m, h) && IsJoin(m, h, msg, txs', rec')
    ensures TableInv(txs', m.syncs, |rec'|, url, LogOf(h, url), DoneOf(h, url))
  {
    hide TableInv, OnlyLastOpen, QueueShape, LocationsExact, LastSequences, IsTold, IsStuck;
    TableJoined(m.txs, txs', m.syncs, |h.txs|, |rec'|, url, LogOf(h, url), DoneOf(h, url));
  }

  lemma RejectedKeeps(m: Memory, h: History, now: nat)
    requires MemInv(m, h) && h.clock <= now
    ensures MemInv(m, h.(clock := now))
  {
    hide TableInv, LastSequences, WaitsFor, TxsMatch, OnlyLastOpen, IsTold, LocationsExact, IsStuck;
    var h' := h.(clock := now);
    forall url ensures TableInv(m.txs, m.syncs, |h'.txs|, url, LogOf(h', url), DoneOf(h', url)) {
      assert LogOf(h', url) == LogOf(h, url) && DoneOf(h', url) == DoneOf(h, url);
    }
    SameWaits(m.txs, h, h');
  }

  /** Only the log and what is done matter to the waiting transactions. */
  lemma SameWaits(txs: seq<Transaction>, h: History, h': History)
    requires h'.log == h.log && h'.done == h.done
    ensures LocationsExact(txs, h) ==> LocationsExact(txs, h')
    ensures IsStuck(txs, h) ==> IsStuck(txs, h')
  {
    assert forall url :: LogOf(h', url) == LogOf(h, url) && DoneOf(h', url) == DoneOf(h, url);
    if LocationsExact(txs, h) {
      SameExact(txs, txs, h, h');
    }
    if i, url :| 0 <= i < |txs| && StuckAt(txs[i], url, h) {
      assert StuckAt(txs[i], url, h');
    }
  }

  /** A stuck transaction is complete, so no later message belongs to it. */
  lemma StuckJoined(m: Memory, h: History, msg: Message, txs': seq<Transaction>, rec': seq<TxRecord>, h': History)
    requires IsStuck(m.txs, h) && IsJoin(m, h, msg, txs', rec')
    requires forall url :: DoneOf(h', url) == DoneOf(h, url) && |LogOf(h, url)| <= |LogOf(h', url)|
    requires forall url, j :: 0 <= j < |LogOf(h', url)| ==>
      if j < |LogOf(h, url)| then LogOf(h', url)[j] == LogOf(h, url)[j] else LogOf(h', url)[j].item.txId == |rec'| - 1
    ensures IsStuck(txs', h')
  {
    hide LogOf, DoneOf, OnlyLastOpen;
    var i, url :| 0 <= i < |m.txs| && StuckAt(m.txs[i], url, h);
    assert txs'[i] == m.txs[i] && txs'[i].id < |rec'| - 1;
    forall j | DoneOf(h', url) <= j < |LogOf(h', url)| ensures LogOf(h', url)[j].item.txId != txs'[i].id {
    }
    assert StuckAt(txs'[i], url, h');
  }

  lemma FailedKeeps(m: Memory, h: History, msg: Message, m': Memory, rec': seq<TxRecord>, told': seq<TxRecord>)
    requires MemInv(m, h) && h.clock <= msg.now && IsJoin(m, h, msg, m'.txs, rec')
    requires ToldJoin(m, h, msg, m'.memory, rec', told', false)
    requires m' == m.(txs := m'.txs, nextTx := |rec'|, memory := m'.memory)
    ensures MemInv(m', h.(clock := msg.now, txs := rec', told := told', intact := false))
  {
    hide TableInv, TxsMatch, OnlyLastOpen, LocationsExact, LastSequences, IsTold, IsStuck;
    var h' := h.(clock := msg.now, txs := rec', told := told', intact := false);
    forall url ensures TableInv(m'.txs, m'.syncs, |h'.txs|, url, LogOf(h', url), DoneOf(h', url)) {
      JoinKeeps(m, h, msg, m'.txs, rec', url);
      assert LogOf(h', url) == LogOf(h, url) && DoneOf(h', url) == DoneOf(h, url);
    }
    if h.skipped {
      StuckJoined(m, h, msg, m'.txs, rec', h');
    }
  }

  lemma EmptyMessageKeeps(m: Memory, h: History, msg: Message, m': Memory, rec': seq<TxRecord>, told': seq<TxRecord>)
    requires MemInv(m, h) && h.clock <= msg.now && IsJoin(m, h, msg, m'.txs, rec') && msg.rows == []
    requires ToldJoin(m, h, msg, m'.memory, rec', told', h.intact)
    requires m' == m.(txs := m'.txs, nextTx := |rec'|, memory := m'.memory)
    ensures MemInv(m', h.(clock := msg.now, txs := rec', told := told'))
  {
    hide TableInv, TxsMatch, OnlyLastOpen, LocationsExact, LastSequences, IsTold, IsStuck;
    var h' := h.(clock := msg.now, txs := rec', told := told');
    forall url ensures TableInv(m'.txs, m'.syncs, |h'.txs|, url, LogOf(h', url), DoneOf(h', url)) {
      JoinKeeps(m, h, msg, m'.txs, rec', url);
      assert LogOf(h', url) == LogOf(h, url) && DoneOf(h', url) == DoneOf(h, url);
    }
    if Clean(h) {
      SameExact(m.txs, m'.txs, h, h');
    }
    if h.skipped {
      StuckJoined(m, h, msg, m'.txs, rec', h');
    }
  }

  function Logged(h: History, msg: Message, rec: seq<TxRecord>, told: seq<TxRecord>, l: LogItem): History {
    h.(clock := msg.now, txs := rec, told := told, log := h.log[msg.url := LogOf(h, msg.url) + [l]])
  }

  lemma JoinHolds(m: Memory, h: History, msg: Message, txs': seq<Transaction>, rec': seq<TxRecord>)
    requires IsJoin(m, h, msg, txs', rec') && msg.rows != []
    ensures |rec'| > 0 && Holds(txs', |rec'|, |rec'| - 1, msg.url)
  {
    hide OnlyLastOpen;
  }

  lemma PushedTable(m: Memory, h: History, msg: Message, txs': seq<Transaction>, rec': seq<TxRecord>,
                    told': seq<TxRecord>, l: LogItem, url: string)
    requires MemInv(m, h) && IsJoin(m, h, msg, txs', rec') && msg.rows != []
    requires l.item.txId == |rec'| - 1 && IsSquashed(l)
    requires LogOf(h, msg.url) != [] ==> Names(l.item.schema, OldPk) == Names(LogOf(h, msg.url)[0].item.schema, OldPk)
    ensures var h' := Logged(h, msg, rec', told', l);
      TableInv(txs', PushItem(m.syncs, msg, l.item), |rec'|, url, LogOf(h', url), DoneOf(h', url))
  {
    hide TableInv, Holds, IsSquashed, Names, PushItem, MemInv, IsJoin;
    var h' := Logged(h, msg, rec', told', l);
    JoinKeeps(m, h, msg, txs', rec', url);
    JoinHolds(m, h, msg, txs', rec');
    TablePushed(txs', m.syncs, |rec'|, msg, l, url, LogOf(h, url), DoneOf(h, url));
    assert LogOf(h', url) == if url == msg.url then LogOf(h, url) + [l] else LogOf(h, url);
  }

  lemma PushedExact(m: Memory, h: History, msg: Message, txs': seq<Transaction>, rec': seq<TxRecord>,
                    told': seq<TxRecord>, l: LogItem)
    requires MemInv(m, h) && Clean(h) && IsJoin(m, h, msg, txs', rec') && msg.rows != [] && l.item.txId == |rec'| - 1
    ensures LocationsExact(txs', Logged(h, msg, rec', told', l))
  {
    hide IsTold, IsStuck, LastSequences, OnlyLastOpen, QueueShape, LocationsExact;
    assert TableInv(m.txs, m.syncs, |h.txs|, msg.url, LogOf(h, msg.url), DoneOf(h, msg.url));
    assert DoneOf(h, msg.url) <= |LogOf(h, msg.url)|;
    assert txs'[|txs'| - 1].id == |rec'| - 1;
    PushExact(m.txs, txs', h, Logged(h, msg, rec', told', l), msg.url, l);
  }

  lemma PushedStuck(m: Memory, h: History, msg: Message, txs': seq<Transaction>, rec': seq<TxRecord>,
                    told': seq<TxRecord>, l: LogItem)
    requires IsStuck(m.txs, h) && IsJoin(m, h, msg, txs', rec') && l.item.txId == |rec'| - 1
    ensures IsStuck(txs', Logged(h, msg, rec', told', l))
  {
    hide IsStuck, IsJoin;
    var h' := Logged(h, msg, rec', told', l);
    assert forall url :: LogOf(h', url) == if url == msg.url then LogOf(h, url) + [l] else LogOf(h, url);
    StuckJoined(m, h, msg, txs', rec', h');
  }

  lemma PushedKeeps(m: Memory, h: History, msg: Message, m': Memory, rec': seq<TxRecord>, told': seq<TxRecord>,
                    l: LogItem)
    requires MemInv(m, h) && h.clock <= msg.now && IsJoin(m, h, msg, m'.txs, rec') && msg.rows != []
    requires ToldJoin(m, h, msg, m'.memory, rec', told', h.intact)
    requires m' == m.(txs := m'.txs, nextTx := |rec'|, syncs := PushItem(m.syncs, msg, l.item),
                      size := m.size + msg.size, memory := m'.memory)
    requires l.item.txId == |rec'| - 1 && IsSquashed(l)
    requires LogOf(h, msg.url) != [] ==> Names(l.item.schema, OldPk) == Names(LogOf(h, msg.url)[0].item.schema, OldPk)
    ensures MemInv(m', Logged(h, msg, rec', told', l))
  {
    hide TableInv, TxsMatch, OnlyLastOpen, LocationsExact, LastSequences, QueueShape, PushItem,
      IsSquashed, Names, IsTold, IsStuck;
    PushShape(m.syncs, m.size, h.clock, msg, l.item);
    if Clean(h) {
      PushedExact(m, h, msg, m'.txs, rec', told', l);
    }
    if h.skipped {
      PushedStuck(m, h, msg, m'.txs, rec', told', l);
    }
    var h' := Logged(h, msg, rec', told', l);
    forall url ensures TableInv(m'.txs, m'.syncs, |h'.txs|, url, LogOf(h', url), DoneOf(h', url)) {
      PushedTable(m, h, msg, m'.txs, rec', told', l, url);
    }
  }

  lemma AcceptedJoins(m: Memory, h: History, msg: Message) returns (rec': seq<TxRecord>, told': seq<TxRecord>)
    requires MemInv(m, h) && TxOutcome(m, msg) == Accepted && !IsProbe(msg) && Shaped(msg.schema, msg.rows)
    ensures rec' == RecordTx(h.txs, HasOpenTx(m), JoinedTx(m, msg))
    ensures told' == RecordTx(h.told, HasOpenTx(m), ToldTx(m, msg))
    ensures IsJoin(m, h, msg, JoinTx(m, msg).txs, rec')
    ensures SquashPanics(msg) ==> ToldJoin(m, h, msg, m.memory, rec', told', false)
    ensures !SquashPanics(msg) ==> ToldJoin(m, h, msg, MemoryAfter(m.memory, msg), rec', told', h.intact)
    ensures JoinTx(m, msg) == m.(txs := JoinTx(m, msg).txs, nextTx := |rec'|)
    ensures JoinedTx(m, msg).id == |rec'| - 1
  {
    hide TableInv, LastSequences, LocationsExact, QueueShape, IsStuck, SquashPanics, Shaped, TxsMatch, OnlyLastOpen,
      IsJoin,
      RecordTx, HasOpenTx, IsTold, JoinedTx, TxOutcome, MemoryAfter;
    JoinIs(m, h, msg);
    JoinTold(m, h, msg);
    rec', told' := RecordTx(h.txs, HasOpenTx(m), JoinedTx(m, msg)), RecordTx(h.told, HasOpenTx(m), ToldTx(m, msg));
  }

  lemma AcceptedKeeps(m: Memory, h: History, msg: Message)
    requires MemInv(m, h) && MessageOk(h, msg) && TxOutcome(m, msg) == Accepted && !SquashPanics(msg)
    ensures MemInv(EnqueueMem(m, msg), EnqueueHistory(m, h, msg))
  {
    hide MemInv, IsJoin, JoinedTx, JoinTx, PushItem, Squash.SquashRows, Valid, Names, Shaped, RecordTx, TxOutcome,
      HasOpenTx, SquashPanics, ToldJoin, ToldTx;
    var rec', told' := AcceptedJoins(m, h, msg);
    if msg.rows == [] {
      EmptyMessageKeeps(m, h, msg, EnqueueMem(m, msg), rec', told');
    } else {
      PushedKeeps(m, h, msg, EnqueueMem(m, msg), rec', told', LogItem(msg.rows, ItemOf(m, msg)));
    }
  }

  lemma EnqueueKeeps(m: Memory, h: History, msg: Message)
    requires MemInv(m, h) && MessageOk(h, msg)
    ensures MemInv(EnqueueMem(m, msg), EnqueueHistory(m, h, msg))
  {
    hide MemInv, IsJoin, JoinedTx, JoinTx, PushItem, Squash.SquashRows, Valid, Names, Shaped, RecordTx, TxOutcome,
      HasOpenTx, SquashPanics, ToldJoin, ToldTx;
    if TxOutcome(m, msg) != Accepted {
      RejectedKeeps(m, h, msg.now);
    } else if SquashPanics(msg) {
      var rec', told' := AcceptedJoins(m, h, msg);
      FailedKeeps(m, h, msg, JoinTx(m, msg), rec', told');
    } else {
      AcceptedKeeps(m, h, msg);
    }
  }

  // ---------------------------------------------------------------------------------------------
  // Removing an entry
  // ---------------------------------------------------------------------------------------------

  function Without(syncs: seq<Entry>, e: nat): seq<Entry>
    requires e < |syncs|
  {
    syncs[..e] + syncs[e + 1..]
  }

  lemma {:induction false} SumWithout(syncs: seq<Entry>, e: nat)
    requires e < |syncs|
    ensures SumSizes(Without(syncs, e)) == SumSizes(syncs) - syncs[e].size
  {
    var n := |syncs| - 1;
    if e == n {
      assert Without(syncs, e) == syncs[..n];
    } else {
      SumWithout(syncs[..n], e);
      assert Without(syncs, e)[..n - 1] == Without(syncs[..n], e);
      assert Without(syncs, e)[n - 1] == syncs[n];
    }
  }

  lemma ShapeWithout(syncs: seq<Entry>, size: nat, clock: nat, e: nat)
    requires QueueShape(syncs, size, clock) && e < |syncs|
    ensures syncs[e].size <= size && QueueShape(Without(syncs, e), size - syncs[e].size, clock)
  {
    SumWithout(syncs, e);
    var r := Without(syncs, e);
    assert forall a :: 0 <= a < |r| ==> r[a] == syncs[if a < e then a else a + 1];
    hide SumSizes, Without;
  }

  lemma EntryWithout(syncs: seq<Entry>, e: nat, url: string)
    requires DistinctUrls(syncs) && e < |syncs|
    ensures EntryOf(Without(syncs, e), url) ==
      (var f := EntryOf(syncs, url); if f < e then f else if f == e then |syncs| - 1 else f - 1)
  {
    hide EntryOf;
    var f, rest := EntryOf(syncs, url), Without(syncs, e);
    NotBefore(syncs, url);
    FoundAt(rest, url, if f < e then f else if f == e then |syncs| - 1 else f - 1);
  }

  lemma {:induction false} NotBefore(syncs: seq<Entry>, url: string)
    ensures forall a :: 0 <= a < EntryOf(syncs, url) ==> syncs[a].url != url
  {
    if syncs != [] {
      NotBefore(syncs[1..], url);
    }
  }

  lemma {:induction false} FoundAt(syncs: seq<Entry>, url: string, e: nat)
    requires e <= |syncs| && (e < |syncs| ==> syncs[e].url == url)
    requires forall a :: 0 <= a < e ==> syncs[a].url != url
    ensures EntryOf(syncs, url) == e
  {
    if e > 0 {
      FoundAt(syncs[1..], url, e - 1);
    }
  }

  lemma PendingWithout(syncs: seq<Entry>, e: nat, url: string)
    requires DistinctUrls(syncs) && e < |syncs|
    ensures PendingIn(Without(syncs, e), url) == if url == syncs[e].url then [] else PendingIn(syncs, url)
  {
    EntryWithout(syncs, e, url);
    EntryFound(syncs, e);
  }

  // ---------------------------------------------------------------------------------------------
  // Releasing the table and advancing the durable prefix
  // ---------------------------------------------------------------------------------------------

  lemma ReleaseTxsMatch(txs: seq<Transaction>, rec: seq<TxRecord>, url: string, items: seq<DataSyncItem>)
    requires TxsMatch(txs, rec) && OnlyLastOpen(txs, rec)
    ensures TxsMatch(ReleaseTxs(txs, url, items), rec) && OnlyLastOpen(ReleaseTxs(txs, url, items), rec)
  {
  }

  lemma HeldReleased(txs: seq<Transaction>, url: string, items: seq<DataSyncItem>, total: nat, u: string,
                     log: seq<LogItem>, done: nat)
    requires PendingHeld(txs, total, u, log, done) && u != url
    ensures PendingHeld(ReleaseTxs(txs, url, items), total, u, log, done)
  {
    var txs' := ReleaseTxs(txs, url, items);
    forall j | done <= j < |log| ensures Holds(txs', total, log[j].item.txId, u) {
      assert Holds(txs, total, log[j].item.txId, u);
    }
  }

  lemma QueueDropped(syncs: seq<Entry>, e: nat, u: string, log: seq<LogItem>, done: nat)
    requires DistinctUrls(syncs) && e < |syncs| && QueueMatches(syncs, u, log, done)
    ensures QueueMatches(Without(syncs, e), u, log, if u == syncs[e].url then |log| else done)
  {
    PendingWithout(syncs, e, u);
    hide Without, PendingIn, DistinctUrls;
  }

  /** Releasing one table leaves the others' items held; the released table has none left. */
  lemma TableReleased(txs: seq<Transaction>, syncs: seq<Entry>, e: nat, total: nat, u: string, log: seq<LogItem>,
                      done: nat)
    requires DistinctUrls(syncs) && e < |syncs| && TableInv(txs, syncs, total, u, log, done)
    ensures TableInv(ReleaseTxs(txs, syncs[e].url, syncs[e].items), Without(syncs, e), total, u, log,
                     if u == syncs[e].url then |log| else done)
  {
    hide LogOrdered, LogOk, Without, QueueMatches, DistinctUrls, Holds, ReleaseTx;
    QueueDropped(syncs, e, u, log, done);
    if u != syncs[e].url {
      HeldReleased(txs, syncs[e].url, syncs[e].items, total, u, log, done);
    }
  }

  lemma ExactReleased(txs: seq<Transaction>, h: History, url: string, items: seq<DataSyncItem>, h': History)
    requires LocationsExact(txs, h) && DoneOf(h, url) <= |LogOf(h, url)|
    requires items == ItemsOf(LogOf(h, url))[DoneOf(h, url)..]
    requires h'.log == h.log && h'.done == h.done[url := |LogOf(h, url)|]
    ensures LocationsExact(ReleaseTxs(txs, url, items), h')
  {
    var txs' := ReleaseTxs(txs, url, items);
    forall i | 0 <= i < |txs| ensures url !in txs'[i].locations {
      if url in txs[i].locations {
        assert WaitsFor(txs[i].id, LogOf(h, url), DoneOf(h, url));
        var j :| DoneOf(h, url) <= j < |LogOf(h, url)| && LogOf(h, url)[j].item.txId == txs[i].id;
        assert items[j - DoneOf(h, url)].txId == txs[i].id;
      }
    }
    forall i, u | 0 <= i < |txs'| && u in txs'[i].locations
      ensures WaitsFor(txs'[i].id, LogOf(h', u), DoneOf(h', u))
    {
      assert u in txs[i].locations && txs'[i].id == txs[i].id;
      assert WaitsFor(txs[i].id, LogOf(h, u), DoneOf(h, u));
    }
  }

  lemma {:induction false} AddedSequences(d: map<string, nat>, txs: seq<Transaction>, rec: seq<TxRecord>, from: nat)
    requires from + |txs| <= |rec| && d == LastSequences(rec[..from])
    requires forall i :: 0 <= i < |txs| ==> rec[from + i] == TxRecord(txs[i].origin, txs[i].sequence)
    ensures AddSequences(d, txs) == LastSequences(rec[..from + |txs|])
  {
    if txs != [] {
      var n := |txs| - 1;
      AddedSequences(d, txs[..n], rec, from);
      assert rec[..from + |txs|] == rec[..from + n] + [rec[from + n]];
      LastSequencesSnoc(rec[..from + n], rec[from + n]);
    }
  }

  lemma AdvancedTxs(txs: seq<Transaction>, rec: seq<TxRecord>)
    requires TxsMatch(txs, rec) && OnlyLastOpen(txs, rec)
    ensures TxsMatch(txs[DurablePrefix(txs)..], rec) && OnlyLastOpen(txs[DurablePrefix(txs)..], rec)
  {
    var n := DurablePrefix(txs);
    hide DurablePrefix;
    forall i | 0 <= i < |rec| && (i < |rec| - (|txs| - n) || i < |rec| - 1) ensures rec[i].sequence.Some? {
      if |rec| - |txs| <= i < |rec| - (|txs| - n) {
        assert IsDurable(txs[i - (|rec| - |txs|)]);
      }
    }
  }

  lemma AdvancedDurable(d: map<string, nat>, txs: seq<Transaction>, rec: seq<TxRecord>)
    requires TxsMatch(txs, rec) && d == LastSequences(rec[..|rec| - |txs|])
    ensures AddSequences(d, txs[..DurablePrefix(txs)]) == LastSequences(rec[..|rec| - |txs| + DurablePrefix(txs)])
  {
    AddedSequences(d, txs[..DurablePrefix(txs)], rec, |rec| - |txs|);
  }

  /** A transaction that still waits for a table is not durable, so its items stay held. */
  lemma TableAdvanced(txs: seq<Transaction>, syncs: seq<Entry>, total: nat, url: string, log: seq<LogItem>, done: nat)
    requires TableInv(txs, syncs, total, url, log, done)
    ensures TableInv(txs[DurablePrefix(txs)..], syncs, total, url, log, done)
  {
    var n := DurablePrefix(txs);
    hide DurablePrefix, QueueMatches, LogOrdered, LogOk;
    forall j | done <= j < |log| ensures Holds(txs[n..], total, log[j].item.txId, url) {
      var id := log[j].item.txId;
      assert Holds(txs, total, id, url);
      var i := id - (total - |txs|);
      assert !IsDurable(txs[i]);
      assert n <= i;
      assert txs[n..][i - n] == txs[i];
    }
  }

  lemma ExactAdvanced(txs: seq<Transaction>, h: History, n: nat)
    requires LocationsExact(txs, h) && n <= |txs|
    ensures LocationsExact(txs[n..], h)
  {
    hide WaitsFor;
    forall i, u | 0 <= i < |txs[n..]| && u in txs[n..][i].locations
      ensures WaitsFor(txs[n..][i].id, LogOf(h, u), DoneOf(h, u))
    {
      assert txs[n..][i] == txs[n + i];
    }
  }

  // ---------------------------------------------------------------------------------------------
  // Committing and skipping keep the invariant
  // ---------------------------------------------------------------------------------------------

  /** The history after the table's queue is gone. */
  ghost predicate IsDone(h: History, h': History, url: string) {
    && h'.txs == h.txs && h'.told == h.told && h'.log == h.log && h'.clock == h.clock && h'.intact == h.intact
    && h'.done == h.done[url := |LogOf(h, url)|]
  }

  /** The queue of an entry is what the table has not seen of its log. */
  lemma ReleasedQueue(m: Memory, h: History, e: nat)
    requires MemInv(m, h) && e < |m.syncs|
    ensures DistinctUrls(m.syncs)
    ensures var url := m.syncs[e].url;
      DoneOf(h, url) <= |LogOf(h, url)| && m.syncs[e].items == ItemsOf(LogOf(h, url))[DoneOf(h, url)..]
  {
    hide TxsMatch, OnlyLastOpen, LastSequences, LocationsExact, IsTold, IsStuck, LogOk, LogOrdered, EntryOf, SumSizes;
    var url := m.syncs[e].url;
    assert DistinctUrls(m.syncs) by { ShapeDistinct(m.syncs, m.size, h.clock); }
    assert TableInv(m.txs, m.syncs, |h.txs|, url, LogOf(h, url), DoneOf(h, url));
    EntryFound(m.syncs, e);
  }

  lemma ReleasedKeeps(m: Memory, h: History, h': History, e: nat)
    requires MemInv(m, h) && e < |m.syncs| && IsDone(h, h', m.syncs[e].url) && h'.skipped == h.skipped
    ensures m.syncs[e].size <= m.size
    ensures MemInv(m.(txs := ReleaseTxs(m.txs, m.syncs[e].url, m.syncs[e].items),
                      syncs := Without(m.syncs, e), size := m.size - m.syncs[e].size), h')
  {
    hide TableInv, TxsMatch, OnlyLastOpen, LastSequences, LocationsExact, QueueShape, Without, ReleaseTx,
      DistinctUrls, IsTold, IsStuck, EntryOf;
    var url, items := m.syncs[e].url, m.syncs[e].items;
    var txs' := ReleaseTxs(m.txs, url, items);
    ReleasedQueue(m, h, e);
    ReleaseTxsMatch(m.txs, h.txs, url, items);
    ShapeWithout(m.syncs, m.size, h.clock, e);
    forall u ensures TableInv(txs', Without(m.syncs, e), |h'.txs|, u, LogOf(h', u), DoneOf(h', u)) {
      TableReleased(m.txs, m.syncs, e, |h.txs|, u, LogOf(h, u), DoneOf(h, u));
      assert LogOf(h', u) == LogOf(h, u) && DoneOf(h', u) == if u == url then |LogOf(h, u)| else DoneOf(h, u);
    }
    if Clean(h) {
      ExactReleased(m.txs, h, url, items, h');
    }
    if h.skipped {
      StuckReleased(m.txs, h, url, items, h');
    }
  }

  /** Releasing a table does not touch a transaction that has no item in its queue. */
  lemma StuckReleased(txs: seq<Transaction>, h: History, url: string, items: seq<DataSyncItem>, h': History)
    requires IsStuck(txs, h) && DoneOf(h, url) <= |LogOf(h, url)|
    requires items == ItemsOf(LogOf(h, url))[DoneOf(h, url)..]
    requires h'.log == h.log && h'.done == h.done[url := |LogOf(h, url)|]
    ensures IsStuck(ReleaseTxs(txs, url, items), h')
  {
    var i, u :| 0 <= i < |txs| && StuckAt(txs[i], u, h);
    var txs' := ReleaseTxs(txs, url, items);
    forall k | 0 <= k < |items| && u == url ensures items[k].txId != txs[i].id {
      assert LogOf(h, url)[DoneOf(h, url) + k].item == items[k];
    }
    assert txs'[i].sequence == txs[i].sequence && txs'[i].id == txs[i].id && u in txs'[i].locations;
    assert StuckAt(txs'[i], u, h');
  }

  lemma AdvancedKeeps(m: Memory, h: History)
    requires MemInv(m, h)
    ensures MemInv(AdvanceDurable(m), h)
  {
    hide TableInv, TxsMatch, OnlyLastOpen, LastSequences, LocationsExact, QueueShape, DurablePrefix, AddSequences,
      IsTold, IsStuck;
    var m', n := AdvanceDurable(m), DurablePrefix(m.txs);
    AdvancedTxs(m.txs, h.txs);
    AdvancedDurable(m.durable, m.txs, h.txs);
    assert |m.txs| <= |h.txs| by { TxsFit(m.txs, h.txs); }
    assert |h.txs| - |m'.txs| == |h.txs| - |m.txs| + n;
    forall u ensures TableInv(m'.txs, m'.syncs, |h.txs|, u, LogOf(h, u), DoneOf(h, u)) {
      TableAdvanced(m.txs, m.syncs, |h.txs|, u, LogOf(h, u), DoneOf(h, u));
    }
    if Clean(h) {
      ExactAdvanced(m.txs, h, n);
    }
    if h.skipped {
      StuckAdvanced(m.txs, h);
    }
  }

  lemma StuckAdvanced(txs: seq<Transaction>, h: History)
    requires IsStuck(txs, h)
    ensures IsStuck(txs[DurablePrefix(txs)..], h)
  {
    hide DurablePrefix, WaitsFor;
    var n := DurablePrefix(txs);
    var i, u :| 0 <= i < |txs| && StuckAt(txs[i], u, h);
    assert !IsDurable(txs[i]) && n <= i;
    assert StuckAt(txs[n..][i - n], u, h);
  }

  lemma TxsFit(txs: seq<Transaction>, rec: seq<TxRecord>)
    requires TxsMatch(txs, rec)
    ensures |txs| <= |rec|
  {
  }

  lemma CommitKeeps(m: Memory, h: History, url: string, h': History)
    requires MemInv(m, h) && EntryOf(m.syncs, url) < |m.syncs| && IsDone(h, h', url) && h'.skipped == h.skipped
    ensures MemInv(CommitMem(m, url), h')
  {
    hide MemInv, DurablePrefix, AddSequences, ReleaseTx;
    var e := EntryOf(m.syncs, url);
    ReleasedKeeps(m, h, h', e);
    AdvancedKeeps(m.(txs := ReleaseTxs(m.txs, url, m.syncs[e].items), syncs := Without(m.syncs, e),
                     size := m.size - m.syncs[e].size), h');
  }

  /** Some item is from a complete transaction. */
  ghost predicate EndsComplete(txs: seq<Transaction>, items: seq<DataSyncItem>) {
    items != [] &&
    var tx := TxWithId(txs, items[|items| - 1].txId);
    tx.Some? && tx.value.sequence.Some?
  }

  /** Dropping a skipped queue releases no location, so its last transaction waits for ever. */
  lemma SkipAllKeeps(m: Memory, h: History, url: string, h': History)
    requires MemInv(m, h) && EntryOf(m.syncs, url) < |m.syncs| && IsDone(h, h', url) && h'.skipped
    requires EndsComplete(m.txs, PendingIn(m.syncs, url))
    ensures MemInv(RemoveEntry(m, EntryOf(m.syncs, url)), h')
  {
    hide TableInv, TxsMatch, OnlyLastOpen, LastSequences, LocationsExact, QueueShape, EntryOf, IsTold, IsStuck,
      EndsComplete;
    var e := EntryOf(m.syncs, url);
    ShapeWithout(m.syncs, m.size, h.clock, e);
    assert DistinctUrls(m.syncs) by { ShapeDistinct(m.syncs, m.size, h.clock); }
    forall u ensures TableInv(m.txs, Without(m.syncs, e), |h'.txs|, u, LogOf(h', u), DoneOf(h', u)) {
      TableDropped(m.txs, m.syncs, e, |h.txs|, u, LogOf(h, u), DoneOf(h, u));
      assert LogOf(h', u) == LogOf(h, u) && DoneOf(h', u) == if u == url then |LogOf(h, u)| else DoneOf(h, u);
    }
    GetsStuck(m, h, url, h');
  }

  lemma GetsStuck(m: Memory, h: History, url: string, h': History)
    requires MemInv(m, h) && IsDone(h, h', url) && EndsComplete(m.txs, PendingIn(m.syncs, url))
    ensures IsStuck(m.txs, h')
  {
    hide LastSequences, LocationsExact, QueueShape, IsTold, IsStuck, LogOk, LogOrdered, OnlyLastOpen, TxWithId;
    var log, done, items := LogOf(h, url), DoneOf(h, url), PendingIn(m.syncs, url);
    assert TableInv(m.txs, m.syncs, |h.txs|, url, log, done);
    var j := |log| - 1;
    assert items[|items| - 1] == log[j].item;
    assert Holds(m.txs, |h.txs|, log[j].item.txId, url);
    TxFound(m.txs, h.txs, log[j].item.txId);
    var i := log[j].item.txId - (|h.txs| - |m.txs|);
    assert LogOf(h', url) == log && DoneOf(h', url) == |log|;
    IsStuckAt(m.txs, h', i, url);
  }

  lemma IsStuckAt(txs: seq<Transaction>, h: History, i: nat, url: string)
    requires i < |txs| && txs[i].sequence.Some? && url in txs[i].locations && DoneOf(h, url) == |LogOf(h, url)|
    ensures IsStuck(txs, h)
  {
    assert StuckAt(txs[i], url, h);
  }

  lemma ShapeDistinct(syncs: seq<Entry>, size: nat, clock: nat)
    requires QueueShape(syncs, size, clock)
    ensures DistinctUrls(syncs)
  {
  }

  lemma TableDropped(txs: seq<Transaction>, syncs: seq<Entry>, e: nat, total: nat, u: string, log: seq<LogItem>,
                     done: nat)
    requires DistinctUrls(syncs) && e < |syncs| && TableInv(txs, syncs, total, u, log, done)
    ensures TableInv(txs, Without(syncs, e), total, u, log, if u == syncs[e].url then |log| else done)
  {
    hide LogOrdered, LogOk, Without, QueueMatches, DistinctUrls, Holds;
    QueueDropped(syncs, e, u, log, done);
  }
}
