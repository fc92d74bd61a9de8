/** The data-sync writer as an object: its fields are updated in place by enqueueing and flushing, and
    every state it reaches is the last state of a run of the machine in `SyncState`. */
module Writer {
  import opened Basics
  import opened Tables
  import opened Schema
  import opened Rechunk
  import opened Prune
  import opened SyncState
  import opened SyncInvariant
  import opened SyncStore
  import Squash

  /** A committed table: its value columns, the rows of its files, and the info of its last commit. */
  datatype DeltaTable = DeltaTable(cols: set<string>, files: seq<seq<Row>>, commit: Option<CommitInfo>)

  datatype Config = Config(maxBytes: nat, maxLag: nat, maxSyncs: nat, maxPartitionSize: nat)

  /** What one flush meets outside the writer: the time, whether creating and committing succeed, the
      statistics and record counts of a table's files, and how the engine splits the rows of a plan
      into partitions and batches. */
  datatype World = World(
    now: nat,
    creates: bool,
    commits: bool,
    stats: seq<seq<Row>> -> PruningStats,
    records: seq<seq<Row>> -> seq<Cell>,
    layout: seq<Row> -> seq<seq<seq<Row>>>)

  ghost predicate Faithful(w: World) {
    && (forall files :: Truthful(w.stats(files), files) && |w.records(files)| == |files|)
    && (forall rows :: multiset(Flatten(Flatten(w.layout(rows)))) == multiset(rows))
  }

  datatype Ready = Nothing | Table(url: string) | UnwrapPanic

  datatype FlushOutcome = Flushed | Failed | Panicked

  ghost function Stored(t: DeltaTable): StoredTable {
    StoredTable(t.cols, multiset(Flatten(t.files)), t.commit)
  }

  ghost function StoredAll(tables: map<string, DeltaTable>): map<string, StoredTable> {
    map url | url in tables :: Stored(tables[url])
  }

  lemma StoredUpdate(tables: map<string, DeltaTable>, url: string, t: DeltaTable)
    ensures StoredAll(tables[url := t]) == StoredAll(tables)[url := Stored(t)]
  {
    hide Stored;
  }

  lemma StoredHas(tables: map<string, DeltaTable>, url: string)
    ensures url in StoredAll(tables) <==> url in tables
    ensures url in tables ==> StoredAll(tables)[url] == Stored(tables[url])
  {
  }

  /** Only flush steps have been added. */
  ghost predicate FlushesOnly(steps: seq<Step>, steps': seq<Step>) {
    && steps <= steps'
    && forall i :: |steps| <= i < |steps'| ==> steps'[i].Create? || steps'[i].Commit? || steps'[i].SkipAll?
  }

  /** Nothing is left that would be flushed: every bound holds for every entry. */
  ghost predicate Rested(syncs: seq<Entry>, size: nat, now: nat, config: Config) {
    && size < config.maxBytes
    && forall e :: 0 <= e < |syncs| ==>
         now - syncs[e].insertionTime < config.maxLag && |syncs[e].items| < config.maxSyncs
  }

  /** The table to flush: the oldest one if some table lags behind or if too much is in memory, else the
      first one with too many items. */
  ghost predicate IsDue(syncs: seq<Entry>, size: nat, now: nat, config: Config, url: string) {
    var e := EntryOf(syncs, url);
    && e < |syncs|
    && if size >= config.maxBytes || exists k :: 0 <= k < |syncs| && now - syncs[k].insertionTime >= config.maxLag
       then e == 0
       else |syncs[e].items| >= config.maxSyncs && forall k :: 0 <= k < e ==> |syncs[k].items| < config.maxSyncs
  }

  /** Every flush step from `n` on is of the table that was due at some time. */
  ghost predicate DueOnly(run: seq<State>, steps: seq<Step>, n: nat, world: nat -> World, config: Config) {
    |run| == |steps| + 1 &&
    forall i :: n <= i < |steps| && !steps[i].Create? ==>
      && (steps[i].Commit? || steps[i].SkipAll?)
      && exists at: nat :: IsDue(run[i].m.syncs, run[i].m.size, world(at).now, config, steps[i].url)
  }

  /** Every flush step from `n` on is of the given table, in the given memory. */
  ghost predicate FlushesTable(run: seq<State>, steps: seq<Step>, n: nat, url: string, m: Memory) {
    |run| == |steps| + 1 &&
    forall i :: n <= i < |steps| && !steps[i].Create? ==>
      (steps[i].Commit? || steps[i].SkipAll?) && steps[i].url == url && run[i].m == m
  }

  /** Whether a queued table can be flushed: it exists or can be created, and the items not yet committed,
      if any, have a key column and can be committed. */
  ghost predicate CanFlush(s: State, url: string, w: World)
    requires PendingIn(s.m.syncs, url) != []
  {
    && (url in s.tables || w.creates)
    && var kept := Kept(s.m.txs, CreatedState(s, url).tables[url].commit, PendingIn(s.m.syncs, url));
       kept == [] || (w.commits && (AnyKey(kept, OldPk) || AnyKey(kept, NewPk)))
  }

  /** The table to flush next cannot be flushed. */
  ghost predicate IsBlocked(s: State, w: World, config: Config) {
    exists url ::
      IsDue(s.m.syncs, s.m.size, w.now, config, url) && PendingIn(s.m.syncs, url) != [] && !CanFlush(s, url, w)
  }

  /** The state after a successful flush of one queued table. */
  ghost function FlushedState(s: State, url: string): State
    requires Inv(s) && EntryOf(s.m.syncs, url) < |s.m.syncs|
  {
    var items := PendingIn(s.m.syncs, url);
    EntryNonEmpty(s.m, s.h, url);
    PendingShaped(s.m, s.h, url);
    var s1 := CreatedState(s, url);
    if Kept(s.m.txs, s1.tables[url].commit, items) == [] then Next(s1, SkipAll(url)) else Next(s1, Commit(url))
  }

  /** The state once the table exists: a new table has the value columns of the first queued item. */
  ghost function CreatedState(s: State, url: string): (s': State)
    requires PendingIn(s.m.syncs, url) != []
    ensures url in s'.tables && s'.m == s.m
  {
    if url in s.tables then s else Next(s, Create(url, Names(PendingIn(s.m.syncs, url)[0].schema, Value)))
  }

  lemma {:induction false} PrefixIs(txs: seq<Transaction>, n: nat)
    requires n <= |txs| && (forall i :: 0 <= i < n ==> IsDurable(txs[i])) && (n < |txs| ==> !IsDurable(txs[n]))
    ensures DurablePrefix(txs) == n
  {
  }

  lemma AddSequencesSnoc(d: map<string, nat>, txs: seq<Transaction>, i: nat)
    requires i < |txs| && txs[i].sequence.Some?
    ensures AddSequences(d, txs[..i + 1]) == AddSequences(d, txs[..i])[txs[i].origin := txs[i].sequence.value]
  {
    assert txs[..i + 1][..i] == txs[..i];
  }

  lemma RefusedStays(m: Memory, msg: Message)
    requires Shaped(msg.schema, msg.rows)
    ensures EnqueueOutcome(m, msg) == ForeignOrigin || EnqueueOutcome(m, msg) == EmptyTransaction ==>
      EnqueueMem(m, msg) == m
  {
    hide SquashPanics, Shaped;
  }

  lemma JoinFrame(m: Memory, msg: Message)
    requires TxOutcome(m, msg) == Accepted
    ensures var m' := JoinTx(m, msg);
      m'.syncs == m.syncs && m'.size == m.size && m'.memory == m.memory && m'.durable == m.durable
  {
  }

  class Writer {
    var txs: seq<Transaction>
    var syncs: seq<Entry>
    var size: nat
    var originMemory: map<string, nat>
    var originDurable: map<string, nat>
    var nextTx: nat
    var tables: map<string, DeltaTable>
    const config: Config

    ghost var history: History
    ghost var run: seq<State>
    ghost var steps: seq<Step>

    ghost function Mem(): Memory
      reads this
    {
      Memory(txs, syncs, size, originMemory, originDurable, nextTx)
    }

    ghost function Abstract(): State
      reads this
    {
      State(Mem(), StoredAll(tables), history)
    }

    /** The object is in the last state of a run of the machine. */
    ghost predicate Valid()
      reads this
    {
      && config.maxPartitionSize > 0
      && IsRun(run, steps) && run[|run| - 1] == Abstract() && Inv(Abstract())
    }

    /** A (re)start: nothing in memory, and the tables as they are found. */
    constructor (config: Config, tables: map<string, DeltaTable>, ghost clock: nat)
      requires config.maxPartitionSize > 0
      ensures Valid() && this.config == config && this.tables == tables && Mem() == EMPTY
      ensures history == Started(StoredAll(tables), clock)
    {
      this.config := config;
      this.tables := tables;
      txs, syncs, size, nextTx := [], [], 0, 0;
      originMemory, originDurable := map[], map[];
      history := Started(StoredAll(tables), clock);
      steps := [];
      new;
      run := [Abstract()];
      StartInv(Abstract());
    }

    /** The sequence numbers reported to an origin. */
    method StoredSequences(origin: string) returns (memory: Option<nat>, durable: Option<nat>)
      ensures memory.Some? <==> origin in originMemory
      ensures memory.Some? ==> memory.value == originMemory[origin]
      ensures durable.Some? <==> origin in originDurable
      ensures durable.Some? ==> durable.value == originDurable[origin]
    {
      memory := if origin in originMemory then Some(originMemory[origin]) else None;
      durable := if origin in originDurable then Some(originDurable[origin]) else None;
    }

    // -------------------------------------------------------------------------------------------
    // Enqueueing
    // -------------------------------------------------------------------------------------------

    /** Some transaction still waits for its last message. */
    ghost predicate IsOpen()
      reads this
    {
      txs != [] && txs[|txs| - 1].sequence.None?
    }

    /** Merge a message into the open transaction, or start a new one. It is refused if another origin's
        transaction is open, or if none is open and it would be a transaction without rows. */
    method JoinTransaction(msg: Message) returns (outcome: Outcome, txId: nat)
      modifies `txs, `nextTx
      ensures outcome == TxOutcome(old(Mem()), msg)
      ensures outcome == ForeignOrigin <==> old(IsOpen()) && old(txs)[|old(txs)| - 1].origin != msg.origin
      ensures outcome == EmptyTransaction <==> !old(IsOpen()) && msg.rows == [] && msg.sequence.Some?
      ensures outcome != SquashFailed
      ensures outcome == Accepted ==> Mem() == JoinTx(old(Mem()), msg) && txId == JoinedTx(old(Mem()), msg).id
      ensures outcome != Accepted ==> Mem() == old(Mem())
    {
      txId := 0;
      if txs != [] && txs[|txs| - 1].sequence.None? {
        var n := |txs| - 1;
        if msg.origin != txs[n].origin {
          return ForeignOrigin, 0;
        }
        if msg.sequence.Some? {
          txs := txs[n := txs[n].(sequence := msg.sequence)];
        }
        if msg.rows != [] {
          txs := txs[n := txs[n].(locations := txs[n].locations + {msg.url})];
        }
        txId := txs[n].id;
      } else {
        if msg.rows == [] && msg.sequence.Some? {
          return EmptyTransaction, 0;
        }
        txId := nextTx;
        txs := txs + [Transaction(txId, msg.origin, msg.sequence, {msg.url})];
        nextTx := nextTx + 1;
      }
      outcome := Accepted;
    }

    /** Queue an item for its table. */
    method Queue(msg: Message, item: DataSyncItem)
      modifies `syncs, `size
      ensures syncs == PushItem(old(syncs), msg, item) && size == old(size) + msg.size
    {
      var e := EntryOf(syncs, msg.url);
      if e < |syncs| {
        var entry := syncs[e];
        syncs := syncs[e := entry.(size := entry.size + msg.size, rows := entry.rows + |item.batch|,
                                   items := entry.items + [item])];
      } else {
        syncs := syncs + [Entry(msg.url, msg.size, |item.batch|, msg.now, [item])];
      }
      size := size + msg.size;
    }

    method Accept(msg: Message) returns (outcome: Outcome)
      requires Shaped(msg.schema, msg.rows) && (msg.rows != [] ==> Schema.Valid(msg.schema))
      modifies `txs, `nextTx, `syncs, `size, `originMemory
      ensures outcome == EnqueueOutcome(old(Mem()), msg)
      ensures outcome == ForeignOrigin <==> old(IsOpen()) && old(txs)[|old(txs)| - 1].origin != msg.origin
      ensures outcome == EmptyTransaction <==> !old(IsOpen()) && msg.rows == [] && msg.sequence.Some?
      ensures Mem() == EnqueueMem(old(Mem()), msg)
    {
      hide JoinTx, JoinedTx, PushItem, TxOutcome, Squash.SquashRows, Columns, Shaped, Schema.Valid;
      ghost var m0 := Mem();
      var txId;
      outcome, txId := JoinTransaction(msg);
      if outcome != Accepted {
        return;
      }
      JoinFrame(m0, msg);
      if msg.rows != [] {
        var r := Squash.SquashBatches(msg.schema, msg.rows);
        if r.IndexPanic? {
          return SquashFailed;
        }
        Queue(msg, DataSyncItem(txId, msg.schema, r.batch));
      }
      if msg.sequence.Some? {
        originMemory := originMemory[msg.origin := msg.sequence.value];
      }
    }

    /** Store a message in memory: one step of the machine. What the step does is `SyncTheorems.Enqueues`. */
    method EnqueueSync(msg: Message) returns (outcome: Outcome)
      requires Valid() && MessageOk(history, msg)
      modifies this
      ensures Valid() && tables == old(tables)
      ensures outcome == EnqueueOutcome(old(Mem()), msg)
      ensures outcome == ForeignOrigin <==> old(IsOpen()) && old(txs)[|old(txs)| - 1].origin != msg.origin
      ensures outcome == EmptyTransaction <==> !old(IsOpen()) && msg.rows == [] && msg.sequence.Some?
      ensures outcome == ForeignOrigin || outcome == EmptyTransaction ==> Mem() == old(Mem())
      ensures Abstract() == Next(old(Abstract()), Enqueue(msg))
      ensures run == old(run) + [Abstract()] && steps == old(steps) + [Enqueue(msg)]
    {
      hide IsRun, Inv, EnqueueMem, EnqueueHistory, EnqueueOutcome, Shaped, Schema.Valid, StoredAll, Names;
      ghost var m0 := Mem();
      outcome := Accept(msg);
      RefusedStays(m0, msg);
      history := EnqueueHistory(m0, history, msg);
      NextInv(old(Abstract()), Enqueue(msg));
      RunExtends(run, steps, Enqueue(msg));
      run, steps := run + [Abstract()], steps + [Enqueue(msg)];
    }

    // -------------------------------------------------------------------------------------------
    // Flushing
    // -------------------------------------------------------------------------------------------

    /** Skip everything up to the first item of the committed transaction. */
    method SkipCommitted(info: CommitInfo, items: seq<DataSyncItem>) returns (kept: seq<DataSyncItem>)
      ensures kept == Kept(txs, Some(info), items)
    {
      hide FromCommitted;
      var start := 0;
      for ind := 0 to |items|
        invariant start == 0 && forall k :: 0 <= k < ind ==> !FromCommitted(txs, info, items[k])
      {
        if FromCommitted(txs, info, items[ind]) {
          start := ind + 1;
          break;
        }
      }
      SkipStops(txs, info, items, 0);
      kept := items[start..];
    }

    /** Skip what is already committed, and name the last complete transaction of the rest. */
    method SkipSyncs(last: Option<CommitInfo>, items: seq<DataSyncItem>)
      returns (kept: seq<DataSyncItem>, commit: Option<CommitInfo>)
      requires forall i :: 0 <= i < |items| ==> TxWithId(txs, items[i].txId).Some?
      ensures kept == Kept(txs, last, items) && commit == NewCommit(txs, last, items)
      ensures IsCommitOf(txs, last, kept, commit)
    {
      NewCommitIs(txs, last, items);
      hide TxWithId, SkipCount;
      kept := items;
      if last.Some? {
        kept := SkipCommitted(last.value, items);
      } else {
        NoSkip(txs, items);
      }
      hide Kept;
      var newTx := kept != [] && TxWithId(txs, kept[|kept| - 1].txId).value.sequence.None?;
      commit := LastCompleteTx(kept, newTx);
      if commit.None? && last.Some? {
        commit := Some(last.value.(newTx := newTx));
      }
    }

    method LastCompleteTx(kept: seq<DataSyncItem>, newTx: bool) returns (commit: Option<CommitInfo>)
      ensures commit == LastComplete(txs, kept, newTx)
    {
      hide TxWithId;
      commit := None;
      var k := |kept|;
      assert kept[..k] == kept;
      while k > 0 && commit.None?
        invariant 0 <= k <= |kept|
        invariant LastComplete(txs, kept, newTx) == if commit.Some? then commit else LastComplete(txs, kept[..k], newTx)
      {
        k := k - 1;
        assert kept[..k + 1][..k] == kept[..k];
        var tx := TxWithId(txs, kept[k].txId);
        if tx.Some? && tx.value.sequence.Some? {
          commit := Some(CommitInfo(tx.value.origin, tx.value.sequence.value, newTx));
        }
      }
    }

    /** Release the table from the transactions of the flushed items. */
    method RemoveTxLocations(url: string, items: seq<DataSyncItem>)
      requires forall i, j :: 0 <= i < j < |txs| ==> txs[i].id != txs[j].id
      modifies `txs
      ensures txs == ReleaseTxs(old(txs), url, items)
    {
      ghost var txs0 := txs;
      for k := 0 to |items|
        invariant |txs| == |txs0| && forall i :: 0 <= i < |txs| ==> txs[i].id == txs0[i].id
        invariant forall i :: 0 <= i < |txs| ==> txs[i] == ReleaseTx(txs0[i], url, items[..k])
      {
        var i := 0;
        while i < |txs| && txs[i].id != items[k].txId
          invariant 0 <= i <= |txs| && forall j :: 0 <= j < i ==> txs[j].id != items[k].txId
        {
          i := i + 1;
        }
        ghost var before := txs;
        if i < |txs| {
          txs := txs[i := txs[i].(locations := txs[i].locations - {url})];
        }
        forall j | 0 <= j < |txs| ensures txs[j] == ReleaseTx(txs0[j], url, items[..k + 1]) {
          ReleaseOne(txs0[j], url, items, k);
        }
      }
      assert items[..|items|] == items;
    }

    /** Drop the entry of a table. */
    method RemoveSync(url: string)
      modifies `syncs, `size
      ensures EntryOf(old(syncs), url) < |old(syncs)| ==> Mem() == RemoveEntry(old(Mem()), EntryOf(old(syncs), url))
      ensures EntryOf(old(syncs), url) == |old(syncs)| ==> Mem() == old(Mem())
    {
      var e := EntryOf(syncs, url);
      if e < |syncs| {
        size := if syncs[e].size <= size then size - syncs[e].size else 0;
        syncs := syncs[..e] + syncs[e + 1..];
      }
    }

    /** Mark the longest complete and flushed prefix of transactions as durable. */
    method AdvanceDurableTxs()
      modifies `txs, `originDurable
      ensures Mem() == AdvanceDurable(old(Mem()))
    {
      var i := 0;
      while i < |txs| && txs[i].sequence.Some? && txs[i].locations == {}
        invariant 0 <= i <= |txs| && txs == old(txs)
        invariant forall k :: 0 <= k < i ==> IsDurable(txs[k])
        invariant originDurable == AddSequences(old(originDurable), txs[..i])
      {
        AddSequencesSnoc(old(originDurable), txs, i);
        originDurable := originDurable[txs[i].origin := txs[i].sequence.value];
        i := i + 1;
      }
      PrefixIs(txs, i);
      txs := txs[i..];
    }

    /** The table to flush next: the oldest one if it lags behind or if too much is in memory, else the
        first one with too many items. */
    method FlushReady(now: nat) returns (r: Ready)
      requires QueueShape(syncs, size, history.clock) && history.clock <= now
      ensures r.Nothing? <==> Rested(syncs, size, now, config)
      ensures r.UnwrapPanic? <==> syncs == [] && config.maxBytes == 0
      ensures r.Table? ==> IsDue(syncs, size, now, config, r.url)
    {
      hide SumSizes, EntryOf;
      if syncs != [] {
        EntryFound(syncs, 0);
        NoSize(syncs);
        if now - syncs[0].insertionTime >= config.maxLag {
          return Table(syncs[0].url);
        }
        assert forall e :: 0 <= e < |syncs| ==> now - syncs[e].insertionTime < config.maxLag;
      }
      if size >= config.maxBytes {
        NoSize(syncs);
        if syncs == [] {
          return UnwrapPanic;
        }
        return Table(syncs[0].url);
      }
      for e := 0 to |syncs|
        invariant forall k :: 0 <= k < e ==> |syncs[k].items| < config.maxSyncs
      {
        if |syncs[e].items| >= config.maxSyncs {
          EntryFound(syncs, e);
          return Table(syncs[e].url);
        }
      }
      r := Nothing;
    }

    /** Rewrite the files that the items may touch, and leave the others. */
    method RewriteFiles(t: DeltaTable, items: seq<DataSyncItem>, w: World) returns (ok: bool, files: seq<seq<Row>>)
      requires items != [] && SameKeys(items) && ShapedItems(items) && Faithful(w) && config.maxPartitionSize > 0
      ensures ok <==> AnyKey(items, OldPk) || AnyKey(items, NewPk)
      ensures ok ==> multiset(Flatten(files)) == ApplyBag(t.cols, multiset(Flatten(t.files)), AllChanges(items))
    {
      hide SameKeys, ShapedItems, ApplyAll, AnyKey, Flatten, ShapedStats, Chunked, FileCount, KeepsTouched,
        CoarseKeeps, FineKeeps, AllChanges, ApplyBag, Selected;
      var r := PrunePartitions(items, w.stats(t.files), w.records(t.files), t.files);
      if r.NoKeysPanic? {
        return false, [];
      }
      var keep, rest := Selected(t.files, r.map_, true), Selected(t.files, r.map_, false);
      var rows := ApplySyncs(t.cols, Flatten(keep), items);
      var added, _, _ := PlanToFiles(w.layout(rows), config.maxPartitionSize);
      RewriteBag(t, items, r.map_, rows, added);
      return true, rest + added;
    }

    /** Create a table with the value columns of a queued item. */
    method CreateTable(url: string, schema: SyncSchema)
      requires Valid() && url !in tables
      modifies this
      ensures Valid() && Abstract() == Next(old(Abstract()), Create(url, Names(schema, Value)))
      ensures tables == old(tables)[url := DeltaTable(Names(schema, Value), [], None)]
      ensures run == old(run) + [Abstract()] && steps == old(steps) + [Create(url, Names(schema, Value))]
    {
      hide IsRun, Inv, Names, StoredAll;
      ghost var step := Create(url, Names(schema, Value));
      StoredHas(tables, url);
      StoredUpdate(tables, url, DeltaTable(Names(schema, Value), [], None));
      tables := tables[url := DeltaTable(Names(schema, Value), [], None)];
      history := Next(old(Abstract()), step).h;
      NextInv(old(Abstract()), step);
      RunExtends(run, steps, step);
      run, steps := run + [Abstract()], steps + [step];
    }

    /** Drop a queue that is committed already. */
    method DropSkipped(url: string)
      requires Valid() && Enabled(Abstract(), SkipAll(url))
      modifies this
      ensures Valid() && Abstract() == Next(old(Abstract()), SkipAll(url))
      ensures run == old(run) + [Abstract()] && steps == old(steps) + [SkipAll(url)]
    {
      hide IsRun, Inv, Kept, EntryOf, RemoveEntry, StoredAll, CommitHistory;
      ghost var step := SkipAll(url);
      RemoveSync(url);
      history := CommitHistory(history, url, []).(skipped := true);
      NextInv(old(Abstract()), step);
      RunExtends(run, steps, step);
      run, steps := run + [Abstract()], steps + [step];
    }

    /** Release a flushed queue and advance the durable numbers. */
    method ReleaseQueue(url: string)
      requires EntryOf(syncs, url) < |syncs| && forall i, j :: 0 <= i < j < |txs| ==> txs[i].id != txs[j].id
      modifies `txs, `syncs, `size, `originDurable
      ensures Mem() == CommitMem(old(Mem()), url)
    {
      hide AdvanceDurable, ReleaseTxs;
      RemoveTxLocations(url, syncs[EntryOf(syncs, url)].items);
      RemoveSync(url);
      AdvanceDurableTxs();
    }

    /** Commit the rewritten files, and then release the queue and advance the durable numbers. */
    method CommitFiles(url: string, files: seq<seq<Row>>, commit: Option<CommitInfo>, ghost kept: seq<DataSyncItem>)
      requires Valid() && Enabled(Abstract(), Commit(url)) && url in tables
      requires kept == Kept(txs, tables[url].commit, PendingIn(syncs, url)) && ShapedItems(kept)
      requires commit == NewCommit(txs, tables[url].commit, PendingIn(syncs, url))
      requires multiset(Flatten(files))
        == ApplyBag(tables[url].cols, multiset(Flatten(tables[url].files)), AllChanges(kept))
      modifies this
      ensures Valid() && Abstract() == Next(old(Abstract()), Commit(url))
      ensures run == old(run) + [Abstract()] && steps == old(steps) + [Commit(url)]
    {
      hide IsRun, Inv, Kept, EntryOf, NewCommit, ApplyBag, Flatten, ShapedItems, AllChanges, StoredAll, CommitMem;
      ghost var s0 := Abstract();
      ghost var step := Commit(url);
      QueuedItems(s0, url);
      StoredHas(tables, url);
      StoredUpdate(tables, url, DeltaTable(tables[url].cols, files, commit));
      tables := tables[url := DeltaTable(tables[url].cols, files, commit)];
      UniqueIds(s0);
      ReleaseQueue(url);
      history := CommitHistory(history, url, kept);
      NextInv(s0, step);
      RunExtends(run, steps, step);
      run, steps := run + [Abstract()], steps + [step];
    }

    /** Flush the queue of a table that exists. */
    method FlushExisting(url: string, w: World) returns (ok: bool)
      requires Valid() && Faithful(w) && url in tables && EntryOf(syncs, url) < |syncs|
      modifies this
      ensures Valid() && old(run) <= run && FlushesOnly(old(steps), steps)
      ensures FlushesTable(run, steps, |old(steps)|, url, old(Mem()))
      ensures var kept := Kept(old(txs), old(tables)[url].commit, PendingIn(old(syncs), url));
        ok <==> kept == [] || (w.commits && (AnyKey(kept, OldPk) || AnyKey(kept, NewPk)))
      ensures ok ==> Abstract() == FlushedState(old(Abstract()), url)
      ensures !ok ==> Abstract() == old(Abstract())
    {
      hide IsRun, Inv, Kept, EntryOf, NewCommit, ApplyBag, Flatten, ShapedItems, AllChanges, SameKeys, AnyKey,
        Faithful, CommitMem, RemoveEntry, StoredAll, FlushedState, FlushesTable, FlushesOnly;
      ghost var s := Abstract();
      RunLength(run, steps);
      NoFlush(run, steps, url, s.m);
      var t, items := tables[url], syncs[EntryOf(syncs, url)].items;
      QueuedItems(s, url);
      StoredHas(tables, url);
      FlushedIs(s, url);
      FoundItems(s, url);
      var kept, commit := SkipSyncs(t.commit, items);
      if kept == [] {
        DropSkipped(url);
        OneFlush(old(run), old(steps), Abstract(), SkipAll(url));
        return true;
      }
      KeptSameKeys(s, url, t.commit);
      var rewritten, files := RewriteFiles(t, kept, w);
      if !rewritten || !w.commits {
        return false;
      }
      CommitFiles(url, files, commit, kept);
      OneFlush(old(run), old(steps), Abstract(), Commit(url));
      return true;
    }

    /** Flush the queue of one table. On failure nothing is lost: at most the table was created. */
    method FlushSyncs(url: string, w: World) returns (ok: bool)
      requires Valid() && Faithful(w)
      modifies this
      ensures Valid() && old(run) <= run && FlushesOnly(old(steps), steps)
      ensures FlushesTable(run, steps, |old(steps)|, url, old(Mem()))
      ensures ok <==> PendingIn(old(syncs), url) == [] || CanFlush(old(Abstract()), url, w)
      ensures ok && EntryOf(old(syncs), url) == |old(syncs)| ==> Abstract() == old(Abstract())
      ensures ok && EntryOf(old(syncs), url) < |old(syncs)| ==> Abstract() == FlushedState(old(Abstract()), url)
      ensures !ok ==> Abstract() == if w.creates then CreatedState(old(Abstract()), url) else old(Abstract())
    {
      hide IsRun, Inv, EntryOf, StoredAll, FlushedState, AnyKey, Kept, Faithful, FlushesTable, FlushesOnly;
      RunLength(run, steps);
      NoFlush(run, steps, url, Mem());
      var e := EntryOf(syncs, url);
      if e == |syncs| {
        return true;
      }
      ghost var s := Abstract();
      QueuedItems(s, url);
      StoredHas(tables, url);
      if url !in tables {
        if !w.creates {
          return false;
        }
        CreateTable(url, syncs[e].items[0].schema);
        FlushedCreated(s, url);
      }
      ghost var run0, steps0 := run, steps;
      ok := FlushExisting(url, w);
      FlushesAfter(old(run), old(steps), run0, steps0, run, steps, url, s.m);
    }

    /** Flush tables until every bound holds, or one flush fails. */
    method Flush(world: nat -> World) returns (r: FlushOutcome, at: nat)
      requires Valid()
      requires forall i :: Faithful(world(i)) && history.clock <= world(i).now
      modifies this
      ensures Valid() && old(run) <= run && FlushesOnly(old(steps), steps)
      ensures DueOnly(run, steps, |old(steps)|, world, config)
      ensures r == Flushed ==> Rested(syncs, size, world(at).now, config)
      ensures r == Panicked ==> syncs == [] && config.maxBytes == 0
      ensures r == Failed ==> IsBlocked(Abstract(), world(at), config)
    {
      hide IsRun, Inv, Faithful, FlushedState, QueueShape, EntryOf, CreatedState, StoredAll, IsDue, CanFlush,
        DueOnly, FlushesTable, IsBlocked;
      NothingDue(run, steps, world, config);
      at := 0;
      while true
        invariant Valid() && old(run) <= run && FlushesOnly(old(steps), steps)
        invariant DueOnly(run, steps, |old(steps)|, world, config)
        invariant history.clock == old(history.clock)
        decreases |syncs|
      {
        QueueShaped(Abstract());
        var ready := FlushReady(world(at).now);
        match ready {
          case Nothing => return Flushed, at;
          case UnwrapPanic => return Panicked, at;
          case Table(url) =>
            ghost var s := Abstract();
            ghost var run0, steps0 := run, steps;
            var ok := FlushSyncs(url, world(at));
            DueMore(run0, steps0, run, steps, |old(steps)|, world, config, url, at);
            if !ok {
              StaysBlocked(s, url, world(at), config);
              return Failed, at;
            }
            DueIsQueued(s, world(at).now, config, url);
            FlushShrinks(s, url);
        }
        at := at + 1;
      }
    }
  }

  lemma ReleaseOne(tx: Transaction, url: string, items: seq<DataSyncItem>, k: nat)
    requires k < |items|
    ensures ReleaseTx(tx, url, items[..k + 1])
         == if items[k].txId == tx.id then tx.(locations := tx.locations - {url}) else ReleaseTx(tx, url, items[..k])
  {
    var a, b := items[..k], items[..k + 1];
    if i :| 0 <= i < |a| && a[i].txId == tx.id {
      assert b[i].txId == tx.id;
    } else if items[k].txId == tx.id {
      assert b[k].txId == tx.id;
    }
  }

  lemma RunLength(run: seq<State>, steps: seq<Step>)
    requires IsRun(run, steps)
    ensures |run| == |steps| + 1
  {
  }

  lemma NothingDue(run: seq<State>, steps: seq<Step>, world: nat -> World, config: Config)
    requires IsRun(run, steps)
    ensures DueOnly(run, steps, |steps|, world, config)
  {
  }

  lemma DueIsQueued(s: State, now: nat, config: Config, url: string)
    requires IsDue(s.m.syncs, s.m.size, now, config, url)
    ensures EntryOf(s.m.syncs, url) < |s.m.syncs|
  {
    hide EntryOf;
  }

  /** A due table is flushed next. */
  lemma DueMore(run: seq<State>, steps: seq<Step>, run': seq<State>, steps': seq<Step>, n: nat, world: nat -> World,
                config: Config, url: string, at: nat)
    requires n <= |steps| && DueOnly(run, steps, n, world, config)
    requires run <= run' && steps <= steps' && FlushesTable(run', steps', |steps|, url, run[|run| - 1].m)
    requires var m := run[|run| - 1].m; IsDue(m.syncs, m.size, world(at).now, config, url)
    ensures DueOnly(run', steps', n, world, config)
  {
    hide IsDue;
  }

  /** Creating the table does not help a flush that fails for another reason. */
  lemma StaysBlocked(s: State, url: string, w: World, config: Config)
    requires PendingIn(s.m.syncs, url) != [] && !CanFlush(s, url, w)
    requires IsDue(s.m.syncs, s.m.size, w.now, config, url)
    ensures IsBlocked(if w.creates then CreatedState(s, url) else s, w, config)
  {
    hide Kept, AnyKey, Names, PendingIn, IsDue;
    var s' := if w.creates then CreatedState(s, url) else s;
    assert s'.m == s.m && !CanFlush(s', url, w);
  }

  lemma OneFlush(run: seq<State>, steps: seq<Step>, s: State, step: Step)
    requires |run| == |steps| + 1 && (step.Commit? || step.SkipAll?)
    ensures FlushesTable(run + [s], steps + [step], |steps|, step.url, run[|run| - 1].m)
    ensures run <= run + [s] && FlushesOnly(steps, steps + [step])
  {
  }

  lemma FlushesAfter(run: seq<State>, steps: seq<Step>, run1: seq<State>, steps1: seq<Step>, run': seq<State>,
                     steps': seq<Step>, url: string, m: Memory)
    requires steps1 == steps || (|steps1| == |steps| + 1 && steps <= steps1 && steps1[|steps|].Create?)
    requires FlushesTable(run', steps', |steps1|, url, m) && FlushesOnly(steps1, steps') && run <= run1 <= run'
    ensures FlushesTable(run', steps', |steps|, url, m) && FlushesOnly(steps, steps') && run <= run'
  {
  }

  lemma NoFlush(run: seq<State>, steps: seq<Step>, url: string, m: Memory)
    requires |run| == |steps| + 1
    ensures FlushesTable(run, steps, |steps|, url, m) && FlushesOnly(steps, steps)
  {
  }

  lemma NoSize(syncs: seq<Entry>)
    ensures SumSizes(syncs) > 0 ==> syncs != []
  {
  }

  method ApplySyncs(cols: set<string>, base: seq<Row>, items: seq<DataSyncItem>) returns (rows: seq<Row>)
    requires ShapedItems(items)
    ensures rows == ApplyAll(cols, base, AllChanges(items))
  {
    hide ApplySync, Changes;
    rows := base;
    ghost var all := AllChanges(items);
    for i := 0 to |items|
      invariant rows == ApplyAll(cols, base, all[..i])
    {
      rows := ApplySync(cols, rows, Changes(items[i]));
      assert all[..i + 1][..i] == all[..i];
    }
    assert all[..|items|] == all;
  }

  lemma RewriteBag(t: DeltaTable, items: seq<DataSyncItem>, keep: seq<bool>, rows: seq<Row>, added: seq<seq<Row>>)
    requires SameKeys(items) && ShapedItems(items) && |keep| == |t.files| && KeepsTouched(items, keep, t.files)
    requires rows == ApplyAll(t.cols, Flatten(Selected(t.files, keep, true)), AllChanges(items))
    requires multiset(Flatten(added)) == multiset(rows)
    ensures multiset(Flatten(Selected(t.files, keep, false) + added))
      == ApplyBag(t.cols, multiset(Flatten(t.files)), AllChanges(items))
  {
    hide *;
    PrunedRewrite(t.cols, items, t.files, keep);
    ApplyBagOf(t.cols, Flatten(t.files), AllChanges(items));
    FlattenConcat(Selected(t.files, keep, false), added);
  }

  lemma UniqueIds(s: State)
    requires Inv(s)
    ensures forall i, j :: 0 <= i < j < |s.m.txs| ==> s.m.txs[i].id != s.m.txs[j].id
  {
    hide MemInv, TableStore;
    InvRecords(s.m, s.h);
  }

  lemma QueuedItems(s: State, url: string)
    requires Inv(s) && EntryOf(s.m.syncs, url) < |s.m.syncs|
    ensures PendingIn(s.m.syncs, url) == s.m.syncs[EntryOf(s.m.syncs, url)].items != []
    ensures ShapedItems(PendingIn(s.m.syncs, url))
  {
    hide MemInv, TableStore;
    EntryNonEmpty(s.m, s.h, url);
    PendingShaped(s.m, s.h, url);
  }

  lemma FoundItems(s: State, url: string)
    requires Inv(s)
    ensures var items := PendingIn(s.m.syncs, url);
      forall i :: 0 <= i < |items| ==> TxWithId(s.m.txs, items[i].txId).Some?
  {
    hide MemInv, TableStore, TxWithId;
    var items := PendingIn(s.m.syncs, url);
    forall i | 0 <= i < |items| ensures TxWithId(s.m.txs, items[i].txId).Some? {
      PendingTxFound(s.m, s.h, url, i);
    }
  }

  lemma KeptSameKeys(s: State, url: string, commit: Option<CommitInfo>)
    requires Inv(s)
    ensures var kept := Kept(s.m.txs, commit, PendingIn(s.m.syncs, url)); SameKeys(kept) && ShapedItems(kept)
  {
    hide MemInv, TableStore, SkipCount, LogOk, PendingIn, LogOf, DoneOf, SameKeys, ShapedItems;
    var items, log, done := PendingIn(s.m.syncs, url), LogOf(s.h, url), DoneOf(s.h, url);
    LogIsOk(s.m, s.h, url);
    PendingLength(s.m, s.h, url);
    var n := SkipCount(s.m.txs, commit, items, 0);
    assert items[n..] == ItemsOf(log)[done + n..];
    SameKeysFrom(log, done + n);
  }

  lemma SameKeysFrom(log: seq<LogItem>, n: nat)
    requires LogOk(log) && n <= |log|
    ensures SameKeys(ItemsOf(log)[n..]) && ShapedItems(ItemsOf(log)[n..])
  {
    hide Names, Columns, Squash.SquashRows;
    var items := ItemsOf(log)[n..];
    forall i | 0 <= i < |items| ensures items[i] == log[n + i].item && IsSquashed(log[n + i]) {
    }
  }

  lemma LogIsOk(m: Memory, h: History, url: string)
    requires MemInv(m, h)
    ensures LogOk(LogOf(h, url))
  {
    hide LastSequences, LocationsExact, QueueShape, OnlyLastOpen, TxsMatch, LogOk, PendingHeld, QueueMatches,
      LogOrdered;
    assert TableInv(m.txs, m.syncs, |h.txs|, url, LogOf(h, url), DoneOf(h, url));
  }

  lemma QueueShaped(s: State)
    requires Inv(s)
    ensures QueueShape(s.m.syncs, s.m.size, s.h.clock)
  {
    hide TableStore, TableInv, LocationsExact, OnlyLastOpen, TxsMatch, LastSequences, QueueShape;
  }

  lemma FlushShrinks(s: State, url: string)
    requires Inv(s) && EntryOf(s.m.syncs, url) < |s.m.syncs|
    ensures |FlushedState(s, url).m.syncs| == |s.m.syncs| - 1 && FlushedState(s, url).h.clock == s.h.clock
  {
    hide Inv, Kept, NewCommit, ApplyBag, AllChanges, ShapedItems, EntryOf, ReleaseTxs, DurablePrefix,
      AddSequences, Names;
    QueuedItems(s, url);
  }

  lemma FlushedIs(s: State, url: string)
    requires Inv(s) && EntryOf(s.m.syncs, url) < |s.m.syncs| && url in s.tables
    ensures PendingIn(s.m.syncs, url) == s.m.syncs[EntryOf(s.m.syncs, url)].items
    ensures if Kept(s.m.txs, s.tables[url].commit, PendingIn(s.m.syncs, url)) == []
      then Enabled(s, SkipAll(url)) && FlushedState(s, url) == Next(s, SkipAll(url))
      else Enabled(s, Commit(url)) && FlushedState(s, url) == Next(s, Commit(url))
  {
    hide Inv, Kept, NewCommit, ApplyBag, AllChanges, ShapedItems, EntryOf, CommitMem, RemoveEntry;
    QueuedItems(s, url);
  }

  lemma FlushedCreated(s: State, url: string)
    requires Inv(s) && EntryOf(s.m.syncs, url) < |s.m.syncs|
    requires PendingIn(s.m.syncs, url) != [] && url !in s.tables && Inv(CreatedState(s, url))
    ensures FlushedState(s, url) == FlushedState(CreatedState(s, url), url)
  {
    hide Inv, Kept, NewCommit, ApplyBag, AllChanges, ShapedItems, EntryOf, CommitMem, RemoveEntry, Names;
    QueuedItems(s, url);
  }
}
