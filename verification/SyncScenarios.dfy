/** Runs that show what the conditions of the results over runs are needed for, and that they can be
    met. */
module SyncScenarios {
  import opened Basics
  import opened Tables
  import opened Schema
  import opened Prune
  import opened SyncState
  import opened SyncInvariant
  import opened SyncStore
  import opened SyncTheorems
  import opened SyncRecovery
  import opened SyncRestarts
  import opened SyncExact
  import Squash

  // ---------------------------------------------------------------------------------------------
  // States with one transaction and one table
  // ---------------------------------------------------------------------------------------------

  /** A message with rows that is queued without failing. */
  ghost predicate IsQueued(h: History, msg: Message) {
    MessageOk(h, msg) && msg.rows != [] && !SquashPanics(msg)
  }

  lemma QueuedOk(h: History, msg: Message)
    requires IsQueued(h, msg)
    ensures MessageOk(h, msg) && Shaped(msg.schema, msg.rows) && msg.rows != [] && !SquashPanics(msg)
  {
  }

  function ItemFor(msg: Message): DataSyncItem
    requires Shaped(msg.schema, msg.rows)
  {
    DataSyncItem(0, msg.schema, Squash.SquashRows(msg.schema, msg.rows))
  }

  function LogFor(msg: Message): LogItem
    requires Shaped(msg.schema, msg.rows)
  {
    LogItem(msg.rows, ItemFor(msg))
  }

  /** One transaction is in memory, and all its messages are queued for one table. */
  ghost predicate Holding(s: State, url: string, tx: Transaction, log: seq<LogItem>) {
    && s.m.txs == [tx] && tx.id == 0 && tx.locations == {url} && s.m.nextTx == 1
    && |s.m.syncs| == 1 && s.m.syncs[0].url == url && s.m.syncs[0].items == ItemsOf(log)
    && s.h.txs == [TxRecord(tx.origin, tx.sequence)] && LogOf(s.h, url) == log && DoneOf(s.h, url) == 0
    && log != [] && (forall j :: 0 <= j < |log| ==> log[j].item.txId == 0)
  }

  /** The first message after a start. */
  lemma Opens(s: State, msg: Message)
    requires Initial(s) && IsQueued(s.h, msg)
    ensures var s' := Next(s, Enqueue(msg));
      && Holding(s', msg.url, Transaction(0, msg.origin, msg.sequence, {msg.url}), [LogFor(msg)])
      && s'.tables == s.tables && s'.h.base == s.tables && s'.h.clock == msg.now && s'.h.told == s'.h.txs
      && s'.m.durable == map[] && (msg.sequence.None? ==> s'.m.memory == map[])
  {
    hide Squash.SquashRows, SquashPanics, Shaped, Schema.Valid, Names;
    assert ItemsOf([LogFor(msg)]) == [ItemFor(msg)];
  }

  /** A further message of the open transaction. */
  lemma Continues(s: State, msg: Message, tx: Transaction, log: seq<LogItem>)
    requires Holding(s, msg.url, tx, log) && tx.sequence.None? && tx.origin == msg.origin && IsQueued(s.h, msg)
    ensures var s' := Next(s, Enqueue(msg));
      && Holding(s', msg.url, tx.(sequence := msg.sequence), log + [LogFor(msg)])
      && s'.tables == s.tables && s'.h.base == s.h.base && s'.h.clock == msg.now && s'.m.durable == s.m.durable
  {
    hide Squash.SquashRows, SquashPanics, Shaped, Schema.Valid, Names;
    assert ItemsOf(log + [LogFor(msg)]) == ItemsOf(log) + [ItemFor(msg)];
    assert tx.locations + {msg.url} == tx.locations;
  }

  /** The last message of the open transaction fails after the transaction was completed. */
  lemma Breaks(s: State, msg: Message, tx: Transaction, log: seq<LogItem>)
    requires Holding(s, msg.url, tx, log) && tx.sequence.None? && tx.origin == msg.origin && MessageOk(s.h, msg)
    requires SquashPanics(msg)
    ensures var s' := Next(s, Enqueue(msg));
      && Holding(s', msg.url, tx.(sequence := msg.sequence), log)
      && s'.tables == s.tables && s'.m.durable == s.m.durable && s'.m.memory == s.m.memory
  {
    hide Squash.SquashRows, Shaped, Schema.Valid, Names, Columns;
    assert tx.locations + {msg.url} == tx.locations;
  }

  lemma OnePending(syncs: seq<Entry>)
    requires |syncs| == 1
    ensures EntryOf(syncs, syncs[0].url) == 0 && PendingIn(syncs, syncs[0].url) == syncs[0].items
  {
  }

  lemma OneRelease(tx: Transaction, url: string, items: seq<DataSyncItem>)
    requires tx.locations == {url} && items != [] && items[0].txId == tx.id
    ensures ReleaseTxs([tx], url, items) == [tx.(locations := {})]
  {
    assert tx.locations - {url} == {};
    assert ReleaseTx(tx, url, items) == tx.(locations := {});
  }

  lemma OneDurable(tx: Transaction)
    requires tx.sequence.Some? && tx.locations == {}
    ensures DurablePrefix([tx]) == 1 && AddSequences(map[], [tx]) == map[tx.origin := tx.sequence.value]
  {
    assert [tx][1..] == [] && [tx][..0] == [];
    var none: map<string, nat> := map[];
    assert none[tx.origin := tx.sequence.value] == map[tx.origin := tx.sequence.value];
  }

  /** The table's last commit does not name this transaction. */
  predicate IsNew(last: Option<CommitInfo>, origin: string, sequence: Option<nat>) {
    last.Some? ==> last.value.origin != origin || Some(last.value.sequence) != sequence
  }

  lemma OneCommit(tx: Transaction, last: Option<CommitInfo>, items: seq<DataSyncItem>)
    requires tx.sequence.Some? && IsNew(last, tx.origin, tx.sequence)
    requires items != [] && forall i :: 0 <= i < |items| ==> items[i].txId == tx.id
    ensures Kept([tx], last, items) == items
    ensures NewCommit([tx], last, items) == Some(CommitInfo(tx.origin, tx.sequence.value, false))
  {
    hide SkipCount;
    forall i | 0 <= i < |items| ensures TxWithId([tx], items[i].txId) == Some(tx) {
    }
    SkipsNone([tx], last, items, 0);
  }

  lemma CommitsMemory(m: Memory, url: string, tx: Transaction)
    requires m.txs == [tx] && tx.locations == {url} && tx.sequence.Some? && m.durable == map[]
    requires |m.syncs| == 1 && m.syncs[0].url == url && m.syncs[0].items != [] && m.syncs[0].items[0].txId == tx.id
    ensures EntryOf(m.syncs, url) == 0
    ensures var m' := CommitMem(m, url);
      m'.txs == [] && m'.syncs == [] && m'.durable == map[tx.origin := tx.sequence.value] && m'.memory == m.memory
  {
    hide ReleaseTxs, DurablePrefix, AddSequences, EntryOf;
    OnePending(m.syncs);
    var tx' := tx.(locations := {});
    OneRelease(tx, url, m.syncs[0].items);
    OneDurable(tx');
    assert [tx'][..1] == [tx'];
  }

  /** Committing the transaction to a table for the first time. */
  lemma Commits(s: State, url: string, tx: Transaction, log: seq<LogItem>)
    requires Holding(s, url, tx, log) && tx.sequence.Some? && s.m.durable == map[] && ShapedItems(ItemsOf(log))
    requires url in s.tables && IsNew(s.tables[url].commit, tx.origin, tx.sequence)
    ensures Enabled(s, Commit(url))
    ensures var s' := Next(s, Commit(url));
      && s'.m.syncs == [] && s'.m.durable == map[tx.origin := tx.sequence.value] && s'.m.memory == s.m.memory
      && url in s'.tables && s'.tables[url].cols == s.tables[url].cols
      && s'.tables[url].commit == Some(CommitInfo(tx.origin, tx.sequence.value, false))
      && s'.tables[url].bag == ApplyBag(s.tables[url].cols, s.tables[url].bag, AllChanges(ItemsOf(log)))
      && s'.h.txs == s.h.txs && s'.h.base == s.h.base && s'.h.clock == s.h.clock
      && LogOf(s'.h, url) == log && DoneOf(s'.h, url) == |log|
  {
    hide Kept, NewCommit, CommitMem, ApplyBag, EntryOf, ShapedItems, AllChanges, IsNew;
    var items := ItemsOf(log);
    assert items[0].txId == 0;
    CommitsMemory(s.m, url, tx);
    OneCommit(tx, s.tables[url].commit, items);
  }

  lemma Restarts(s: State)
    ensures Enabled(s, Restart)
    ensures var s' := Next(s, Restart);
      Initial(s') && s'.tables == s.tables && s'.h.clock == s.h.clock && s'.h.log == map[]
  {
  }

  lemma ItemShaped(msg: Message)
    requires Shaped(msg.schema, msg.rows)
    ensures ShapedItems([ItemFor(msg)])
  {
  }

  /** A message can be sent again after a restart. */
  lemma QueuedAgain(h: History, h': History, msg: Message)
    requires IsQueued(h, msg) && h'.clock <= msg.now && h'.log == map[]
    ensures IsQueued(h', msg)
  {
    hide SquashPanics, Shaped, Schema.Valid, Names;
  }

  /** The second message is well-formed after the first, for the same table. */
  ghost predicate QueuedAfter(a: Message, b: Message) {
    && Shaped(b.schema, b.rows) && Schema.Valid(b.schema) && b.rows != [] && !SquashPanics(b) && a.now <= b.now
    && Names(b.schema, OldPk) == Names(a.schema, OldPk)
  }

  lemma AfterOk(h: History, a: Message, b: Message)
    requires QueuedAfter(a, b) && h.clock == a.now && b.url == a.url && Shaped(a.schema, a.rows)
    requires LogOf(h, a.url) == [LogFor(a)]
    ensures IsQueued(h, b)
  {
    hide Schema.Valid, Names, Squash.SquashRows, SquashPanics;
  }

  lemma RunFrom(run: seq<State>, steps: seq<Step>)
    requires run != [] && |run| == |steps| + 1 && Initial(run[0])
    requires forall i :: 0 <= i < |steps| ==> Enabled(run[i], steps[i]) && run[i + 1] == Next(run[i], steps[i])
    ensures IsRun(run, steps)
  {
    hide Initial, Enabled, Next;
  }

  // ---------------------------------------------------------------------------------------------
  // Sent, committed, and sent again
  // ---------------------------------------------------------------------------------------------

  lemma ResentOne(item: DataSyncItem, rec: seq<TxRecord>, found: Option<CommitInfo>)
    requires item.txId == 0 && |rec| == 1 && IsNew(found, rec[0].origin, rec[0].sequence)
    ensures Resent([item], rec, [item], rec, 0) && EndsAlone([item], 1) && UniqueTxs(rec) && NoReplay(rec, found)
    ensures rec[0].sequence.Some? ==> CaughtUp([item], rec, 1)
  {
  }

  /** The steps of a transaction that is sent, committed, and sent again after a restart. */
  function Again(msg: Message): seq<Step> {
    [Enqueue(msg), Commit(msg.url), Restart, Enqueue(msg)]
  }

  /** A transaction of one message that was committed before a restart and is sent again is skipped
      whole. */
  lemma SentAgain(s: State, msg: Message) returns (run: seq<State>)
    requires Initial(s) && IsQueued(s.h, msg) && msg.sequence.Some?
    requires msg.url in s.tables && IsNew(s.tables[msg.url].commit, msg.origin, msg.sequence)
    ensures IsRun(run, Again(msg)) && run[0] == s
    ensures Restarted(run[2], run[4], msg.url, 0) && Enabled(run[4], SkipAll(msg.url))
    ensures msg.url in run[4].tables
    ensures run[4].tables[msg.url].commit == Some(CommitInfo(msg.origin, msg.sequence.value, false))
    ensures Shaped(msg.schema, msg.rows)
    ensures Holding(run[4], msg.url, Transaction(0, msg.origin, msg.sequence, {msg.url}), [LogFor(msg)])
    ensures run[4].h.clock == msg.now
  {
    hide Inv, IsQueued, Kept, NewCommit, CommitMem, EnqueueMem, EnqueueHistory, MessageOk, ApplyBag, Squash.SquashRows,
      EntryOf, PendingIn, Resent, NoReplay, UniqueTxs, ShapedItems, CommitHistory, IsRun, LogOf, DoneOf, Shaped,
      IsNew;
    QueuedOk(s.h, msg);
    var url, item, tx := msg.url, ItemFor(msg), Transaction(0, msg.origin, msg.sequence, {msg.url});
    var log := [LogFor(msg)];
    assert ItemsOf(log) == [item];
    ItemShaped(msg);
    var s1 := Next(s, Enqueue(msg));
    Opens(s, msg);
    Commits(s1, url, tx, log);
    var s2 := Next(s1, Commit(url));
    var s3 := Next(s2, Restart);
    QueuedAgain(s.h, s3.h, msg);
    QueuedOk(s3.h, msg);
    Opens(s3, msg);
    var s4 := Next(s3, Enqueue(msg));
    OnePending(s4.m.syncs);
    StartInv(s);
    NextInv(s, Enqueue(msg));
    NextInv(s1, Commit(url));
    StartInv(s3);
    NextInv(s3, Enqueue(msg));
    ResentOne(item, s2.h.txs, s.tables[url].commit);
    assert ItemsOf(LogOf(s2.h, url))[..1] == [item];
    RestartSkips(s2, s4, url, 0);
    assert [item][1..] == [];
    run := [s, s1, s2, s3, s4];
    RunFrom(run, Again(msg));
  }

  // ---------------------------------------------------------------------------------------------
  // A client that sends its stream again
  // ---------------------------------------------------------------------------------------------

  function OneMessage(msg: Message): Client
    requires Shaped(msg.schema, msg.rows)
  {
    Client([LogFor(msg)], [TxRecord(msg.origin, msg.sequence)])
  }

  lemma IsOneClient(h: History, msg: Message, found: Option<CommitInfo>)
    requires IsQueued(h, msg) && IsNew(found, msg.origin, msg.sequence)
    ensures Shaped(msg.schema, msg.rows) && IsClient(OneMessage(msg), found)
  {
    hide Squash.SquashRows, SquashPanics, Names, Schema.Valid;
  }

  /** The stream has been sent whole, or not yet. */
  lemma FollowsOne(s: State, msg: Message, pr: Progress)
    requires Shaped(msg.schema, msg.rows) && pr.start == 0
    requires (s.h.txs == OneMessage(msg).txs && LogOf(s.h, msg.url) == OneMessage(msg).stream)
          || (s.h.txs == [] && LogOf(s.h, msg.url) == [])
    ensures Follows(s, msg.url, OneMessage(msg), pr)
  {
    hide Shaped, Squash.SquashRows, LogOf;
  }

  /** The steps of `Again`, and the flush that skips what was sent again. */
  function AgainSkipped(msg: Message): seq<Step> {
    Again(msg) + [SkipAll(msg.url)]
  }

  lemma ProgressAgain(run: seq<State>, msg: Message)
    requires |run| == 6 && |LogOf(run[1].h, msg.url)| == |LogOf(run[4].h, msg.url)| == 1
    ensures var steps, starts: seq<nat> := AgainSkipped(msg), [0, 0, 0, 0, 0];
      && ProgressAt(run, steps, starts, msg.url, 0) == Progress(0, 0, 0)
      && ProgressAt(run, steps, starts, msg.url, 1) == Progress(0, 0, 0)
      && ProgressAt(run, steps, starts, msg.url, 2) == Progress(0, 0, 1)
      && ProgressAt(run, steps, starts, msg.url, 3) == Progress(0, 1, 1)
      && ProgressAt(run, steps, starts, msg.url, 4) == Progress(0, 1, 1)
      && ProgressAt(run, steps, starts, msg.url, 5) == Progress(0, 1, 1)
  {
    hide LogOf;
    var steps, starts: seq<nat> := AgainSkipped(msg), [0, 0, 0, 0, 0];
    assert ProgressAt(run, steps, starts, msg.url, 1) == Progress(0, 0, 0);
    assert ProgressAt(run, steps, starts, msg.url, 2) == Progress(0, 0, 1);
    assert ProgressAt(run, steps, starts, msg.url, 3) == Progress(0, 1, 1);
    assert ProgressAt(run, steps, starts, msg.url, 4) == Progress(0, 1, 1);
  }

  /** The run in which a transaction is sent, committed, sent again after a restart and then skipped meets
      what `ExactlyWhen` asks, with a flush after the restart, so its rows are applied exactly once. */
  lemma AgainBehaves(s: State, msg: Message) returns (run: seq<State>)
    requires Initial(s) && IsQueued(s.h, msg) && msg.sequence.Some?
    requires msg.url in s.tables && IsNew(s.tables[msg.url].commit, msg.origin, msg.sequence)
    ensures Shaped(msg.schema, msg.rows) && |run| == 6 && run[0] == s
    ensures Behaves(run, AgainSkipped(msg), [0, 0, 0, 0, 0], msg.url, OneMessage(msg))
    ensures IsClient(OneMessage(msg), s.tables[msg.url].commit)
    ensures StartsAs(run, AgainSkipped(msg), msg.url, s.tables[msg.url])
    ensures ProgressAt(run, AgainSkipped(msg), [0, 0, 0, 0, 0], msg.url, 4) == Progress(0, 1, 1)
    ensures CatchesUp(run, AgainSkipped(msg), [0, 0, 0, 0, 0], msg.url, 5)
    ensures IsRun(run, AgainSkipped(msg))
    ensures ExactTill(run, AgainSkipped(msg), [0, 0, 0, 0, 0], msg.url, OneMessage(msg), 5)
  {
    hide Inv, IsQueued, IsRun, Holding, Enabled, Next, Shaped, LogOf, DoneOf, IsNew, IsClient, Follows, ProgressAt,
      Squash.SquashRows, SquashPanics, MessageOk, ShapedItems, ExactTill;
    QueuedOk(s.h, msg);
    IsOneClient(s.h, msg, s.tables[msg.url].commit);
    var c := OneMessage(msg);
    run := AgainStates(s, msg);
    ProgressAgain(run, msg);
    FollowsOne(run[0], msg, Progress(0, 0, 0));
    FollowsOne(run[1], msg, Progress(0, 0, 0));
    FollowsOne(run[2], msg, Progress(0, 0, 1));
    FollowsOne(run[3], msg, Progress(0, 1, 1));
    FollowsOne(run[4], msg, Progress(0, 1, 1));
    FollowsOne(run[5], msg, Progress(0, 1, 1));
    assert EndedWell(run[2], msg.url, c, Progress(0, 0, 1));
    assert HasCaughtUp(run[4], msg.url, Progress(0, 1, 1));
    ExactlyWhen(run, AgainSkipped(msg), [0, 0, 0, 0, 0], msg.url, c, s.tables[msg.url], 5);
  }

  lemma AgainStates(s: State, msg: Message) returns (run: seq<State>)
    requires Initial(s) && IsQueued(s.h, msg) && msg.sequence.Some?
    requires msg.url in s.tables && IsNew(s.tables[msg.url].commit, msg.origin, msg.sequence)
    ensures IsRun(run, AgainSkipped(msg)) && |run| == 6 && run[0] == s && Shaped(msg.schema, msg.rows)
    ensures run[0].h.txs == [] && LogOf(run[0].h, msg.url) == []
    ensures run[1].h.txs == OneMessage(msg).txs && LogOf(run[1].h, msg.url) == OneMessage(msg).stream
    ensures run[2].h.txs == OneMessage(msg).txs && LogOf(run[2].h, msg.url) == OneMessage(msg).stream
    ensures run[3].h.txs == [] && LogOf(run[3].h, msg.url) == []
    ensures run[4].h.txs == OneMessage(msg).txs && LogOf(run[4].h, msg.url) == OneMessage(msg).stream
    ensures run[5].h.txs == OneMessage(msg).txs && LogOf(run[5].h, msg.url) == OneMessage(msg).stream
    ensures msg.url in run[2].tables
    ensures run[2].tables[msg.url].commit == Some(CommitInfo(msg.origin, msg.sequence.value, false))
  {
    hide IsQueued, IsRun, Shaped, IsNew, Holding, Restarted, Enabled, Next, LogOf;
    QueuedOk(s.h, msg);
    run := SentAgain(s, msg);
    RunLength(run, Again(msg));
    AgainParts(s, msg, run);
    var tx := Transaction(0, msg.origin, msg.sequence, {msg.url});
    Skips(run[4], msg.url, tx, [LogFor(msg)]);
    SkipTxs(run[4], msg.url);
    RunExtends(run, Again(msg), SkipAll(msg.url));
    run := run + [Next(run[4], SkipAll(msg.url))];
  }

  lemma SkipTxs(s: State, url: string)
    requires Enabled(s, SkipAll(url))
    ensures Next(s, SkipAll(url)).h.txs == s.h.txs
  {
    hide Kept, RemoveEntry, EntryOf;
  }

  /** The states of the run that `SentAgain` builds. */
  lemma AgainParts(s: State, msg: Message, run: seq<State>)
    requires Initial(s) && IsQueued(s.h, msg) && msg.sequence.Some? && Shaped(msg.schema, msg.rows)
    requires msg.url in s.tables && IsNew(s.tables[msg.url].commit, msg.origin, msg.sequence)
    requires IsRun(run, Again(msg)) && |run| == 5 && run[0] == s
    requires Holding(run[4], msg.url, Transaction(0, msg.origin, msg.sequence, {msg.url}), [LogFor(msg)])
    ensures run[0].h.txs == [] && LogOf(run[0].h, msg.url) == []
    ensures run[1].h.txs == OneMessage(msg).txs && LogOf(run[1].h, msg.url) == OneMessage(msg).stream
    ensures run[2].h.txs == OneMessage(msg).txs && LogOf(run[2].h, msg.url) == OneMessage(msg).stream
    ensures run[3].h.txs == [] && LogOf(run[3].h, msg.url) == []
    ensures run[4].h.txs == OneMessage(msg).txs && LogOf(run[4].h, msg.url) == OneMessage(msg).stream
    ensures msg.url in run[2].tables
    ensures run[2].tables[msg.url].commit == Some(CommitInfo(msg.origin, msg.sequence.value, false))
  {
    hide IsQueued, Kept, NewCommit, CommitMem, EnqueueMem, EnqueueHistory, MessageOk, ApplyBag, Squash.SquashRows,
      EntryOf, ShapedItems, CommitHistory, Shaped, IsNew;
    var log := [LogFor(msg)];
    assert run[0 + 1] == Next(run[0], Again(msg)[0]) && run[1 + 1] == Next(run[1], Again(msg)[1]);
    assert run[2 + 1] == Next(run[2], Again(msg)[2]);
    assert ItemsOf(log) == [ItemFor(msg)];
    ItemShaped(msg);
    Opens(s, msg);
    Commits(run[1], msg.url, Transaction(0, msg.origin, msg.sequence, {msg.url}), log);
  }

  // ---------------------------------------------------------------------------------------------
  // A skipped queue keeps its transaction waiting
  // ---------------------------------------------------------------------------------------------

  lemma SkipsMemory(m: Memory)
    requires |m.syncs| == 1
    ensures EntryOf(m.syncs, m.syncs[0].url) == 0
    ensures var m' := RemoveEntry(m, 0); m' == m.(syncs := [], size := m'.size)
  {
    assert m.syncs[..0] + m.syncs[1..] == [];
  }

  /** A message of a second transaction, for the only table. */
  lemma OpensSecond(s: State, msg: Message, tx: Transaction)
    requires s.m.txs == [tx] && tx.sequence.Some? && s.m.syncs == [] && s.m.nextTx == 1 && IsQueued(s.h, msg)
    ensures var s' := Next(s, Enqueue(msg));
      && s'.tables == s.tables && |s'.m.syncs| == 1 && s'.m.syncs[0].url == msg.url
      && s'.m.syncs[0].items == [ItemFor(msg).(txId := 1)]
      && s'.m.txs == [tx, Transaction(1, msg.origin, msg.sequence, {msg.url})]
  {
    hide Squash.SquashRows, SquashPanics, Shaped, Schema.Valid, Names;
  }

  lemma SecondKept(tx: Transaction, tx': Transaction, info: CommitInfo, item: DataSyncItem)
    requires tx.id == 0 && tx'.id == 1 && item.txId == 1
    requires tx'.origin != info.origin || tx'.sequence != Some(info.sequence)
    ensures Kept([tx, tx'], Some(info), [item]) == [item]
  {
    assert [tx, tx'][1..] == [tx'];
    assert TxWithId([tx, tx'], 1) == Some(tx');
    SkipsNone([tx, tx'], Some(info), [item], 0);
  }

  /** The state after the queue was skipped. */
  lemma Skips(s: State, url: string, tx: Transaction, log: seq<LogItem>)
    requires Holding(s, url, tx, log) && Enabled(s, SkipAll(url))
    ensures var s' := Next(s, SkipAll(url));
      && s'.m.txs == [tx] && s'.m.syncs == [] && s'.m.nextTx == 1 && s'.tables == s.tables
      && LogOf(s'.h, url) == log && s'.h.clock == s.h.clock && s'.h.skipped
  {
    hide Kept, RemoveEntry, EntryOf;
    SkipsMemory(s.m);
  }

  lemma CommitEmpties(m: Memory, url: string)
    requires |m.syncs| == 1 && m.syncs[0].url == url
    ensures EntryOf(m.syncs, url) == 0 && CommitMem(m, url).syncs == []
  {
    hide ReleaseTxs, DurablePrefix, AddSequences, EntryOf;
    OnePending(m.syncs);
  }

  /** A second transaction is committed after the queue of the first one was skipped. */
  lemma CommitsSecond(s: State, msg: Message, next: Message, tx: Transaction) returns (s5: State, s6: State, s7: State)
    requires Shaped(msg.schema, msg.rows) && Holding(s, msg.url, tx, [LogFor(msg)]) && Enabled(s, SkipAll(msg.url))
    requires tx.sequence.Some? && s.h.clock == msg.now && next.url == msg.url && next.sequence != tx.sequence
    requires QueuedAfter(msg, next)
    requires s.tables[msg.url].commit == Some(CommitInfo(tx.origin, tx.sequence.value, false))
    ensures s5 == Next(s, SkipAll(msg.url))
    ensures Enabled(s5, Enqueue(next)) && s6 == Next(s5, Enqueue(next))
    ensures Enabled(s6, Commit(msg.url)) && s7 == Next(s6, Commit(msg.url)) && s7.m.syncs == [] && s7.h.skipped
  {
    hide IsQueued, Kept, NewCommit, CommitMem, EnqueueMem, EnqueueHistory, MessageOk, ApplyBag, Squash.SquashRows,
      EntryOf, ShapedItems, LogOf, DoneOf, Shaped, QueuedAfter, RemoveEntry;
    var url := msg.url;
    s5 := Next(s, SkipAll(url));
    Skips(s, url, tx, [LogFor(msg)]);
    AfterOk(s5.h, msg, next);
    QueuedOk(s5.h, next);
    s6 := Next(s5, Enqueue(next));
    OpensSecond(s5, next, tx);
    EnqueueSkipped(s5, next);
    SecondKept(tx, s6.m.txs[1], s6.tables[url].commit.value, s6.m.syncs[0].items[0]);
    CommitEmpties(s6.m, url);
    SecondShaped(next);
    s7 := Next(s6, Commit(url));
  }

  /** After a queue was skipped whole, a commit that leaves nothing queued leaves a complete transaction
      in memory. */
  lemma StuckForever(s: State, msg: Message, next: Message) returns (run: seq<State>)
    requires Initial(s) && IsQueued(s.h, msg) && msg.sequence.Some?
    requires msg.url in s.tables && IsNew(s.tables[msg.url].commit, msg.origin, msg.sequence)
    requires next.url == msg.url && next.sequence != msg.sequence && QueuedAfter(msg, next)
    ensures IsRun(run, Again(msg) + [SkipAll(msg.url), Enqueue(next), Commit(msg.url)]) && run[0] == s
    ensures run[7].m.syncs == [] && !AtMostOpen(run[7].m)
  {
    hide Inv, MemInv, IsQueued, IsRun, QueuedAfter, Restarted, AtMostOpen, Holding, Enabled, Next, Shaped;
    var url := msg.url;
    run := SentAgain(s, msg);
    RunLength(run, Again(msg));
    var s5, s6, s7 := CommitsSecond(run[4], msg, next, Transaction(0, msg.origin, msg.sequence, {msg.url}));
    var steps5, steps6 := Again(msg) + [SkipAll(url)], Again(msg) + [SkipAll(url)] + [Enqueue(next)];
    RunExtends(run, Again(msg), SkipAll(url));
    RunExtends(run + [s5], steps5, Enqueue(next));
    RunExtends(run + [s5] + [s6], steps6, Commit(url));
    assert steps6 + [Commit(url)] == Again(msg) + [SkipAll(url), Enqueue(next), Commit(url)];
    run := run + [s5] + [s6] + [s7];
    RunInv(run, steps6 + [Commit(url)], 7);
    InvMem(s7);
    SkippedStuck(s7.m, s7.h);
  }

  lemma RunLength(run: seq<State>, steps: seq<Step>)
    requires IsRun(run, steps)
    ensures |run| == |steps| + 1
  {
  }

  lemma EnqueueSkipped(s: State, msg: Message)
    requires MessageOk(s.h, msg)
    ensures Next(s, Enqueue(msg)).h.skipped == s.h.skipped
  {
    hide EnqueueHistory, EnqueueMem, Shaped, Schema.Valid, Names;
    EnqueueFlags(s.m, s.h, msg);
  }

  lemma SecondShaped(msg: Message)
    requires Shaped(msg.schema, msg.rows)
    ensures ShapedItems([ItemFor(msg).(txId := 1)])
  {
  }

  // ---------------------------------------------------------------------------------------------
  // A durable transaction that was never reported
  // ---------------------------------------------------------------------------------------------

  /** The last message of a transaction fails after the transaction was completed: the transaction can
      become durable without its number ever having been the memory number of its origin. */
  lemma NeverReported(s: State, a: Message, b: Message) returns (run: seq<State>)
    requires Initial(s) && IsQueued(s.h, a) && a.sequence.None?
    requires a.url in s.tables && IsNew(s.tables[a.url].commit, a.origin, b.sequence)
    requires b.url == a.url && b.origin == a.origin && b.sequence.Some? && SquashFails(a, b)
    ensures IsRun(run, [Enqueue(a), Enqueue(b), Commit(a.url)]) && run[0] == s
    ensures Increasing(run[3].h.txs) && a.origin in run[3].m.durable && a.origin !in run[3].m.memory
    ensures !Behind(run[3].m.durable, run[3].m.memory)
  {
    hide Inv, IsQueued, Kept, NewCommit, CommitMem, EnqueueMem, EnqueueHistory, MessageOk, ApplyBag, Squash.SquashRows,
      EntryOf, ShapedItems, CommitHistory, IsRun, LogOf, DoneOf, Shaped, SquashPanics, SquashFails;
    QueuedOk(s.h, a);
    var url, tx, log := a.url, Transaction(0, a.origin, a.sequence, {a.url}), [LogFor(a)];
    var s1 := Next(s, Enqueue(a));
    Opens(s, a);
    FailsAfter(s1.h, a, b);
    var s2 := Next(s1, Enqueue(b));
    Breaks(s1, b, tx, log);
    assert ItemsOf(log) == [ItemFor(a)];
    ItemShaped(a);
    Commits(s2, url, tx.(sequence := b.sequence), log);
    run := [s, s1, s2, Next(s2, Commit(url))];
    RunFrom(run, [Enqueue(a), Enqueue(b), Commit(a.url)]);
  }

  /** The second message is well-formed after the first, and its squashing fails. */
  ghost predicate SquashFails(a: Message, b: Message) {
    && Shaped(b.schema, b.rows) && Schema.Valid(b.schema) && SquashPanics(b) && a.now <= b.now
    && Names(b.schema, OldPk) == Names(a.schema, OldPk)
  }

  lemma FailsAfter(h: History, a: Message, b: Message)
    requires SquashFails(a, b) && h.clock == a.now && b.url == a.url && Shaped(a.schema, a.rows)
    requires LogOf(h, a.url) == [LogFor(a)]
    ensures MessageOk(h, b) && SquashPanics(b)
  {
    hide Schema.Valid, Names, Squash.SquashRows, Columns;
  }

  /** The first message after a start completes its transaction and fails. */
  lemma BreaksFirst(s: State, msg: Message)
    requires Initial(s) && MessageOk(s.h, msg) && SquashPanics(msg) && msg.sequence.Some?
    ensures var s' := Next(s, Enqueue(msg));
      && s'.m.txs == [Transaction(0, msg.origin, msg.sequence, {msg.url})] && s'.m.syncs == [] && s'.m.nextTx == 1
      && s'.tables == s.tables && s'.h.log == map[] && s'.h.done == map[] && s'.h.clock == msg.now
  {
    hide Squash.SquashRows, Shaped, Schema.Valid, Names, Columns;
  }

  lemma OpensLog(s: State, msg: Message, tx: Transaction)
    requires s.m.txs == [tx] && tx.sequence.Some? && s.m.nextTx == 1 && IsQueued(s.h, msg)
    requires LogOf(s.h, msg.url) == [] && DoneOf(s.h, msg.url) == 0
    ensures var h := Next(s, Enqueue(msg)).h;
      LogOf(h, msg.url) == [LogItem(msg.rows, ItemFor(msg).(txId := 1))] && DoneOf(h, msg.url) == 0
  {
    hide Squash.SquashRows, SquashPanics, Shaped, Schema.Valid, Names;
  }

  /** The only message of a transaction fails: the transaction waits for its table for ever, and a commit
      that leaves nothing queued leaves it, and every transaction after it, in memory. */
  lemma FailedBlocks(s: State, a: Message, b: Message) returns (run: seq<State>)
    requires Initial(s) && MessageOk(s.h, a) && SquashPanics(a) && a.sequence.Some?
    requires b.url == a.url && b.sequence.Some? && QueuedAfter(a, b)
    requires a.url in s.tables && IsNew(s.tables[a.url].commit, b.origin, b.sequence)
    ensures IsRun(run, [Enqueue(a), Enqueue(b), Commit(a.url)]) && run[0] == s
    ensures run[3].m.syncs == [] && !AtMostOpen(run[3].m)
  {
    hide Inv, MemInv, IsQueued, Kept, NewCommit, CommitMem, EnqueueMem, EnqueueHistory, ApplyBag, Squash.SquashRows,
      EntryOf, ShapedItems, IsRun, Shaped, SquashPanics, QueuedAfter, IsNew, AtMostOpen, LogOf, DoneOf, LastSequences;
    var url, tx := a.url, Transaction(0, a.origin, a.sequence, {a.url});
    var s1 := Next(s, Enqueue(a));
    BreaksFirst(s, a);
    QueuedFirst(s1.h, a, b);
    QueuedOk(s1.h, b);
    var s2 := Next(s1, Enqueue(b));
    OpensSecond(s1, b, tx);
    OpensLog(s1, b, tx);
    OnePending(s2.m.syncs);
    SecondShaped(b);
    SecondNew(tx, s2.m.txs[1], s.tables[url].commit, ItemFor(b).(txId := 1));
    var s3 := Next(s2, Commit(url));
    CommitEmpties(s2.m, url);
    run := [s, s1, s2, s3];
    RunFrom(run, [Enqueue(a), Enqueue(b), Commit(url)]);
    RunInv(run, [Enqueue(a), Enqueue(b), Commit(url)], 2);
    assert StuckAt(s2.m.txs[0], url, s2.h);
    DrainedIsDurable(s2, url);
  }

  lemma QueuedFirst(h: History, a: Message, b: Message)
    requires QueuedAfter(a, b) && h.clock == a.now && b.url == a.url && h.log == map[] && h.done == map[]
    ensures IsQueued(h, b) && LogOf(h, b.url) == [] && DoneOf(h, b.url) == 0
  {
    hide Schema.Valid, Names, Squash.SquashRows, SquashPanics;
  }

  lemma SecondNew(tx: Transaction, tx': Transaction, last: Option<CommitInfo>, item: DataSyncItem)
    requires tx.id == 0 && tx'.id == 1 && item.txId == 1 && IsNew(last, tx'.origin, tx'.sequence)
    ensures Kept([tx, tx'], last, [item]) == [item]
  {
    hide TxWithId, SkipCount;
    TwoFound(tx, tx');
    SkipsNone([tx, tx'], last, [item], 0);
  }

  // ---------------------------------------------------------------------------------------------
  // A row that is inserted twice
  // ---------------------------------------------------------------------------------------------

  /** Of a committed transaction with two items for one table, the second one is not skipped. */
  lemma PartlySkipped(tx: Transaction, info: CommitInfo, x: DataSyncItem, y: DataSyncItem)
    requires tx.origin == info.origin && tx.sequence == Some(info.sequence) && x.txId == tx.id && y.txId == tx.id
    ensures Kept([tx], Some(info), [x, y]) == [y]
  {
    assert FromCommitted([tx], info, [x, y][0]);
    SkipStops([tx], info, [x, y], 0);
  }

  lemma SingleFold(s: SyncSchema, row: seq<Cell>)
    requires |row| == |s|
    ensures Shaped(s, [row])
    ensures var st := Squash.FoldRows(s, [row], 1); st.chains == [Squash.NewChain(s, 0)] && st.temp == {}
  {
    hide PosKey, Columns;
    Squash.FoldRowsNone(s, [row]);
    Squash.FoldRowsNext(s, [row], 0);
  }

  lemma SingleRow(s: SyncSchema, row: seq<Cell>)
    requires |row| == |s|
    ensures Shaped(s, [row]) && Squash.SquashRows(s, [row]) == [row]
  {
    hide Columns, Squash.FoldRows;
    var ch := Squash.NewChain(s, 0);
    SingleFold(s, row);
    assert Squash.ChainInRange(s, 1, ch);
    assert Squash.OutRow(s, [row], ch) == row;
    assert [ch][..0] == [];
    assert Squash.OutRows(s, [row], [ch], {}) == [row];
  }

  /** A message with one row, which inserts a key. */
  ghost predicate IsInsert(msg: Message, c: Change) {
    && |msg.rows| == 1 && |msg.rows[0]| == |msg.schema|
    && c == Decode(msg.schema, msg.rows[0]) && c.oldPk.NoPk?
  }

  lemma InsertChanges(msg: Message, c: Change)
    requires IsInsert(msg, c)
    ensures Shaped(msg.schema, msg.rows) && ShapedItems([ItemFor(msg)]) && AllChanges([ItemFor(msg)]) == [[c]]
  {
    hide Decode;
    assert msg.rows == [msg.rows[0]];
    SingleRow(msg.schema, msg.rows[0]);
    assert Changes(ItemFor(msg)) == [c];
  }

  /** An insert adds its row to the bag. */
  lemma InsertCounts(cols: set<string>, bag: multiset<Row>, c: Change)
    requires c.oldPk.NoPk?
    ensures ApplyBag(cols, bag, [[c]]) == bag + multiset{Unjoined(cols, c)}
  {
    hide ApplySync, Unjoined;
    var rows := Listed(bag);
    InsertAppends(cols, rows, c);
    assert [[c]][..0] == [];
    assert ApplyAll(cols, rows, [[c]]) == rows + [Unjoined(cols, c)];
    assert multiset(rows + [Unjoined(cols, c)]) == multiset(rows) + multiset{Unjoined(cols, c)};
  }

  /** Two messages of one transaction, the second of which completes it. */
  lemma TwoMessages(s: State, a: Message, b: Message) returns (s1: State, s2: State)
    requires Initial(s) && IsQueued(s.h, a) && a.sequence.None?
    requires b.url == a.url && b.origin == a.origin && QueuedAfter(a, b)
    ensures Shaped(a.schema, a.rows) && Shaped(b.schema, b.rows)
    ensures Enabled(s, Enqueue(a)) && s1 == Next(s, Enqueue(a))
    ensures Enabled(s1, Enqueue(b)) && s2 == Next(s1, Enqueue(b))
    ensures Holding(s2, a.url, Transaction(0, a.origin, b.sequence, {a.url}), [LogFor(a), LogFor(b)])
    ensures s2.tables == s.tables && s2.m.durable == map[] && s2.h.clock == b.now
  {
    hide IsQueued, EnqueueMem, EnqueueHistory, MessageOk, Squash.SquashRows, Shaped, QueuedAfter, LogOf, DoneOf;
    QueuedOk(s.h, a);
    s1 := Next(s, Enqueue(a));
    Opens(s, a);
    AfterOk(s1.h, a, b);
    QueuedOk(s1.h, b);
    s2 := Next(s1, Enqueue(b));
    Continues(s1, b, Transaction(0, a.origin, a.sequence, {a.url}), [LogFor(a)]);
    assert [LogFor(a)] + [LogFor(b)] == [LogFor(a), LogFor(b)];
  }

  /** The same two messages again: only the second one is applied. */
  lemma RecommitsSecond(s: State, url: string, tx: Transaction, a: LogItem, b: LogItem)
    requires Holding(s, url, tx, [a, b]) && tx.sequence.Some? && url in s.tables && ShapedItems([a.item])
    requires ShapedItems([b.item])
    requires s.tables[url].commit == Some(CommitInfo(tx.origin, tx.sequence.value, false))
    ensures Enabled(s, Commit(url))
    ensures var s' := Next(s, Commit(url));
      url in s'.tables && s'.tables[url].bag == ApplyBag(s.tables[url].cols, s.tables[url].bag, AllChanges([b.item]))
  {
    hide Kept, NewCommit, CommitMem, ApplyBag, EntryOf, AllChanges, Shaped;
    OnePending(s.m.syncs);
    assert ItemsOf([a, b]) == [a.item, b.item];
    assert [a.item, b.item] == [a.item] + [b.item];
    assert a == [a, b][0] && b == [a, b][1];
    PartlySkipped(tx, s.tables[url].commit.value, a.item, b.item);
    ChangesConcat([a.item], [b.item]);
  }

  lemma InsertIsIn(cols: set<string>, bag: multiset<Row>, a: DataSyncItem, b: DataSyncItem, c: Change)
    requires ShapedItems([a]) && ShapedItems([b]) && AllChanges([b]) == [[c]] && c.oldPk.NoPk?
    ensures ShapedItems([a, b]) && ApplyBag(cols, bag, AllChanges([a, b]))[Unjoined(cols, c)] >= 1
  {
    hide ApplyBag, AllChanges, ShapedItems, Unjoined;
    ChangesConcat([a], [b]);
    assert [a] + [b] == [a, b];
    ApplyBagConcat(cols, bag, AllChanges([a]), [[c]]);
    InsertCounts(cols, ApplyBag(cols, bag, AllChanges([a])), c);
  }

  /** A transaction of two messages for one table is committed, and sent again after a restart: the row
      that its second message inserts is then in the table once more. */
  lemma InsertedTwice(s: State, a: Message, b: Message, c: Change) returns (run: seq<State>)
    requires Initial(s) && IsQueued(s.h, a) && a.sequence.None?
    requires a.url in s.tables && IsNew(s.tables[a.url].commit, a.origin, b.sequence)
    requires b.url == a.url && b.origin == a.origin && b.sequence.Some? && QueuedAfter(a, b) && IsInsert(b, c)
    requires a.now == b.now
    ensures IsRun(run, [Enqueue(a), Enqueue(b), Commit(a.url), Restart, Enqueue(a), Enqueue(b), Commit(a.url)])
    ensures run[0] == s
    ensures a.url in run[3].tables && a.url in run[7].tables
    ensures var row := Unjoined(s.tables[a.url].cols, c);
      && run[3].tables[a.url].bag[row] >= 1
      && run[7].tables[a.url].bag == run[3].tables[a.url].bag + multiset{row}
  {
    hide IsQueued, Kept, NewCommit, CommitMem, EnqueueMem, EnqueueHistory, MessageOk, ApplyBag, Squash.SquashRows,
      EntryOf, IsNew, IsRun, QueuedAfter, Holding, Enabled, ShapedItems, AllChanges, Shaped, Unjoined,
      ItemFor, LogOf, DoneOf, Next, Initial, Decode;
    var url, tx := a.url, Transaction(0, a.origin, b.sequence, {a.url});
    var s1, s2 := TwoMessages(s, a, b);
    InsertChanges(b, c);
    ItemShaped(a);
    InsertIsIn(s.tables[url].cols, s.tables[url].bag, ItemFor(a), ItemFor(b), c);
    assert ItemsOf([LogFor(a), LogFor(b)]) == [ItemFor(a), ItemFor(b)];
    Commits(s2, url, tx, [LogFor(a), LogFor(b)]);
    var s3 := Next(s2, Commit(url));
    Restarts(s3);
    var s4 := Next(s3, Restart);
    QueuedAgain(s.h, s4.h, a);
    var s5, s6 := TwoMessages(s4, a, b);
    RecommitsSecond(s6, url, tx, LogFor(a), LogFor(b));
    InsertCounts(s.tables[url].cols, s3.tables[url].bag, c);
    run := [s, s1, s2, s3, s4, s5, s6, Next(s6, Commit(url))];
    RunFrom(run, [Enqueue(a), Enqueue(b), Commit(url), Restart, Enqueue(a), Enqueue(b), Commit(url)]);
  }

  // ---------------------------------------------------------------------------------------------
  // A flush before the client has caught up
  // ---------------------------------------------------------------------------------------------

  /** A second transaction, for the table that the first one waits for. */
  lemma OpensNext(s: State, msg: Message, tx: Transaction, log: seq<LogItem>)
    requires Holding(s, msg.url, tx, log) && tx.sequence.Some? && IsQueued(s.h, msg)
    ensures var s' := Next(s, Enqueue(msg));
      && s'.m.txs == [tx, Transaction(1, msg.origin, msg.sequence, {msg.url})] && |s'.m.syncs| == 1
      && s'.m.syncs[0].url == msg.url && s'.m.syncs[0].items == ItemsOf(log) + [ItemFor(msg).(txId := 1)]
      && s'.tables == s.tables && s'.h.clock == msg.now
  {
    hide Squash.SquashRows, SquashPanics, Shaped, Schema.Valid, Names;
    OnePending(s.m.syncs);
  }

  lemma TwoFound(tx: Transaction, tx': Transaction)
    requires tx.id == 0 && tx'.id == 1
    ensures TxWithId([tx, tx'], 0) == Some(tx) && TxWithId([tx, tx'], 1) == Some(tx')
  {
    assert [tx, tx'][1..] == [tx'];
  }

  /** The commit of two complete transactions names the second. */
  lemma TwoCommit(tx: Transaction, tx': Transaction, last: Option<CommitInfo>, x: DataSyncItem, y: DataSyncItem)
    requires tx.id == 0 && tx'.id == 1 && x.txId == 0 && y.txId == 1 && tx.sequence.Some? && tx'.sequence.Some?
    requires IsNew(last, tx.origin, tx.sequence) && IsNew(last, tx'.origin, tx'.sequence)
    ensures Kept([tx, tx'], last, [x, y]) == [x, y]
    ensures NewCommit([tx, tx'], last, [x, y]) == Some(CommitInfo(tx'.origin, tx'.sequence.value, false))
  {
    hide TxWithId, SkipCount;
    TwoFound(tx, tx');
    SkipsNone([tx, tx'], last, [x, y], 0);
  }

  lemma CommitsTwo(s: State, url: string, tx: Transaction, tx': Transaction, x: DataSyncItem, y: DataSyncItem)
    requires s.m.txs == [tx, tx'] && |s.m.syncs| == 1 && s.m.syncs[0].url == url && s.m.syncs[0].items == [x, y]
    requires tx.id == 0 && tx'.id == 1 && x.txId == 0 && y.txId == 1 && tx.sequence.Some? && tx'.sequence.Some?
    requires url in s.tables && ShapedItems([x, y])
    requires IsNew(s.tables[url].commit, tx.origin, tx.sequence)
    requires IsNew(s.tables[url].commit, tx'.origin, tx'.sequence)
    ensures Enabled(s, Commit(url))
    ensures var s' := Next(s, Commit(url));
      && url in s'.tables && s'.tables[url].cols == s.tables[url].cols && s'.h.clock == s.h.clock
      && s'.tables[url].commit == Some(CommitInfo(tx'.origin, tx'.sequence.value, false))
      && s'.tables[url].bag == ApplyBag(s.tables[url].cols, s.tables[url].bag, AllChanges([x, y]))
  {
    hide Kept, NewCommit, CommitMem, ApplyBag, EntryOf, AllChanges, ShapedItems, IsNew;
    OnePending(s.m.syncs);
    TwoCommit(tx, tx', s.tables[url].commit, x, y);
  }

  lemma FirstIsIn(cols: set<string>, bag: multiset<Row>, a: DataSyncItem, b: DataSyncItem, c: Change)
    requires ShapedItems([a]) && ShapedItems([b]) && AllChanges([a]) == [[c]] && c.oldPk.NoPk?
    ensures ShapedItems([a, b])
    ensures ApplyBag(cols, bag, AllChanges([a, b]))
         == ApplyBag(cols, bag + multiset{Unjoined(cols, c)}, AllChanges([b]))
  {
    hide ApplyBag, AllChanges, ShapedItems, Unjoined;
    ChangesConcat([a], [b]);
    assert [a] + [b] == [a, b];
    ApplyBagConcat(cols, bag, [[c]], AllChanges([b]));
    InsertCounts(cols, bag, c);
  }

  /** The changes of the message of a second transaction. */
  function SecondChanges(msg: Message): seq<seq<Change>>
    requires Shaped(msg.schema, msg.rows)
  {
    SecondShaped(msg);
    AllChanges([ItemFor(msg).(txId := 1)])
  }

  /** Two transactions of one message each are committed. After a restart the table is flushed when only
      the first has been sent again: the row that it inserts is then in the table once more. */
  lemma AppliedEarly(s: State, a: Message, b: Message, c: Change) returns (run: seq<State>)
    requires Initial(s) && IsQueued(s.h, a) && a.sequence.Some? && IsInsert(a, c) && a.url in s.tables
    requires b.url == a.url && b.sequence.Some? && QueuedAfter(a, b) && a.now == b.now
    requires a.origin != b.origin || a.sequence != b.sequence
    requires IsNew(s.tables[a.url].commit, a.origin, a.sequence) && IsNew(s.tables[a.url].commit, b.origin, b.sequence)
    ensures IsRun(run, [Enqueue(a), Enqueue(b), Commit(a.url), Restart, Enqueue(a), Commit(a.url)]) && run[0] == s
    ensures Shaped(b.schema, b.rows) && a.url in run[3].tables && a.url in run[6].tables
    ensures var cols, row := s.tables[a.url].cols, Unjoined(s.tables[a.url].cols, c);
      && run[3].tables[a.url].bag
         == ApplyBag(cols, s.tables[a.url].bag + multiset{row}, SecondChanges(b))
      && run[6].tables[a.url].bag == run[3].tables[a.url].bag + multiset{row}
  {
    hide IsQueued, Kept, NewCommit, CommitMem, EnqueueMem, EnqueueHistory, MessageOk, ApplyBag, Squash.SquashRows,
      EntryOf, IsNew, IsRun, QueuedAfter, Holding, Enabled, ShapedItems, AllChanges, Shaped, Unjoined,
      LogOf, DoneOf, Next, Initial, Decode;
    QueuedOk(s.h, a);
    var url, tx := a.url, Transaction(0, a.origin, a.sequence, {a.url});
    var s1, s2 := EnqueuesTwo(s, a, b);
    var ia, ib := ItemFor(a), ItemFor(b).(txId := 1);
    InsertChanges(a, c);
    SecondShaped(b);
    FirstIsIn(s.tables[url].cols, s.tables[url].bag, ia, ib, c);
    CommitsTwo(s2, url, tx, Transaction(1, b.origin, b.sequence, {url}), ia, ib);
    var s3 := Next(s2, Commit(url));
    Restarts(s3);
    var s4 := Next(s3, Restart);
    var s5, s6 := SendsFirst(s4, a, b, s.h);
    InsertCounts(s.tables[url].cols, s3.tables[url].bag, c);
    run := [s, s1, s2, s3, s4, s5, s6];
    RunFrom(run, [Enqueue(a), Enqueue(b), Commit(url), Restart, Enqueue(a), Commit(url)]);
  }

  lemma EnqueuesTwo(s: State, a: Message, b: Message) returns (s1: State, s2: State)
    requires Initial(s) && IsQueued(s.h, a) && a.sequence.Some? && b.url == a.url && QueuedAfter(a, b)
    ensures Shaped(a.schema, a.rows) && Shaped(b.schema, b.rows)
    ensures Enabled(s, Enqueue(a)) && s1 == Next(s, Enqueue(a))
    ensures Enabled(s1, Enqueue(b)) && s2 == Next(s1, Enqueue(b))
    ensures s2.m.txs == [Transaction(0, a.origin, a.sequence, {a.url}), Transaction(1, b.origin, b.sequence, {a.url})]
    ensures |s2.m.syncs| == 1 && s2.m.syncs[0].url == a.url
    ensures s2.m.syncs[0].items == [ItemFor(a), ItemFor(b).(txId := 1)]
    ensures s2.tables == s.tables && s2.h.clock == b.now
  {
    hide IsQueued, EnqueueMem, EnqueueHistory, MessageOk, Squash.SquashRows, Shaped, QueuedAfter, LogOf, DoneOf,
      Initial;
    QueuedOk(s.h, a);
    s1 := Next(s, Enqueue(a));
    Opens(s, a);
    AfterOk(s1.h, a, b);
    QueuedOk(s1.h, b);
    s2 := Next(s1, Enqueue(b));
    OpensNext(s1, b, Transaction(0, a.origin, a.sequence, {a.url}), [LogFor(a)]);
    assert ItemsOf([LogFor(a)]) == [ItemFor(a)];
  }

  /** Only the first message again, and a commit. */
  lemma SendsFirst(s: State, a: Message, b: Message, h: History) returns (s1: State, s2: State)
    requires Initial(s) && IsQueued(h, a) && a.sequence.Some? && b.sequence.Some? && s.h.clock <= a.now
    requires a.url in s.tables && s.tables[a.url].commit == Some(CommitInfo(b.origin, b.sequence.value, false))
    requires a.origin != b.origin || a.sequence != b.sequence
    ensures Shaped(a.schema, a.rows) && ShapedItems([ItemFor(a)])
    ensures Enabled(s, Enqueue(a)) && s1 == Next(s, Enqueue(a))
    ensures Enabled(s1, Commit(a.url)) && s2 == Next(s1, Commit(a.url)) && a.url in s2.tables
    ensures s2.tables[a.url].bag == ApplyBag(s.tables[a.url].cols, s.tables[a.url].bag, AllChanges([ItemFor(a)]))
  {
    hide IsQueued, Kept, NewCommit, CommitMem, EnqueueMem, EnqueueHistory, MessageOk, ApplyBag, Squash.SquashRows,
      EntryOf, ShapedItems, CommitHistory, Shaped, LogOf, DoneOf;
    QueuedAgain(h, s.h, a);
    QueuedOk(s.h, a);
    s1 := Next(s, Enqueue(a));
    Opens(s, a);
    ItemShaped(a);
    assert ItemsOf([LogFor(a)]) == [ItemFor(a)];
    Commits(s1, a.url, Transaction(0, a.origin, a.sequence, {a.url}), [LogFor(a)]);
    s2 := Next(s1, Commit(a.url));
  }
}
