/** Runs with any number of restarts: the client has one stream of messages for a table, and after every
    restart sends it again from some position at or before what the table holds. What a flush then skips. */
module SyncRestarts {
  import opened Basics
  import opened Schema
  import opened Prune
  import opened SyncState
  import opened SyncInvariant
  import opened SyncStore
  import opened SyncConvergence
  import opened SyncRecovery

  // ---------------------------------------------------------------------------------------------
  // The client
  // ---------------------------------------------------------------------------------------------

  /** The client's messages for one table, and its transactions, which their items refer to. */
  datatype Client = Client(stream: seq<LogItem>, txs: seq<TxRecord>)

  /** Transactions are told apart by origin and sequence number, and none is the one that the table was
      first found with. */
  ghost predicate IsClient(c: Client, found: Option<CommitInfo>) {
    && AllSquashed(c.stream) && NoReplay(c.txs, found)
    && forall j :: 0 <= j < |c.stream| ==> c.stream[j].item.txId < |c.txs|
  }

  /** Where in the stream the client started since the last restart, how much of the stream the table
      held then, and how much it holds now. */
  datatype Progress = Progress(start: nat, found: nat, held: nat)

  predicate Flushes(step: Step, url: string) {
    step == Commit(url) || step == SkipAll(url)
  }

  ghost function Moved(s: State, step: Step, url: string, pr: Progress, start: nat): Progress {
    if step == Restart then Progress(start, pr.held, pr.held)
    else if Flushes(step, url) then pr.(held := Max(pr.held, pr.start + |LogOf(s.h, url)|))
    else pr
  }

  /** The progress in state `k`; after a restart at step `i` the client starts at `starts[i]`. */
  ghost function ProgressAt(run: seq<State>, steps: seq<Step>, starts: seq<nat>, url: string, k: nat): Progress
    requires |run| == |steps| + 1 && |starts| == |steps| && k < |run|
  {
    if k == 0 then Progress(0, 0, 0)
    else Moved(run[k - 1], steps[k - 1], url, ProgressAt(run, steps, starts, url, k - 1), starts[k - 1])
  }

  /** An accepted message is a message of the stream. Its transaction may still lack its number. */
  ghost predicate SameMessage(l: LogItem, rec: seq<TxRecord>, sent: LogItem, txs: seq<TxRecord>) {
    && l.raw == sent.raw && l.item.schema == sent.item.schema && l.item.batch == sent.item.batch
    && l.item.txId < |rec| && sent.item.txId < |txs|
    && (rec[l.item.txId].sequence.Some? ==> rec[l.item.txId] == txs[sent.item.txId])
  }

  ghost predicate AreMessages(log: seq<LogItem>, rec: seq<TxRecord>, c: Client, start: nat)
    requires start + |log| <= |c.stream|
  {
    forall j :: 0 <= j < |log| ==> SameMessage(log[j], rec, c.stream[start + j], c.txs)
  }

  /** What was accepted since the last restart is a part of the stream, and leaves no gap. */
  ghost predicate Follows(s: State, url: string, c: Client, pr: Progress) {
    && UniqueTxs(s.h.txs) && pr.start <= pr.found && pr.start + |LogOf(s.h, url)| <= |c.stream|
    && AreMessages(LogOf(s.h, url), s.h.txs, c, pr.start)
  }

  /** What the table holds has all arrived again, and its last transaction is complete. */
  ghost predicate HasCaughtUp(s: State, url: string, pr: Progress) {
    pr.start < pr.found ==>
      && pr.found - pr.start <= |LogOf(s.h, url)|
      && IsComplete(s.h.txs, LogOf(s.h, url)[pr.found - pr.start - 1].item.txId)
  }

  ghost predicate IsComplete(rec: seq<TxRecord>, id: nat) {
    id < |rec| && rec[id].sequence.Some?
  }

  ghost predicate IsAlone(stream: seq<LogItem>, i: nat)
    requires i < |stream|
  {
    forall j :: 0 <= j < |stream| && j != i ==> stream[j].item.txId != stream[i].item.txId
  }

  /** The last commit ended with a complete transaction that has no other message for the table. */
  ghost predicate EndedWell(s: State, url: string, c: Client, pr: Progress) {
    pr.held > 0 ==>
      && url in s.tables && s.tables[url].commit.Some? && !s.tables[url].commit.value.newTx
      && pr.held <= |c.stream| && IsAlone(c.stream, pr.held - 1)
  }

  /** The table starts as `t`, whether the first state has it or it is created later. */
  ghost predicate StartsAs(run: seq<State>, steps: seq<Step>, url: string, t: StoredTable)
    requires |run| > 0
  {
    && (url in run[0].tables ==> run[0].tables[url] == t)
    && forall i :: 0 <= i < |steps| && steps[i].Create? && steps[i].url == url ==>
         t == StoredTable(steps[i].cols, multiset{}, None)
  }

  /** The client follows its stream. */
  ghost predicate Sends(run: seq<State>, steps: seq<Step>, starts: seq<nat>, url: string, c: Client) {
    && IsRun(run, steps) && |starts| == |steps|
    && forall k :: 0 <= k < |run| ==> Follows(run[k], url, c, ProgressAt(run, steps, starts, url, k))
  }

  /** And the writer restarts only after a commit that ended well. */
  ghost predicate Behaves(run: seq<State>, steps: seq<Step>, starts: seq<nat>, url: string, c: Client) {
    && Sends(run, steps, starts, url, c)
    && forall k :: 0 <= k < |steps| && steps[k] == Restart ==>
         EndedWell(run[k], url, c, ProgressAt(run, steps, starts, url, k))
  }

  /** The first flush after each restart, among the first `n` steps, comes when the client has caught up. */
  ghost predicate CatchesUp(run: seq<State>, steps: seq<Step>, starts: seq<nat>, url: string, n: nat)
    requires |run| == |steps| + 1 && |starts| == |steps| && n <= |steps|
  {
    forall k :: 0 <= k < n && Flushes(steps[k], url) && DoneOf(run[k].h, url) == 0 ==>
      HasCaughtUp(run[k], url, ProgressAt(run, steps, starts, url, k))
  }

  // ---------------------------------------------------------------------------------------------
  // The invariant
  // ---------------------------------------------------------------------------------------------

  /** The table was found at the last restart with a commit that names the last message it held. */
  ghost predicate FoundWell(found: Option<CommitInfo>, first: Option<CommitInfo>, c: Client, n: nat) {
    if n == 0 then found == first
    else found.Some? && n <= |c.stream| && IsAlone(c.stream, n - 1) && NamesMessage(found.value, c, n)
  }

  ghost predicate NamesMessage(info: CommitInfo, c: Client, n: nat)
    requires 0 < n <= |c.stream|
  {
    c.stream[n - 1].item.txId < |c.txs| && IsNamed(info, c.txs[c.stream[n - 1].item.txId])
  }

  ghost predicate IsStored(t: StoredTable, b: StoredTable, first: Option<CommitInfo>, c: Client, pr: Progress,
                           done: nat) {
    && pr.held <= |c.stream|
    && (pr.held > 0 && t.commit.Some? && !t.commit.value.newTx ==> NamesMessage(t.commit.value, c, pr.held))
    && (done == 0 ==> t.commit == b.commit)
    && FoundWell(b.commit, first, c, pr.found)
  }

  ghost predicate IsAt(pr: Progress, done: nat) {
    && pr.start <= pr.found <= pr.held
    && pr.held == if done == 0 then pr.found else pr.start + done
  }

  ghost predicate OnceInv(s: State, url: string, t0: StoredTable, c: Client, pr: Progress) {
    && IsAt(pr, DoneOf(s.h, url))
    && if url in s.tables && url in s.h.base
       then IsStored(s.tables[url], s.h.base[url], t0.commit, c, pr, DoneOf(s.h, url))
       else url !in s.tables && url !in s.h.base && DoneOf(s.h, url) == 0 && pr.held == 0
  }

  // ---------------------------------------------------------------------------------------------
  // What a flush skips
  // ---------------------------------------------------------------------------------------------

  lemma SameRecord(txs: seq<TxRecord>, i: nat, j: nat)
    requires UniqueTxs(txs) && i < |txs| && j < |txs| && txs[i] == txs[j] && txs[i].sequence.Some?
    ensures i == j
  {
  }

  /** A message of the transaction that the table was found with is the message it was found with. */
  lemma FoundOnly(info: CommitInfo, found: Option<CommitInfo>, first: Option<CommitInfo>, c: Client, n: nat,
                  l: LogItem, rec: seq<TxRecord>, i: nat)
    requires IsClient(c, first) && FoundWell(found, first, c, n) && i < |c.stream|
    requires found.Some? && found.value.origin == info.origin && found.value.sequence == info.sequence
    requires SameMessage(l, rec, c.stream[i], c.txs)
    ensures IsNamed(info, rec[l.item.txId]) ==> n > 0 && i == n - 1
  {
    hide AllSquashed, UniqueTxs;
    if IsNamed(info, rec[l.item.txId]) {
      assert c.txs[c.stream[i].item.txId] == TxRecord(info.origin, Some(info.sequence));
      assert n > 0;
      SameRecord(c.txs, c.stream[i].item.txId, c.stream[n - 1].item.txId);
    }
  }

  lemma PastNotNamed(info: CommitInfo, rec: seq<TxRecord>, log: seq<LogItem>, done: nat, i: nat, j: nat)
    requires UniqueTxs(rec) && NamesPast(info, rec, log, done, i) && done <= j < |log| && log[j].item.txId < |rec|
    ensures !IsNamed(info, rec[log[j].item.txId])
  {
    assert i < log[j].item.txId;
  }

  /** After a flush since the restart, no pending message belongs to the committed transaction. */
  lemma LaterNotNamed(info: CommitInfo, found: Option<CommitInfo>, first: Option<CommitInfo>, c: Client, pr: Progress,
                      rec: seq<TxRecord>, log: seq<LogItem>, done: nat, j: nat)
    requires IsClient(c, first) && FoundWell(found, first, c, pr.found) && UniqueTxs(rec)
    requires 0 < done <= j < |log| && pr.found <= pr.start + done && pr.start + |log| <= |c.stream|
    requires SameMessage(log[j], rec, c.stream[pr.start + j], c.txs)
    requires CommitFrom(Some(info), found, rec, log, done)
    ensures !IsNamed(info, rec[log[j].item.txId])
  {
    hide IsClient, FoundWell, UniqueTxs, IsNamed, NamesPast;
    if i: nat :| NamesPast(info, rec, log, done, i) {
      PastNotNamed(info, rec, log, done, i, j);
    } else {
      FoundOnly(info, found, first, c, pr.found, log[j], rec, pr.start + j);
    }
  }

  /** The first flush since the restart: the only message of the committed transaction is the last one
      that the table holds. */
  lemma FirstNamed(found: Option<CommitInfo>, first: Option<CommitInfo>, c: Client, pr: Progress,
                   rec: seq<TxRecord>, log: seq<LogItem>, j: nat)
    requires IsClient(c, first) && FoundWell(found, first, c, pr.found) && found.Some?
    requires j < |log| && pr.start + |log| <= |c.stream| && SameMessage(log[j], rec, c.stream[pr.start + j], c.txs)
    requires pr.start + j == pr.found - 1 ==> IsComplete(rec, log[j].item.txId)
    ensures IsNamed(found.value, rec[log[j].item.txId]) <==> pr.start + j == pr.found - 1
  {
    hide IsClient, FoundWell, IsNamed;
    FoundOnly(found.value, found, first, c, pr.found, log[j], rec, pr.start + j);
    if pr.start + j == pr.found - 1 {
      FoundLast(found.value, first, c, pr.found, log[j], rec);
    }
  }

  /** The last message held belongs to the transaction that the table was found with. */
  lemma FoundLast(info: CommitInfo, first: Option<CommitInfo>, c: Client, n: nat, l: LogItem, rec: seq<TxRecord>)
    requires 0 < n <= |c.stream| && FoundWell(Some(info), first, c, n)
    requires SameMessage(l, rec, c.stream[n - 1], c.txs) && IsComplete(rec, l.item.txId)
    ensures IsNamed(info, rec[l.item.txId])
  {
    hide IsAlone;
  }

  /** A pending message belongs to the committed transaction if and only if its record says so. */
  lemma PendingNamed(m: Memory, h: History, url: string, info: CommitInfo, k: nat)
    requires MemInv(m, h) && k < |PendingIn(m.syncs, url)|
    ensures var log, j := LogOf(h, url), DoneOf(h, url) + k;
      && j < |log| && log[j].item.txId < |h.txs|
      && (FromCommitted(m.txs, info, PendingIn(m.syncs, url)[k]) <==> IsNamed(info, h.txs[log[j].item.txId]))
  {
    hide *;
    CommittedIffNamed(m, h, url, k, info);
    PendingItem(m, h, url, k);
  }

  lemma MessageAt(log: seq<LogItem>, rec: seq<TxRecord>, c: Client, start: nat, j: nat)
    requires start + |log| <= |c.stream| && AreMessages(log, rec, c, start) && j < |log|
    ensures SameMessage(log[j], rec, c.stream[start + j], c.txs) && log[j].item.txId < |rec|
  {
  }

  lemma LaterKeeps(m: Memory, h: History, url: string, commit: Option<CommitInfo>, found: Option<CommitInfo>,
                   first: Option<CommitInfo>, c: Client, pr: Progress)
    requires MemInv(m, h) && IsClient(c, first) && FoundWell(found, first, c, pr.found) && UniqueTxs(h.txs)
    requires 0 < DoneOf(h, url) && pr.found <= pr.start + DoneOf(h, url) && pr.start + |LogOf(h, url)| <= |c.stream|
    requires AreMessages(LogOf(h, url), h.txs, c, pr.start)
    requires CommitFrom(commit, found, h.txs, LogOf(h, url), DoneOf(h, url))
    ensures Kept(m.txs, commit, PendingIn(m.syncs, url)) == PendingIn(m.syncs, url)
  {
    hide *;
    var log, done, items := LogOf(h, url), DoneOf(h, url), PendingIn(m.syncs, url);
    if commit.Some? {
      forall k | 0 <= k < |items| ensures !FromCommitted(m.txs, commit.value, items[k]) {
        PendingNamed(m, h, url, commit.value, k);
        MessageAt(log, h.txs, c, pr.start, done + k);
        LaterNotNamed(commit.value, found, first, c, pr, h.txs, log, done, done + k);
      }
    }
    KeepsAll(m.txs, commit, items);
  }

  lemma KeepsAll(txs: seq<Transaction>, commit: Option<CommitInfo>, items: seq<DataSyncItem>)
    requires commit.Some? ==> forall k :: 0 <= k < |items| ==> !FromCommitted(txs, commit.value, items[k])
    ensures Kept(txs, commit, items) == items
  {
    hide SkipCount, FromCommitted;
    SkipsNone(txs, commit, items, 0);
  }

  /** What was found names no message only if nothing was held. */
  lemma FoundSome(found: Option<CommitInfo>, first: Option<CommitInfo>, c: Client, n: nat)
    requires FoundWell(found, first, c, n) && found.None?
    ensures n == 0
  {
  }

  lemma FirstKeeps(m: Memory, h: History, url: string, found: Option<CommitInfo>, first: Option<CommitInfo>,
                   c: Client, pr: Progress)
    requires MemInv(m, h) && IsClient(c, first) && FoundWell(found, first, c, pr.found)
    requires DoneOf(h, url) == 0 && pr.start <= pr.found && pr.start + |LogOf(h, url)| <= |c.stream|
    requires AreMessages(LogOf(h, url), h.txs, c, pr.start)
    requires pr.start < pr.found ==>
      && pr.found - pr.start <= |LogOf(h, url)|
      && IsComplete(h.txs, LogOf(h, url)[pr.found - pr.start - 1].item.txId)
    ensures pr.found - pr.start <= |PendingIn(m.syncs, url)|
    ensures Kept(m.txs, found, PendingIn(m.syncs, url)) == PendingIn(m.syncs, url)[pr.found - pr.start..]
  {
    hide *;
    var log, items, q := LogOf(h, url), PendingIn(m.syncs, url), pr.found - pr.start;
    PendingLength(m, h, url);
    if found.Some? {
      forall k | 0 <= k < |items| ensures FromCommitted(m.txs, found.value, items[k]) <==> k == q - 1 {
        PendingNamed(m, h, url, found.value, k);
        MessageAt(log, h.txs, c, pr.start, k);
        FirstNamed(found, first, c, pr, h.txs, log, k);
      }
      if q > 0 {
        SkipsTo(m.txs, found, items, q);
      } else {
        KeepsAll(m.txs, found, items);
      }
    } else {
      FoundSome(found, first, c, pr.found);
      KeepsAll(m.txs, found, items);
    }
  }

  /** The first flush since the restart, before the client has caught up, skips nothing. */
  lemma EarlyKeeps(m: Memory, h: History, url: string, found: Option<CommitInfo>, first: Option<CommitInfo>,
                   c: Client, pr: Progress)
    requires MemInv(m, h) && IsClient(c, first) && FoundWell(found, first, c, pr.found)
    requires DoneOf(h, url) == 0 && pr.start < pr.found && pr.start + |LogOf(h, url)| <= |c.stream|
    requires AreMessages(LogOf(h, url), h.txs, c, pr.start)
    requires pr.found - pr.start <= |LogOf(h, url)| ==>
      !IsComplete(h.txs, LogOf(h, url)[pr.found - pr.start - 1].item.txId)
    ensures Kept(m.txs, found, PendingIn(m.syncs, url)) == PendingIn(m.syncs, url)
  {
    hide *;
    var log, items := LogOf(h, url), PendingIn(m.syncs, url);
    PendingLength(m, h, url);
    if found.Some? {
      forall k | 0 <= k < |items| ensures !FromCommitted(m.txs, found.value, items[k]) {
        PendingNamed(m, h, url, found.value, k);
        MessageAt(log, h.txs, c, pr.start, k);
        FoundOnly(found.value, found, first, c, pr.found, log[k], h.txs, pr.start + k);
        NamedComplete(found.value, h.txs, log[k].item.txId);
      }
    }
    KeepsAll(m.txs, found, items);
  }

  lemma NamedComplete(info: CommitInfo, rec: seq<TxRecord>, id: nat)
    requires id < |rec|
    ensures IsNamed(info, rec[id]) ==> IsComplete(rec, id)
  {
  }

  /** A flush keeps exactly the messages after those that the table holds if and only if it is not the
      first one since the restart, or the client has caught up. Otherwise it skips nothing. */
  lemma KeepsRest(s: State, url: string, t0: StoredTable, c: Client, pr: Progress)
    requires MemInv(s.m, s.h) && TableStore(s, url) && IsClient(c, t0.commit) && Follows(s, url, c, pr)
    requires OnceInv(s, url, t0, c, pr) && url in s.tables
    ensures var log, done := LogOf(s.h, url), DoneOf(s.h, url);
      var items := PendingIn(s.m.syncs, url);
      var kept := Kept(s.m.txs, s.tables[url].commit, items);
      && (done == 0 ==> HasCaughtUp(s, url, pr) || (pr.start < pr.found && kept == items))
      && (done > 0 || HasCaughtUp(s, url, pr) ==>
            0 <= pr.held - pr.start <= |log| && kept == ItemsOf(log)[pr.held - pr.start..])
  {
    hide MemInv, IsClient, FoundWell, NamesMessage, ApplyBag, NoReplay, CommitFrom, CommitEnds, Kept,
      AreMessages, PendingIn, LogOf, DoneOf, ItemsOf, UniqueTxs, IsComplete, ShapedItems, AppliedOf;
    PendingLength(s.m, s.h, url);
    if DoneOf(s.h, url) > 0 {
      LaterKeeps(s.m, s.h, url, s.tables[url].commit, s.h.base[url].commit, t0.commit, c, pr);
    } else if HasCaughtUp(s, url, pr) {
      FirstKeeps(s.m, s.h, url, s.h.base[url].commit, t0.commit, c, pr);
    } else {
      EarlyKeeps(s.m, s.h, url, s.h.base[url].commit, t0.commit, c, pr);
    }
  }

  // ---------------------------------------------------------------------------------------------
  // What a commit names
  // ---------------------------------------------------------------------------------------------

  /** A commit that ends with a complete transaction names that transaction. */
  lemma NewCommitNames(txs: seq<Transaction>, commit: Option<CommitInfo>, items: seq<DataSyncItem>)
    requires Kept(txs, commit, items) != [] && TxWithId(txs, items[|items| - 1].txId).Some?
    requires NewCommit(txs, commit, items).Some? && !NewCommit(txs, commit, items).value.newTx
    ensures var r, tx := NewCommit(txs, commit, items).value, TxWithId(txs, items[|items| - 1].txId).value;
      r.origin == tx.origin && Some(r.sequence) == tx.sequence
  {
    hide TxWithId, SkipCount;
    var kept := Kept(txs, commit, items);
    assert kept[|kept| - 1] == items[|items| - 1];
    LastCompleteAt(txs, kept, EndsOpen(txs, kept));
  }

  lemma NamesSent(info: CommitInfo, l: LogItem, rec: seq<TxRecord>, c: Client, n: nat)
    requires 0 < n <= |c.stream| && SameMessage(l, rec, c.stream[n - 1], c.txs)
    requires rec[l.item.txId].origin == info.origin && rec[l.item.txId].sequence == Some(info.sequence)
    ensures NamesMessage(info, c, n)
  {
  }

  lemma CommitNames(m: Memory, h: History, url: string, commit: Option<CommitInfo>, c: Client, start: nat)
    requires MemInv(m, h) && PendingIn(m.syncs, url) != [] && Kept(m.txs, commit, PendingIn(m.syncs, url)) != []
    requires 0 < start + |LogOf(h, url)| <= |c.stream| && AreMessages(LogOf(h, url), h.txs, c, start)
    requires NewCommit(m.txs, commit, PendingIn(m.syncs, url)).Some?
    requires !NewCommit(m.txs, commit, PendingIn(m.syncs, url)).value.newTx
    ensures NamesMessage(NewCommit(m.txs, commit, PendingIn(m.syncs, url)).value, c, start + |LogOf(h, url)|)
  {
    hide *;
    var items, log := PendingIn(m.syncs, url), LogOf(h, url);
    var n := |items| - 1;
    PendingLength(m, h, url);
    PendingItem(m, h, url, n);
    PendingTxFound(m, h, url, n);
    NewCommitNames(m.txs, commit, items);
    MessageAt(log, h.txs, c, start, |log| - 1);
    NamesSent(NewCommit(m.txs, commit, items).value, log[|log| - 1], h.txs, c, start + |log|);
  }

  // ---------------------------------------------------------------------------------------------
  // Steps
  // ---------------------------------------------------------------------------------------------

  lemma InvTable(s: State, url: string)
    requires Inv(s)
    ensures MemInv(s.m, s.h) && TableStore(s, url) && (url in s.tables <==> url in s.h.base)
  {
    hide MemInv, TableStore;
  }

  /** A commit of the messages after those that the table holds names the last of them. */
  lemma CommitAdds(s: State, url: string, t0: StoredTable, c: Client, pr: Progress, t': StoredTable)
    requires MemInv(s.m, s.h) && TableStore(s, url) && IsClient(c, t0.commit) && Follows(s, url, c, pr)
    requires OnceInv(s, url, t0, c, pr) && (DoneOf(s.h, url) == 0 ==> HasCaughtUp(s, url, pr))
    requires url in s.tables && url in s.h.base && PendingIn(s.m.syncs, url) != []
    requires Kept(s.m.txs, s.tables[url].commit, PendingIn(s.m.syncs, url)) != []
    requires t'.commit == NewCommit(s.m.txs, s.tables[url].commit, PendingIn(s.m.syncs, url))
    ensures pr.held < pr.start + |LogOf(s.h, url)|
    ensures IsStored(t', s.h.base[url], t0.commit, c, pr.(held := pr.start + |LogOf(s.h, url)|), |LogOf(s.h, url)|)
  {
    hide *;
    var t, log := s.tables[url], LogOf(s.h, url);
    OnceParts(s, url, t0, c, pr);
    KeepsRest(s, url, t0, c, pr);
    if t'.commit.Some? && !t'.commit.value.newTx {
      CommitNames(s.m, s.h, url, t.commit, c, pr.start);
    }
    StoredAfter(t', s.h.base[url], t0.commit, c, pr.(held := pr.start + |log|), |log|);
  }

  lemma OnceParts(s: State, url: string, t0: StoredTable, c: Client, pr: Progress)
    requires OnceInv(s, url, t0, c, pr) && Follows(s, url, c, pr) && url in s.tables && url in s.h.base
    ensures FoundWell(s.h.base[url].commit, t0.commit, c, pr.found) && pr.start <= pr.held
    ensures pr.start + |LogOf(s.h, url)| <= |c.stream| && AreMessages(LogOf(s.h, url), s.h.txs, c, pr.start)
  {
    hide FoundWell, NamesMessage, AreMessages, UniqueTxs;
  }

  lemma StoredAfter(t: StoredTable, b: StoredTable, first: Option<CommitInfo>, c: Client, pr: Progress, done: nat)
    requires 0 < pr.held <= |c.stream| && done > 0
    requires t.commit.Some? && !t.commit.value.newTx ==> NamesMessage(t.commit.value, c, pr.held)
    requires FoundWell(b.commit, first, c, pr.found)
    ensures IsStored(t, b, first, c, pr, done)
  {
    hide FoundWell, NamesMessage;
  }

  lemma CommitOnce(s: State, url: string, t0: StoredTable, c: Client, pr: Progress)
    requires Inv(s) && Enabled(s, Commit(url)) && IsClient(c, t0.commit) && Follows(s, url, c, pr)
    requires OnceInv(s, url, t0, c, pr) && (DoneOf(s.h, url) == 0 ==> HasCaughtUp(s, url, pr))
    ensures pr.held <= pr.start + |LogOf(s.h, url)|
    ensures OnceInv(Next(s, Commit(url)), url, t0, c, pr.(held := pr.start + |LogOf(s.h, url)|))
  {
    hide Inv, MemInv, TableStore, IsClient, IsStored, ApplyBag, Kept, NewCommit, Follows, ShapedItems, HasCaughtUp,
      AllChanges, EntryOf, CommitMem, LogOf;
    InvTable(s, url);
    QueueIs(s.m.syncs, url);
    SomePending(s.m.txs, s.tables[url].commit, PendingIn(s.m.syncs, url));
    KeptShaped(s.m.txs, s.tables[url].commit, PendingIn(s.m.syncs, url));
    CommitAdds(s, url, t0, c, pr, Next(s, Commit(url)).tables[url]);
  }

  lemma SomePending(txs: seq<Transaction>, commit: Option<CommitInfo>, items: seq<DataSyncItem>)
    requires Kept(txs, commit, items) != []
    ensures items != []
  {
  }

  /** A queue is skipped whole only when the table holds all of it. */
  lemma SkipOnce(s: State, url: string, t0: StoredTable, c: Client, pr: Progress)
    requires Inv(s) && Enabled(s, SkipAll(url)) && IsClient(c, t0.commit) && Follows(s, url, c, pr)
    requires OnceInv(s, url, t0, c, pr) && (DoneOf(s.h, url) == 0 ==> HasCaughtUp(s, url, pr))
    ensures pr.held <= pr.start + |LogOf(s.h, url)|
    ensures OnceInv(Next(s, SkipAll(url)), url, t0, c, pr.(held := pr.start + |LogOf(s.h, url)|))
  {
    hide Inv, MemInv, TableStore, IsClient, FoundWell, NamesMessage, ApplyBag, Kept, Follows,
      ShapedItems, HasCaughtUp, AllChanges, EntryOf, RemoveEntry, LogOf;
    InvTable(s, url);
    QueueIs(s.m.syncs, url);
    KeepsRest(s, url, t0, c, pr);
    EntryNonEmpty(s.m, s.h, url);
    PendingLength(s.m, s.h, url);
  }

  lemma RestartOnce(s: State, url: string, t0: StoredTable, c: Client, pr: Progress, start: nat)
    requires OnceInv(s, url, t0, c, pr) && EndedWell(s, url, c, pr) && start <= pr.held
    requires url in s.tables <==> url in s.h.base
    ensures OnceInv(Next(s, Restart), url, t0, c, Progress(start, pr.held, pr.held))
  {
    hide NamesMessage, IsAlone;
  }

  lemma CreateOnce(s: State, url: string, t0: StoredTable, c: Client, pr: Progress)
    requires Enabled(s, Create(url, t0.cols)) && OnceInv(s, url, t0, c, pr)
    requires t0 == StoredTable(t0.cols, multiset{}, None)
    ensures OnceInv(Next(s, Create(url, t0.cols)), url, t0, c, pr)
  {
    hide NamesMessage, IsAlone;
  }

  /** The part of a state that a step for another table leaves as it is. */
  ghost predicate SameFor(s: State, s': State, url: string) {
    && (url in s'.tables <==> url in s.tables)
    && (url in s.tables && url in s'.tables ==> s'.tables[url] == s.tables[url])
    && (url in s'.h.base <==> url in s.h.base)
    && (url in s.h.base && url in s'.h.base ==> s'.h.base[url] == s.h.base[url])
    && DoneOf(s'.h, url) == DoneOf(s.h, url)
  }

  lemma OtherStep(s: State, step: Step, url: string)
    requires Enabled(s, step) && step != Restart && !Flushes(step, url) && !(step.Create? && step.url == url)
    ensures SameFor(s, Next(s, step), url)
  {
    hide EnqueueMem, EnqueueHistory, CommitMem, RemoveEntry, ApplyBag, AllChanges, Kept, NewCommit, EntryOf, MessageOk,
      ShapedItems;
    if step.Enqueue? {
      EnqueueRest(s, step.msg);
    }
  }

  lemma EnqueueRest(s: State, msg: Message)
    requires MessageOk(s.h, msg)
    ensures Shaped(msg.schema, msg.rows)
    ensures var h := EnqueueHistory(s.m, s.h, msg); h.base == s.h.base && h.done == s.h.done
  {
    hide LogAfter, RecordTx, ToldTx, JoinedTx, SquashPanics, TxOutcome, HasOpenTx, Shaped, Valid, Names;
  }

  lemma SameOnce(s: State, s': State, url: string, t0: StoredTable, c: Client, pr: Progress)
    requires OnceInv(s, url, t0, c, pr) && SameFor(s, s', url)
    ensures OnceInv(s', url, t0, c, pr)
  {
    hide IsStored;
  }

  /** One step of a behaving run. */
  lemma StepOnce(s: State, step: Step, url: string, t0: StoredTable, c: Client, pr: Progress, start: nat)
    requires Inv(s) && Enabled(s, step) && IsClient(c, t0.commit) && Follows(s, url, c, pr)
    requires OnceInv(s, url, t0, c, pr)
    requires Flushes(step, url) && DoneOf(s.h, url) == 0 ==> HasCaughtUp(s, url, pr)
    requires step == Restart ==> EndedWell(s, url, c, pr) && start <= pr.held
    requires step.Create? && step.url == url ==> t0 == StoredTable(step.cols, multiset{}, None)
    ensures OnceInv(Next(s, step), url, t0, c, Moved(s, step, url, pr, start))
  {
    hide Inv, Next, Enabled, IsClient, Follows, OnceInv, HasCaughtUp, EndedWell, DoneOf, LogOf;
    if step == Restart {
      InvTable(s, url);
      RestartOnce(s, url, t0, c, pr, start);
    } else if step == Commit(url) {
      CommitOnce(s, url, t0, c, pr);
    } else if step == SkipAll(url) {
      SkipOnce(s, url, t0, c, pr);
    } else if step.Create? && step.url == url {
      CreateOnce(s, url, t0, c, pr);
    } else {
      OtherStep(s, step, url);
      SameOnce(s, Next(s, step), url, t0, c, pr);
    }
  }

  lemma StartOnce(s: State, url: string, t0: StoredTable, c: Client)
    requires Initial(s) && (url in s.tables ==> s.tables[url] == t0)
    ensures OnceInv(s, url, t0, c, Progress(0, 0, 0))
  {
    hide NamesMessage, IsAlone;
  }

  /** What a behaving run says of one of its steps. */
  lemma BehavedStep(run: seq<State>, steps: seq<Step>, starts: seq<nat>, url: string, c: Client, t0: StoredTable,
                    k: nat)
    requires Behaves(run, steps, starts, url, c) && StartsAs(run, steps, url, t0) && k < |steps|
    ensures var s, step, pr := run[k], steps[k], ProgressAt(run, steps, starts, url, k);
      && IsRun(run, steps) && Enabled(s, step) && run[k + 1] == Next(s, step) && Follows(s, url, c, pr)
      && ProgressAt(run, steps, starts, url, k + 1) == Moved(s, step, url, pr, starts[k])
      && (step == Restart ==> EndedWell(s, url, c, pr) && starts[k] <= pr.held)
      && (step.Create? && step.url == url ==> t0 == StoredTable(step.cols, multiset{}, None))
  {
    hide Next, Enabled, Initial, HasCaughtUp, EndedWell, UniqueTxs, AreMessages, DoneOf, LogOf;
    assert Follows(run[k + 1], url, c, ProgressAt(run, steps, starts, url, k + 1));
  }

  lemma BehavedStart(run: seq<State>, steps: seq<Step>, starts: seq<nat>, url: string, c: Client, t0: StoredTable)
    requires Behaves(run, steps, starts, url, c) && StartsAs(run, steps, url, t0)
    ensures IsRun(run, steps) && |run| == |steps| + 1 && |starts| == |steps|
    ensures Initial(run[0]) && (url in run[0].tables ==> run[0].tables[url] == t0)
    ensures ProgressAt(run, steps, starts, url, 0) == Progress(0, 0, 0)
  {
    hide Next, Enabled, Initial, HasCaughtUp, EndedWell, Follows, DoneOf;
  }

  lemma CatchesUpNext(run: seq<State>, steps: seq<Step>, starts: seq<nat>, url: string, n: nat)
    requires |run| == |steps| + 1 && |starts| == |steps| && n < |steps|
    ensures CatchesUp(run, steps, starts, url, n + 1) <==>
      && CatchesUp(run, steps, starts, url, n)
      && (Flushes(steps[n], url) && DoneOf(run[n].h, url) == 0 ==>
            HasCaughtUp(run[n], url, ProgressAt(run, steps, starts, url, n)))
  {
    hide HasCaughtUp, ProgressAt, DoneOf;
  }

  lemma {:induction false} RunOnce(run: seq<State>, steps: seq<Step>, starts: seq<nat>, url: string, c: Client,
                                   t0: StoredTable, k: nat)
    requires Behaves(run, steps, starts, url, c) && StartsAs(run, steps, url, t0) && k < |run|
    requires IsClient(c, t0.commit) && CatchesUp(run, steps, starts, url, k)
    ensures OnceInv(run[k], url, t0, c, ProgressAt(run, steps, starts, url, k))
  {
    hide *;
    BehavedStart(run, steps, starts, url, c, t0);
    if k == 0 {
      StartOnce(run[0], url, t0, c);
    } else {
      CatchesUpNext(run, steps, starts, url, k - 1);
      RunOnce(run, steps, starts, url, c, t0, k - 1);
      BehavedStep(run, steps, starts, url, c, t0, k - 1);
      RunInv(run, steps, k - 1);
      StepOnce(run[k - 1], steps[k - 1], url, t0, c, ProgressAt(run, steps, starts, url, k - 1), starts[k - 1]);
    }
  }
}
