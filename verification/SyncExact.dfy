/** Exactly once, over runs with any number of restarts: which flushes apply the client's stream to a table
    once each, and that they are the only ones. */
module SyncExact {
  import opened Basics
  import opened Tables
  import opened Prune
  import opened SyncState
  import opened SyncInvariant
  import opened SyncStore
  import opened SyncTheorems
  import opened SyncConvergence
  import opened SyncRecovery
  import opened SyncRestarts

  // ---------------------------------------------------------------------------------------------
  // What is applied to a table over a run
  // ---------------------------------------------------------------------------------------------

  ghost function KeptNow(s: State, url: string): seq<DataSyncItem>
    requires url in s.tables
  {
    Kept(s.m.txs, s.tables[url].commit, PendingIn(s.m.syncs, url))
  }

  /** All items that commits have applied to the table, before and after restarts. */
  ghost function AppliedTo(run: seq<State>, steps: seq<Step>, url: string, k: nat): seq<DataSyncItem>
    requires IsRun(run, steps) && k < |run|
  {
    if k == 0 then []
    else
      AppliedTo(run, steps, url, k - 1) +
      (if steps[k - 1] == Commit(url) then CommitHasTable(run, steps, url, k - 1); KeptNow(run[k - 1], url) else [])
  }

  lemma CommitHasTable(run: seq<State>, steps: seq<Step>, url: string, k: nat)
    requires IsRun(run, steps) && k < |steps| && steps[k] == Commit(url)
    ensures url in run[k].tables
  {
    hide Next, Initial, Kept, EntryOf, ShapedItems;
  }

  lemma AppliedNext(run: seq<State>, steps: seq<Step>, url: string, k: nat)
    requires IsRun(run, steps) && k < |steps|
    ensures steps[k] == Commit(url) ==>
      && url in run[k].tables
      && AppliedTo(run, steps, url, k + 1) == AppliedTo(run, steps, url, k) + KeptNow(run[k], url)
    ensures steps[k] != Commit(url) ==> AppliedTo(run, steps, url, k + 1) == AppliedTo(run, steps, url, k)
  {
    hide IsRun, KeptNow;
    if steps[k] == Commit(url) {
      CommitHasTable(run, steps, url, k);
    }
  }

  /** A table is what the items applied to it have made of what it started as. */
  ghost predicate IsMadeOf(t: StoredTable, t0: StoredTable, applied: seq<DataSyncItem>) {
    t.cols == t0.cols && ShapedItems(applied) && t.bag == ApplyBag(t0.cols, t0.bag, AllChanges(applied))
  }

  lemma MadeOfNothing(t0: StoredTable)
    ensures IsMadeOf(t0, t0, [])
  {
    assert AllChanges([]) == [];
  }

  lemma CommitMakes(s: State, url: string, t0: StoredTable, applied: seq<DataSyncItem>)
    requires Enabled(s, Commit(url)) && IsMadeOf(s.tables[url], t0, applied)
    ensures url in Next(s, Commit(url)).tables
    ensures IsMadeOf(Next(s, Commit(url)).tables[url], t0, applied + KeptNow(s, url))
  {
    hide Kept, NewCommit, CommitMem, ApplyBag, EntryOf, AllChanges, ShapedItems;
    QueueIs(s.m.syncs, url);
    KeptShaped(s.m.txs, s.tables[url].commit, PendingIn(s.m.syncs, url));
    BagCommitted(s.tables[url], t0, applied, KeptNow(s, url));
  }

  lemma OtherTables(s: State, step: Step, url: string)
    requires Enabled(s, step) && step != Commit(url) && !(step.Create? && step.url == url)
    ensures var s' := Next(s, step);
      (url in s'.tables <==> url in s.tables) && (url in s.tables ==> s'.tables[url] == s.tables[url])
  {
    hide EnqueueMem, EnqueueHistory, CommitMem, RemoveEntry, ApplyBag, AllChanges, Kept, NewCommit, EntryOf, MessageOk,
      ShapedItems;
  }

  lemma CreateTables(s: State, url: string, cols: set<string>)
    requires Enabled(s, Create(url, cols))
    ensures url !in s.tables
    ensures url in Next(s, Create(url, cols)).tables
    ensures Next(s, Create(url, cols)).tables[url] == StoredTable(cols, multiset{}, None)
  {
  }

  lemma RunStep(run: seq<State>, steps: seq<Step>, url: string, t0: StoredTable, k: nat)
    requires IsRun(run, steps) && StartsAs(run, steps, url, t0) && k < |steps|
    ensures Enabled(run[k], steps[k]) && run[k + 1] == Next(run[k], steps[k])
    ensures url in run[0].tables ==> run[0].tables[url] == t0
    ensures steps[k].Create? && steps[k].url == url ==> t0 == StoredTable(steps[k].cols, multiset{}, None)
  {
    hide Next, Enabled, Initial;
  }

  /** In every run, a table is made of all that was applied to it. */
  lemma {:induction false} RunMakes(run: seq<State>, steps: seq<Step>, url: string, t0: StoredTable, k: nat)
    requires IsRun(run, steps) && StartsAs(run, steps, url, t0) && k < |run|
    ensures if url in run[k].tables then IsMadeOf(run[k].tables[url], t0, AppliedTo(run, steps, url, k))
            else AppliedTo(run, steps, url, k) == []
  {
    hide IsRun, StartsAs, Enabled, Next, KeptNow, IsMadeOf, AppliedTo;
    RunSize(run, steps);
    if k == 0 {
      NoneApplied(run, steps, url);
      MadeOfNothing(t0);
      StartsWith(run, steps, url, t0);
    } else {
      RunMakes(run, steps, url, t0, k - 1);
      RunStep(run, steps, url, t0, k - 1);
      AppliedNext(run, steps, url, k - 1);
      var s, step := run[k - 1], steps[k - 1];
      if step == Commit(url) {
        CommitMakes(s, url, t0, AppliedTo(run, steps, url, k - 1));
      } else if step.Create? && step.url == url {
        CreateTables(s, url, step.cols);
        MadeOfNothing(t0);
      } else {
        OtherTables(s, step, url);
      }
    }
  }

  lemma NoneApplied(run: seq<State>, steps: seq<Step>, url: string)
    requires IsRun(run, steps) && |run| > 0
    ensures AppliedTo(run, steps, url, 0) == []
  {
    hide IsRun;
  }

  lemma StartsWith(run: seq<State>, steps: seq<Step>, url: string, t0: StoredTable)
    requires IsRun(run, steps) && StartsAs(run, steps, url, t0)
    ensures url in run[0].tables ==> run[0].tables[url] == t0
  {
    hide Next, Enabled, Initial;
  }

  // ---------------------------------------------------------------------------------------------
  // When what is applied is the stream
  // ---------------------------------------------------------------------------------------------

  /** The items carry the rows of the first `n` messages of the stream. */
  ghost predicate AreSent(items: seq<DataSyncItem>, c: Client, n: nat) {
    && |items| == n <= |c.stream|
    && forall i :: 0 <= i < n ==>
         items[i].schema == c.stream[i].item.schema && items[i].batch == c.stream[i].item.batch
  }

  /** Every message that the table should hold by now has been applied to it once, in order. */
  ghost predicate IsExact(run: seq<State>, steps: seq<Step>, starts: seq<nat>, url: string, c: Client, k: nat)
    requires IsRun(run, steps) && |starts| == |steps| && k < |run|
  {
    AreSent(AppliedTo(run, steps, url, k), c, ProgressAt(run, steps, starts, url, k).held)
  }

  /** How many of the pending messages the table holds already. */
  function Known(pr: Progress, done: nat, total: nat): nat
    requires pr.start + done <= pr.held && done <= total
  {
    Min(pr.held - pr.start, total) - done
  }

  /** The first pending message of the committed transaction is the `w`-th one; there is none if `w` is
      zero. */
  ghost predicate StopsAt(commit: Option<CommitInfo>, rec: seq<TxRecord>, items: seq<DataSyncItem>, w: nat)
    requires w <= |items| && forall i :: 0 <= i < |items| ==> items[i].txId < |rec|
  {
    if w == 0 then commit.Some? ==> forall i :: 0 <= i < |items| ==> !IsNamed(commit.value, rec[items[i].txId])
    else
      && commit.Some? && IsNamed(commit.value, rec[items[w - 1].txId])
      && forall i :: 0 <= i < w - 1 ==> !IsNamed(commit.value, rec[items[i].txId])
  }

  ghost predicate Recorded(items: seq<DataSyncItem>, rec: seq<TxRecord>) {
    forall i :: 0 <= i < |items| ==> items[i].txId < |rec|
  }

  /** A flush in this state skips exactly the pending messages that the table holds already. */
  ghost predicate SkipsKnown(s: State, url: string, pr: Progress) {
    var done, total, items := DoneOf(s.h, url), |LogOf(s.h, url)|, PendingIn(s.m.syncs, url);
    && url in s.tables && pr.start + done <= pr.held && done <= total && |items| == total - done
    && Recorded(items, s.h.txs)
    && StopsAt(s.tables[url].commit, s.h.txs, items, Known(pr, done, total))
  }

  lemma StopsExactly(m: Memory, h: History, url: string, commit: Option<CommitInfo>, w: nat)
    requires MemInv(m, h) && w <= |PendingIn(m.syncs, url)|
    ensures Recorded(PendingIn(m.syncs, url), h.txs)
    ensures |Kept(m.txs, commit, PendingIn(m.syncs, url))| == |PendingIn(m.syncs, url)| - w <==>
      StopsAt(commit, h.txs, PendingIn(m.syncs, url), w)
  {
    hide MemInv, PendingIn, LogOf, DoneOf, SkipCount, FromCommitted, IsNamed;
    var items := PendingIn(m.syncs, url);
    forall k | 0 <= k < |items| ensures items[k].txId < |h.txs| {
      PendingItem(m, h, url, k);
    }
    if commit.Some? {
      forall k | 0 <= k < |items|
        ensures FromCommitted(m.txs, commit.value, items[k]) <==> IsNamed(commit.value, h.txs[items[k].txId])
      {
        CommittedIffNamed(m, h, url, k, commit.value);
      }
      SkipStops(m.txs, commit.value, items, 0);
    } else {
      NoSkip(m.txs, items);
    }
  }

  lemma SentMore(applied: seq<DataSyncItem>, items: seq<DataSyncItem>, log: seq<LogItem>, rec: seq<TxRecord>, c: Client,
                 pr: Progress, done: nat, kept: seq<DataSyncItem>)
    requires pr.start + |log| <= |c.stream| && AreMessages(log, rec, c, pr.start) && done <= |log|
    requires items == ItemsOf(log)[done..] && pr.start + done <= pr.held <= |c.stream| && AreSent(applied, c, pr.held)
    requires |kept| <= |items| && kept == items[|items| - |kept|..]
    ensures AreSent(applied + kept, c, Max(pr.held, pr.start + |log|)) <==>
      |kept| == |items| - Known(pr, done, |log|)
  {
    hide AreMessages, AreSent;
    if |kept| == |items| - Known(pr, done, |log|) {
      KeptSent(items, log, rec, c, pr, done, kept);
      SentConcat(applied, kept, c, pr.held);
    } else {
      SentSize(applied, c, pr.held);
      if AreSent(applied + kept, c, Max(pr.held, pr.start + |log|)) {
        SentSize(applied + kept, c, Max(pr.held, pr.start + |log|));
      }
    }
  }

  lemma SentSize(items: seq<DataSyncItem>, c: Client, n: nat)
    requires AreSent(items, c, n)
    ensures |items| == n <= |c.stream|
  {
  }

  /** The items kept carry the rows of the messages from `n` on. */
  ghost predicate ComeNext(kept: seq<DataSyncItem>, c: Client, n: nat) {
    && n + |kept| <= |c.stream|
    && forall i :: 0 <= i < |kept| ==>
         kept[i].schema == c.stream[n + i].item.schema && kept[i].batch == c.stream[n + i].item.batch
  }

  lemma KeptSent(items: seq<DataSyncItem>, log: seq<LogItem>, rec: seq<TxRecord>, c: Client, pr: Progress, done: nat,
                 kept: seq<DataSyncItem>)
    requires pr.start + |log| <= |c.stream| && AreMessages(log, rec, c, pr.start) && done <= |log|
    requires items == ItemsOf(log)[done..] && pr.start + done <= pr.held <= |c.stream|
    requires |kept| == |items| - Known(pr, done, |log|) && kept == items[|items| - |kept|..]
    ensures ComeNext(kept, c, pr.held) && pr.held + |kept| == Max(pr.held, pr.start + |log|)
  {
    forall i | 0 <= i < |kept|
      ensures kept[i].schema == c.stream[pr.held + i].item.schema && kept[i].batch == c.stream[pr.held + i].item.batch
    {
      var j := pr.held - pr.start + i;
      assert kept[i] == log[j].item;
      assert SameMessage(log[j], rec, c.stream[pr.start + j], c.txs);
    }
  }

  lemma SentConcat(applied: seq<DataSyncItem>, kept: seq<DataSyncItem>, c: Client, n: nat)
    requires AreSent(applied, c, n) && ComeNext(kept, c, n)
    ensures AreSent(applied + kept, c, n + |kept|)
  {
  }

  lemma KeptSuffix(txs: seq<Transaction>, commit: Option<CommitInfo>, items: seq<DataSyncItem>)
    ensures var kept := Kept(txs, commit, items); |kept| <= |items| && kept == items[|items| - |kept|..]
  {
    hide SkipCount;
  }

  /** A flush keeps the match with the stream if and only if it skips exactly what the table holds. */
  lemma FlushExact(s: State, url: string, c: Client, pr: Progress, applied: seq<DataSyncItem>)
    requires MemInv(s.m, s.h) && url in s.tables && Follows(s, url, c, pr)
    requires pr.start + DoneOf(s.h, url) <= pr.held && AreSent(applied, c, pr.held)
    ensures AreSent(applied + KeptNow(s, url), c, Max(pr.held, pr.start + |LogOf(s.h, url)|)) <==>
      SkipsKnown(s, url, pr)
  {
    hide MemInv, PendingIn, LogOf, DoneOf, Kept, AreSent, AreMessages, UniqueTxs, SkipsKnown;
    var log, done, items := LogOf(s.h, url), DoneOf(s.h, url), PendingIn(s.m.syncs, url);
    PendingLength(s.m, s.h, url);
    KeptSuffix(s.m.txs, s.tables[url].commit, items);
    SentSize(applied, c, pr.held);
    SentMore(applied, items, log, s.h.txs, c, pr, done, KeptNow(s, url));
    KnownSize(s, url, pr);
  }

  // ---------------------------------------------------------------------------------------------
  // Over runs
  // ---------------------------------------------------------------------------------------------

  lemma SendsStep(run: seq<State>, steps: seq<Step>, starts: seq<nat>, url: string, c: Client, k: nat)
    requires Sends(run, steps, starts, url, c) && k < |steps|
    ensures var s, step, pr := run[k], steps[k], ProgressAt(run, steps, starts, url, k);
      && Enabled(s, step) && run[k + 1] == Next(s, step) && Follows(s, url, c, pr)
      && ProgressAt(run, steps, starts, url, k + 1) == Moved(s, step, url, pr, starts[k])
      && Follows(run[k + 1], url, c, ProgressAt(run, steps, starts, url, k + 1))
  {
    hide Next, Enabled, Initial, Follows, Moved;
  }

  lemma DoneAfter(s: State, step: Step, url: string)
    requires Enabled(s, step)
    ensures var s' := Next(s, step);
      && (step == Restart ==> DoneOf(s'.h, url) == 0)
      && (Flushes(step, url) ==> DoneOf(s'.h, url) == |LogOf(s.h, url)|)
      && (step != Restart && !Flushes(step, url) ==> DoneOf(s'.h, url) == DoneOf(s.h, url))
  {
    hide EnqueueMem, LogAfter, RecordTx, ToldTx, JoinedTx, SquashPanics, TxOutcome, HasOpenTx, CommitMem, RemoveEntry,
      ApplyBag, AllChanges, Kept, NewCommit, EntryOf, MessageOk, ShapedItems;
  }

  /** What has been flushed since the restart is held. */
  lemma {:induction false} DoneIsHeld(run: seq<State>, steps: seq<Step>, starts: seq<nat>, url: string, c: Client,
                                      k: nat)
    requires Sends(run, steps, starts, url, c) && k < |run|
    ensures var pr := ProgressAt(run, steps, starts, url, k);
      pr.start + DoneOf(run[k].h, url) <= pr.held && pr.start <= pr.found <= pr.held
  {
    hide Next, Enabled, DoneOf, LogOf, UniqueTxs, AreMessages, ProgressAt, IsRun, Sends;
    NothingDone(run, steps, starts, url, c);
    if k > 0 {
      DoneIsHeld(run, steps, starts, url, c, k - 1);
      SendsStep(run, steps, starts, url, c, k - 1);
      DoneAfter(run[k - 1], steps[k - 1], url);
    }
  }

  lemma NothingDone(run: seq<State>, steps: seq<Step>, starts: seq<nat>, url: string, c: Client)
    requires Sends(run, steps, starts, url, c)
    ensures |run| == |steps| + 1 && |starts| == |steps| && IsRun(run, steps)
    ensures ProgressAt(run, steps, starts, url, 0) == Progress(0, 0, 0) && DoneOf(run[0].h, url) == 0
    ensures AppliedTo(run, steps, url, 0) == []
  {
    hide Next, Enabled, Follows;
  }

  ghost predicate ExactTill(run: seq<State>, steps: seq<Step>, starts: seq<nat>, url: string, c: Client, n: nat)
    requires IsRun(run, steps) && |starts| == |steps| && n < |run|
  {
    forall k :: 0 <= k <= n ==> IsExact(run, steps, starts, url, c, k)
  }

  ghost predicate SkipsTill(run: seq<State>, steps: seq<Step>, starts: seq<nat>, url: string, n: nat)
    requires |run| == |steps| + 1 && |starts| == |steps| && n <= |steps|
  {
    forall k :: 0 <= k < n && Flushes(steps[k], url) ==>
      SkipsKnown(run[k], url, ProgressAt(run, steps, starts, url, k))
  }

  lemma ExactNext(run: seq<State>, steps: seq<Step>, starts: seq<nat>, url: string, c: Client, k: nat)
    requires Sends(run, steps, starts, url, c) && k < |steps| && IsExact(run, steps, starts, url, c, k)
    ensures IsExact(run, steps, starts, url, c, k + 1) <==>
      (Flushes(steps[k], url) ==> SkipsKnown(run[k], url, ProgressAt(run, steps, starts, url, k)))
  {
    hide Next, Enabled, DoneOf, LogOf, ProgressAt, IsRun, Sends, AppliedTo, AreSent, SkipsKnown, KeptNow, Follows;
    NothingDone(run, steps, starts, url, c);
    var pr, applied := ProgressAt(run, steps, starts, url, k), AppliedTo(run, steps, url, k);
    SendsStep(run, steps, starts, url, c, k);
    AppliedNext(run, steps, url, k);
    if Flushes(steps[k], url) {
      DoneIsHeld(run, steps, starts, url, c, k);
      RunInv(run, steps, k);
      InvMem(run[k]);
      FlushHasTable(run[k], steps[k], url);
      FlushExact(run[k], url, c, pr, applied);
      assert applied + [] == applied;
    }
  }

  lemma FlushHasTable(s: State, step: Step, url: string)
    requires Enabled(s, step) && Flushes(step, url)
    ensures url in s.tables && (step == SkipAll(url) ==> KeptNow(s, url) == [])
  {
    hide Kept, ShapedItems, EntryOf;
    if step == SkipAll(url) {
      QueueIs(s.m.syncs, url);
    }
  }

  /** The stream is applied exactly once, in every state of a run, if and only if every flush finds the
      first pending message of the committed transaction where the messages that the table holds end. */
  lemma {:induction false} ExactlyIff(run: seq<State>, steps: seq<Step>, starts: seq<nat>, url: string, c: Client,
                                      n: nat)
    requires Sends(run, steps, starts, url, c) && n < |run|
    ensures IsRun(run, steps) && |starts| == |steps|
    ensures ExactTill(run, steps, starts, url, c, n) <==> SkipsTill(run, steps, starts, url, n)
  {
    hide IsRun, IsExact, SkipsKnown, ProgressAt, AppliedTo, Sends;
    NothingDone(run, steps, starts, url, c);
    if n == 0 {
      ExactAtFirst(run, steps, starts, url, c);
    } else {
      ExactlyIff(run, steps, starts, url, c, n - 1);
      if ExactTill(run, steps, starts, url, c, n - 1) {
        assert IsExact(run, steps, starts, url, c, n - 1);
        ExactNext(run, steps, starts, url, c, n - 1);
      }
    }
  }

  lemma ExactAtFirst(run: seq<State>, steps: seq<Step>, starts: seq<nat>, url: string, c: Client)
    requires Sends(run, steps, starts, url, c)
    ensures IsExact(run, steps, starts, url, c, 0)
  {
    hide IsRun, Sends, ProgressAt, AppliedTo;
    NothingDone(run, steps, starts, url, c);
  }

  /** In terms of the client: a first flush after a restart is right exactly when the client has caught
      up, and every later one is. */
  lemma FlushCatchesUp(s: State, url: string, t0: StoredTable, c: Client, pr: Progress)
    requires Inv(s) && url in s.tables && IsClient(c, t0.commit) && Follows(s, url, c, pr)
    requires OnceInv(s, url, t0, c, pr) && PendingIn(s.m.syncs, url) != []
    ensures SkipsKnown(s, url, pr) <==> (DoneOf(s.h, url) == 0 ==> HasCaughtUp(s, url, pr))
  {
    hide Inv, MemInv, TableStore, IsClient, OnceInv, PendingIn, LogOf, DoneOf, Kept, Follows, SkipsKnown, HasCaughtUp,
      ItemsOf;
    InvTable(s, url);
    PendingLength(s.m, s.h, url);
    OnceAt(s, url, t0, c, pr);
    KeepsRest(s, url, t0, c, pr);
    KnownSize(s, url, pr);
  }

  lemma OnceAt(s: State, url: string, t0: StoredTable, c: Client, pr: Progress)
    requires OnceInv(s, url, t0, c, pr)
    ensures IsAt(pr, DoneOf(s.h, url))
  {
    hide IsStored;
  }

  lemma KnownSize(s: State, url: string, pr: Progress)
    requires MemInv(s.m, s.h) && url in s.tables && pr.start + DoneOf(s.h, url) <= pr.held
    ensures DoneOf(s.h, url) <= |LogOf(s.h, url)|
    ensures SkipsKnown(s, url, pr) <==>
      |KeptNow(s, url)| == |PendingIn(s.m.syncs, url)| - Known(pr, DoneOf(s.h, url), |LogOf(s.h, url)|)
  {
    hide MemInv, PendingIn, LogOf, DoneOf, Kept, StopsAt, Recorded;
    PendingLength(s.m, s.h, url);
    StopsExactly(s.m, s.h, url, s.tables[url].commit, Known(pr, DoneOf(s.h, url), |LogOf(s.h, url)|));
  }

  lemma FlushPending(s: State, step: Step, url: string)
    requires Inv(s) && Enabled(s, step) && Flushes(step, url)
    ensures url in s.tables && PendingIn(s.m.syncs, url) != []
  {
    hide Kept, ShapedItems, EntryOf, MemInv, TableStore, PendingIn;
    EntryNonEmpty(s.m, s.h, url);
  }

  lemma {:induction false} SkipsWhen(run: seq<State>, steps: seq<Step>, starts: seq<nat>, url: string, c: Client,
                                     t0: StoredTable, n: nat)
    requires Behaves(run, steps, starts, url, c) && StartsAs(run, steps, url, t0) && IsClient(c, t0.commit)
    requires n < |run|
    ensures |run| == |steps| + 1 && |starts| == |steps|
    ensures SkipsTill(run, steps, starts, url, n) <==> CatchesUp(run, steps, starts, url, n)
  {
    hide IsRun, SkipsKnown, ProgressAt, Behaves, StartsAs, IsClient, CatchesUp, DoneOf, HasCaughtUp;
    BehavedStart(run, steps, starts, url, c, t0);
    if n == 0 {
      NoneCaughtUp(run, steps, starts, url);
    } else {
      SkipsWhen(run, steps, starts, url, c, t0, n - 1);
      CatchesUpNext(run, steps, starts, url, n - 1);
      if CatchesUp(run, steps, starts, url, n - 1) && Flushes(steps[n - 1], url) {
        LastFlush(run, steps, starts, url, c, t0, n - 1);
      }
    }
  }

  lemma LastFlush(run: seq<State>, steps: seq<Step>, starts: seq<nat>, url: string, c: Client, t0: StoredTable, k: nat)
    requires Behaves(run, steps, starts, url, c) && StartsAs(run, steps, url, t0) && IsClient(c, t0.commit)
    requires |run| == |steps| + 1 && |starts| == |steps| && k < |steps| && Flushes(steps[k], url)
    requires CatchesUp(run, steps, starts, url, k)
    ensures SkipsKnown(run[k], url, ProgressAt(run, steps, starts, url, k)) <==>
      (DoneOf(run[k].h, url) == 0 ==> HasCaughtUp(run[k], url, ProgressAt(run, steps, starts, url, k)))
  {
    hide *;
    RunOnce(run, steps, starts, url, c, t0, k);
    BehavedStep(run, steps, starts, url, c, t0, k);
    RunInv(run, steps, k);
    FlushPending(run[k], steps[k], url);
    FlushCatchesUp(run[k], url, t0, c, ProgressAt(run, steps, starts, url, k));
  }

  lemma NoneCaughtUp(run: seq<State>, steps: seq<Step>, starts: seq<nat>, url: string)
    requires |run| == |steps| + 1 && |starts| == |steps|
    ensures CatchesUp(run, steps, starts, url, 0)
  {
  }

  lemma BehavesSends(run: seq<State>, steps: seq<Step>, starts: seq<nat>, url: string, c: Client)
    requires Behaves(run, steps, starts, url, c)
    ensures Sends(run, steps, starts, url, c)
  {
  }

  /** If the writer restarts only after commits that ended well, the stream is applied exactly once if and
      only if every first flush after a restart comes when the client has caught up. */
  lemma ExactlyWhen(run: seq<State>, steps: seq<Step>, starts: seq<nat>, url: string, c: Client, t0: StoredTable,
                    n: nat)
    requires Behaves(run, steps, starts, url, c) && StartsAs(run, steps, url, t0) && IsClient(c, t0.commit)
    requires n < |run|
    ensures IsRun(run, steps) && |starts| == |steps|
    ensures ExactTill(run, steps, starts, url, c, n) <==> CatchesUp(run, steps, starts, url, n)
  {
    hide *;
    BehavesSends(run, steps, starts, url, c);
    ExactlyIff(run, steps, starts, url, c, n);
    SkipsWhen(run, steps, starts, url, c, t0, n);
  }

  // ---------------------------------------------------------------------------------------------
  // The table
  // ---------------------------------------------------------------------------------------------

  lemma SentChanges(applied: seq<DataSyncItem>, c: Client, n: nat)
    requires AreSent(applied, c, n) && ShapedItems(applied)
    ensures ShapedItems(ItemsOf(c.stream[..n])) && AllChanges(applied) == AllChanges(ItemsOf(c.stream[..n]))
  {
    var items := ItemsOf(c.stream[..n]);
    forall i | 0 <= i < n ensures items[i].schema == applied[i].schema && items[i].batch == applied[i].batch {
    }
  }

  lemma MadeOfSent(t: StoredTable, t0: StoredTable, applied: seq<DataSyncItem>, c: Client, n: nat)
    requires IsMadeOf(t, t0, applied) && AreSent(applied, c, n)
    ensures n <= |c.stream| && t.cols == t0.cols && ShapedItems(ItemsOf(c.stream[..n]))
    ensures t.bag == ApplyBag(t0.cols, t0.bag, AllChanges(ItemsOf(c.stream[..n])))
  {
    hide ApplyBag, ShapedItems, AllChanges;
    SentChanges(applied, c, n);
  }

  lemma ExactIs(run: seq<State>, steps: seq<Step>, starts: seq<nat>, url: string, c: Client, k: nat)
    requires IsRun(run, steps) && |starts| == |steps| && k < |run| && IsExact(run, steps, starts, url, c, k)
    ensures AreSent(AppliedTo(run, steps, url, k), c, ProgressAt(run, steps, starts, url, k).held)
  {
    hide IsRun, AppliedTo, ProgressAt, AreSent;
  }

  /** Exactly once: where the stream was applied exactly once, with any number of restarts, the table is
      what its first `held` messages leave when all their raw rows are replayed once each in the order of
      the stream. */
  lemma ExactlyOnce(run: seq<State>, steps: seq<Step>, starts: seq<nat>, url: string, c: Client, t0: StoredTable,
                    t: Table, k: nat)
    requires IsRun(run, steps) && |starts| == |steps| && k < |run| && IsExact(run, steps, starts, url, c, k)
    requires StartsAs(run, steps, url, t0) && url in run[k].tables
    requires Squashables(c.stream) && AllPk(t) && Represents(t0.bag, t) && StreamOk(t0.cols, t, RawChanges(c.stream))
    ensures |run| == |steps| + 1
    ensures var held := ProgressAt(run, steps, starts, url, k).held;
      && held <= |c.stream| && AllSquashed(c.stream[..held]) && run[k].tables[url].cols == t0.cols
      && Represents(run[k].tables[url].bag, Replay(t0.cols, t, RawChanges(c.stream[..held])))
  {
    hide *;
    RunSize(run, steps);
    RunMakes(run, steps, url, t0, k);
    ExactIs(run, steps, starts, url, c, k);
    SentConverges(run[k].tables[url], t0, AppliedTo(run, steps, url, k), c,
                  ProgressAt(run, steps, starts, url, k).held, t);
  }

  lemma SentConverges(stored: StoredTable, t0: StoredTable, applied: seq<DataSyncItem>, c: Client, n: nat, t: Table)
    requires IsMadeOf(stored, t0, applied) && AreSent(applied, c, n)
    requires Squashables(c.stream) && AllPk(t) && Represents(t0.bag, t) && StreamOk(t0.cols, t, RawChanges(c.stream))
    ensures n <= |c.stream| && AllSquashed(c.stream[..n]) && stored.cols == t0.cols
    ensures Represents(stored.bag, Replay(t0.cols, t, RawChanges(c.stream[..n])))
  {
    hide *;
    MadeOfSent(stored, t0, applied, c, n);
    assert c.stream == c.stream[..n] + c.stream[n..];
    PartsConverge(t0.cols, t0.bag, t, c.stream[..n], c.stream[n..]);
  }

  lemma RunSize(run: seq<State>, steps: seq<Step>)
    requires IsRun(run, steps)
    ensures |run| == |steps| + 1
  {
  }

  // ---------------------------------------------------------------------------------------------
  // Durable numbers
  // ---------------------------------------------------------------------------------------------

  /** Every message of the table up to transaction `i` is among those that the table holds. */
  ghost predicate HeldUpTo(log: seq<LogItem>, pr: Progress, i: nat) {
    forall j :: 0 <= j < |log| && log[j].item.txId <= i ==> pr.start + j < pr.held
  }

  lemma FlushedHeld(s: State, url: string, pr: Progress, i: nat)
    requires Flushed(s, url, i) && pr.start + DoneOf(s.h, url) <= pr.held
    ensures HeldUpTo(LogOf(s.h, url), pr, i)
  {
    hide NoReplay, ApplyBag, ShapedItems, AllChanges;
  }

  lemma DurableFlushed(s: State, url: string, o: string, i: nat)
    requires DurableAt(s, o, i)
    ensures Flushed(s, url, i)
  {
    hide Flushed;
  }

  /** With replays too: the messages of a transaction with a reported durable number, and of all
      transactions before it, are among those that the table holds, once each by `ExactlyOnce`. */
  lemma DurableHeld(run: seq<State>, steps: seq<Step>, starts: seq<nat>, url: string, c: Client, k: nat, o: string)
    requires Sends(run, steps, starts, url, c) && k < |run| && o in run[k].m.durable
    ensures |run| == |steps| + 1 && |starts| == |steps|
    ensures exists i :: DurableAt(run[k], o, i)
                        && HeldUpTo(LogOf(run[k].h, url), ProgressAt(run, steps, starts, url, k), i)
  {
    hide *;
    NothingDone(run, steps, starts, url, c);
    DoneIsHeld(run, steps, starts, url, c, k);
    DurabilitySafety(run, steps, k, o);
    var i: nat :| DurableAt(run[k], o, i);
    DurableFlushed(run[k], url, o, i);
    FlushedHeld(run[k], url, ProgressAt(run, steps, starts, url, k), i);
  }
}
