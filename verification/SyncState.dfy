/** The data-sync writer as a state machine over values: its in-memory queues, the committed tables,
    and the history of what it accepted and committed. */
module SyncState {
  import opened Basics
  import opened Tables
  import opened Schema
  import Squash
  import opened Prune

  /** A transaction in memory: its sequence number is known once its last message has arrived, and
      its locations are the tables with unflushed changes. */
  datatype Transaction = Transaction(id: nat, origin: string, sequence: Option<nat>, locations: set<string>)

  /** The pending changes of one table. */
  datatype Entry = Entry(url: string, size: nat, rows: nat, insertionTime: nat, items: seq<DataSyncItem>)

  /** The last complete transaction of a commit, and whether an incomplete one was committed after it. */
  datatype CommitInfo = CommitInfo(origin: string, sequence: nat, newTx: bool)

  datatype Memory = Memory(
    txs: seq<Transaction>,
    syncs: seq<Entry>,
    size: nat,
    memory: map<string, nat>,
    durable: map<string, nat>,
    nextTx: nat)

  const EMPTY := Memory([], [], 0, map[], map[], 0)

  datatype Message = Message(
    url: string,
    origin: string,
    sequence: Option<nat>,
    schema: SyncSchema,
    rows: Batch,
    size: nat,
    now: nat)

  datatype Outcome = Accepted | ForeignOrigin | EmptyTransaction | SquashFailed

  // ---------------------------------------------------------------------------------------------
  // Enqueueing
  // ---------------------------------------------------------------------------------------------

  predicate HasOpenTx(m: Memory) {
    m.txs != [] && m.txs[|m.txs| - 1].sequence.None?
  }

  function TxOutcome(m: Memory, msg: Message): Outcome {
    if HasOpenTx(m) then
      if msg.origin != m.txs[|m.txs| - 1].origin then ForeignOrigin else Accepted
    else if msg.rows == [] && msg.sequence.Some? then EmptyTransaction
    else Accepted
  }

  /** The transaction the message joins, after joining. */
  function JoinedTx(m: Memory, msg: Message): Transaction
    requires TxOutcome(m, msg) == Accepted
  {
    if HasOpenTx(m) then
      var tx := m.txs[|m.txs| - 1];
      tx.(sequence := msg.sequence,
          locations := if msg.rows != [] then tx.locations + {msg.url} else tx.locations)
    else Transaction(m.nextTx, msg.origin, msg.sequence, {msg.url})
  }

  function JoinTx(m: Memory, msg: Message): Memory
    requires TxOutcome(m, msg) == Accepted
  {
    if HasOpenTx(m) then m.(txs := m.txs[..|m.txs| - 1] + [JoinedTx(m, msg)])
    else m.(txs := m.txs + [JoinedTx(m, msg)], nextTx := m.nextTx + 1)
  }

  /** Position of the table's entry, or the number of entries. */
  function EntryOf(syncs: seq<Entry>, url: string): (e: nat)
    ensures e <= |syncs|
    ensures e < |syncs| ==> syncs[e].url == url
  {
    if syncs == [] then 0
    else if syncs[0].url == url then 0
    else 1 + EntryOf(syncs[1..], url)
  }

  function PushItem(syncs: seq<Entry>, msg: Message, item: DataSyncItem): seq<Entry> {
    var e := EntryOf(syncs, msg.url);
    if e < |syncs| then
      syncs[e := syncs[e].(
        size := syncs[e].size + msg.size,
        rows := syncs[e].rows + |item.batch|,
        items := syncs[e].items + [item])]
    else syncs + [Entry(msg.url, msg.size, |item.batch|, msg.now, [item])]
  }

  predicate SquashPanics(msg: Message)
    requires Shaped(msg.schema, msg.rows)
  {
    msg.rows != [] && Columns(msg.schema, Changed) != [] && Squash.SquashRows(msg.schema, msg.rows) == []
  }

  function EnqueueOutcome(m: Memory, msg: Message): Outcome
    requires Shaped(msg.schema, msg.rows)
  {
    if TxOutcome(m, msg) != Accepted then TxOutcome(m, msg)
    else if SquashPanics(msg) then SquashFailed
    else Accepted
  }

  function ItemOf(m: Memory, msg: Message): DataSyncItem
    requires Shaped(msg.schema, msg.rows) && TxOutcome(m, msg) == Accepted
  {
    DataSyncItem(JoinedTx(m, msg).id, msg.schema, Squash.SquashRows(msg.schema, msg.rows))
  }

  function EnqueueMem(m: Memory, msg: Message): Memory
    requires Shaped(msg.schema, msg.rows)
  {
    if TxOutcome(m, msg) != Accepted then m
    else if SquashPanics(msg) then JoinTx(m, msg)
    else
      var m1 := JoinTx(m, msg);
      var m2 := if msg.rows == [] then m1
        else m1.(syncs := PushItem(m.syncs, msg, ItemOf(m, msg)), size := m.size + msg.size);
      if msg.sequence.None? then m2
      else m2.(memory := m.memory[msg.origin := msg.sequence.value])
  }

  // ---------------------------------------------------------------------------------------------
  // Flushing
  // ---------------------------------------------------------------------------------------------

  /** The transaction with the given id. */
  function TxWithId(txs: seq<Transaction>, id: nat): Option<Transaction> {
    if txs == [] then None
    else if txs[0].id == id then Some(txs[0])
    else TxWithId(txs[1..], id)
  }

  predicate FromCommitted(txs: seq<Transaction>, info: CommitInfo, item: DataSyncItem) {
    var tx := TxWithId(txs, item.txId);
    tx.Some? && tx.value.origin == info.origin && tx.value.sequence == Some(info.sequence)
  }

  /** Position just after the first item of the committed transaction, or zero. */
  function SkipCount(txs: seq<Transaction>, last: Option<CommitInfo>, items: seq<DataSyncItem>, from: nat): (n: nat)
    requires from <= |items|
    ensures n <= |items|
    decreases |items| - from
  {
    if last.None? || from == |items| then 0
    else if FromCommitted(txs, last.value, items[from]) then from + 1
    else SkipCount(txs, last, items, from + 1)
  }

  function Kept(txs: seq<Transaction>, last: Option<CommitInfo>, items: seq<DataSyncItem>): seq<DataSyncItem> {
    items[SkipCount(txs, last, items, 0)..]
  }

  /** The last complete transaction among the items. */
  function LastComplete(txs: seq<Transaction>, items: seq<DataSyncItem>, newTx: bool): Option<CommitInfo> {
    if items == [] then None
    else
      var n := |items| - 1;
      var tx := TxWithId(txs, items[n].txId);
      if tx.Some? && tx.value.sequence.Some? then Some(CommitInfo(tx.value.origin, tx.value.sequence.value, newTx))
      else LastComplete(txs, items[..n], newTx)
  }

  predicate EndsOpen(txs: seq<Transaction>, items: seq<DataSyncItem>) {
    items != [] &&
    var tx := TxWithId(txs, items[|items| - 1].txId);
    tx.Some? && tx.value.sequence.None?
  }

  function NewCommit(txs: seq<Transaction>, last: Option<CommitInfo>, items: seq<DataSyncItem>): Option<CommitInfo> {
    var kept := Kept(txs, last, items);
    var newTx := EndsOpen(txs, kept);
    var full := LastComplete(txs, kept, newTx);
    if full.Some? then full
    else if last.Some? then Some(last.value.(newTx := newTx))
    else None
  }

  /** Release the table from every transaction that has an item in the flushed entry. */
  function ReleaseTx(tx: Transaction, url: string, items: seq<DataSyncItem>): Transaction {
    if exists i :: 0 <= i < |items| && items[i].txId == tx.id then tx.(locations := tx.locations - {url}) else tx
  }

  function ReleaseTxs(txs: seq<Transaction>, url: string, items: seq<DataSyncItem>): (r: seq<Transaction>)
    ensures |r| == |txs| && forall i :: 0 <= i < |txs| ==> r[i] == ReleaseTx(txs[i], url, items)
  {
    seq(|txs|, i requires 0 <= i < |txs| => ReleaseTx(txs[i], url, items))
  }

  predicate IsDurable(tx: Transaction) {
    tx.sequence.Some? && tx.locations == {}
  }

  /** Length of the prefix of complete and fully flushed transactions. */
  function DurablePrefix(txs: seq<Transaction>): (n: nat)
    ensures n <= |txs|
    ensures forall i :: 0 <= i < n ==> IsDurable(txs[i])
    ensures n < |txs| ==> !IsDurable(txs[n])
  {
    if txs == [] || !IsDurable(txs[0]) then 0 else 1 + DurablePrefix(txs[1..])
  }

  /** The latest sequence number of each origin, in transaction order, on top of `d`. */
  function AddSequences(d: map<string, nat>, txs: seq<Transaction>): map<string, nat> {
    if txs == [] then d
    else
      var n := |txs| - 1;
      var d' := AddSequences(d, txs[..n]);
      if txs[n].sequence.Some? then d'[txs[n].origin := txs[n].sequence.value] else d'
  }

  /** Drop an entry and its size. */
  function RemoveEntry(m: Memory, e: nat): Memory
    requires e < |m.syncs|
  {
    m.(syncs := m.syncs[..e] + m.syncs[e + 1..],
       size := if m.syncs[e].size <= m.size then m.size - m.syncs[e].size else 0)
  }

  function AdvanceDurable(m: Memory): Memory {
    var n := DurablePrefix(m.txs);
    m.(txs := m.txs[n..], durable := AddSequences(m.durable, m.txs[..n]))
  }

  function CommitMem(m: Memory, url: string): Memory
    requires EntryOf(m.syncs, url) < |m.syncs|
  {
    var e := EntryOf(m.syncs, url);
    AdvanceDurable(RemoveEntry(m.(txs := ReleaseTxs(m.txs, url, m.syncs[e].items)), e))
  }

  // ---------------------------------------------------------------------------------------------
  // Committed tables and history
  // ---------------------------------------------------------------------------------------------

  datatype StoredTable = StoredTable(cols: set<string>, bag: multiset<Row>, commit: Option<CommitInfo>)

  ghost function Listed(m: multiset<Row>): (s: seq<Row>)
    ensures multiset(s) == m
  {
    if m == multiset{} then [] else var r :| r in m; [r] + Listed(m - multiset{r})
  }

  ghost function ApplyBag(cols: set<string>, bag: multiset<Row>, batches: seq<seq<Change>>): multiset<Row> {
    multiset(ApplyAll(cols, Listed(bag), batches))
  }

  lemma ApplyBagOf(cols: set<string>, rows: seq<Row>, batches: seq<seq<Change>>)
    ensures ApplyBag(cols, multiset(rows), batches) == multiset(ApplyAll(cols, rows, batches))
  {
    ApplyAllBag(cols, Listed(multiset(rows)), rows, batches);
  }

  lemma ApplyBagConcat(cols: set<string>, bag: multiset<Row>, a: seq<seq<Change>>, b: seq<seq<Change>>)
    ensures ApplyBag(cols, ApplyBag(cols, bag, a), b) == ApplyBag(cols, bag, a + b)
  {
    ApplyBagOf(cols, ApplyAll(cols, Listed(bag), a), b);
    ApplyAllConcat(cols, Listed(bag), a, b);
  }

  datatype TxRecord = TxRecord(origin: string, sequence: Option<nat>)

  /** An accepted message: the rows as received, and the item queued for them. */
  datatype LogItem = LogItem(raw: Batch, item: DataSyncItem)

  /** What happened since the last (re)start: all transactions in order of their first message, the same
      as told to the client (a transaction whose last message failed is not told its sequence number),
      the accepted messages per table, how many of them are no longer pending, which items were applied,
      the tables as they were found or created, whether no message failed after its transaction was
      updated, and whether some queue was skipped whole. */
  datatype History = History(
    txs: seq<TxRecord>,
    told: seq<TxRecord>,
    log: map<string, seq<LogItem>>,
    done: map<string, nat>,
    applied: map<string, seq<DataSyncItem>>,
    base: map<string, StoredTable>,
    intact: bool,
    skipped: bool,
    clock: nat)

  function Started(tables: map<string, StoredTable>, clock: nat): History {
    History([], [], map[], map[], map[], tables, true, false, clock)
  }

  datatype State = State(m: Memory, tables: map<string, StoredTable>, h: History)

  function LogOf(h: History, url: string): seq<LogItem> {
    if url in h.log then h.log[url] else []
  }

  function DoneOf(h: History, url: string): nat {
    if url in h.done then h.done[url] else 0
  }

  function AppliedOf(h: History, url: string): seq<DataSyncItem> {
    if url in h.applied then h.applied[url] else []
  }

  function ItemsOf(log: seq<LogItem>): (items: seq<DataSyncItem>)
    ensures |items| == |log| && forall i :: 0 <= i < |log| ==> items[i] == log[i].item
  {
    seq(|log|, i requires 0 <= i < |log| => log[i].item)
  }

  // ---------------------------------------------------------------------------------------------
  // Steps
  // ---------------------------------------------------------------------------------------------

  datatype Step =
    | Enqueue(msg: Message)
    | Create(url: string, cols: set<string>)
    | Commit(url: string)
    | SkipAll(url: string)
    | Restart

  /** A message without rows and sequence number only asks for the current sequence numbers, and is
      answered without the writer. */
  predicate IsProbe(msg: Message) {
    msg.rows == [] && msg.sequence.None?
  }

  /** Rows fit a valid schema, the clock does not go back, and all messages for one table agree on its
      key columns. */
  ghost predicate MessageFits(h: History, msg: Message) {
    && Shaped(msg.schema, msg.rows)
    && (msg.rows != [] ==> Valid(msg.schema))
    && h.clock <= msg.now
    && (msg.rows != [] && LogOf(h, msg.url) != [] ==>
          Names(msg.schema, OldPk) == Names(LogOf(h, msg.url)[0].item.schema, OldPk))
  }

  ghost predicate MessageOk(h: History, msg: Message) {
    !IsProbe(msg) && MessageFits(h, msg)
  }

  function RecordTx(txs: seq<TxRecord>, open: bool, tx: Transaction): seq<TxRecord> {
    if open && txs != [] then txs[..|txs| - 1] + [TxRecord(tx.origin, tx.sequence)]
    else txs + [TxRecord(tx.origin, tx.sequence)]
  }

  /** The transaction as the client knows it: a failed message does not report its sequence number. */
  function ToldTx(m: Memory, msg: Message): Transaction
    requires Shaped(msg.schema, msg.rows) && TxOutcome(m, msg) == Accepted
  {
    if SquashPanics(msg) then JoinedTx(m, msg).(sequence := None) else JoinedTx(m, msg)
  }

  function LogAfter(m: Memory, h: History, msg: Message): map<string, seq<LogItem>>
    requires Shaped(msg.schema, msg.rows) && TxOutcome(m, msg) == Accepted
  {
    if SquashPanics(msg) || msg.rows == [] then h.log
    else h.log[msg.url := LogOf(h, msg.url) + [LogItem(msg.rows, ItemOf(m, msg))]]
  }

  function EnqueueHistory(m: Memory, h: History, msg: Message): History
    requires Shaped(msg.schema, msg.rows)
  {
    if TxOutcome(m, msg) != Accepted then h.(clock := msg.now)
    else
      h.(clock := msg.now,
         txs := RecordTx(h.txs, HasOpenTx(m), JoinedTx(m, msg)),
         told := RecordTx(h.told, HasOpenTx(m), ToldTx(m, msg)),
         log := LogAfter(m, h, msg),
         intact := h.intact && !SquashPanics(msg))
  }

  function CommitHistory(h: History, url: string, kept: seq<DataSyncItem>): History {
    h.(done := h.done[url := |LogOf(h, url)|], applied := h.applied[url := AppliedOf(h, url) + kept])
  }

  ghost predicate Enabled(s: State, step: Step) {
    match step
    case Enqueue(msg) => MessageOk(s.h, msg)
    case Create(url, cols) => url !in s.tables
    case Commit(url) =>
      var e := EntryOf(s.m.syncs, url);
      && e < |s.m.syncs| && url in s.tables
      && ShapedItems(s.m.syncs[e].items)
      && Kept(s.m.txs, s.tables[url].commit, s.m.syncs[e].items) != []
    case SkipAll(url) =>
      var e := EntryOf(s.m.syncs, url);
      && e < |s.m.syncs| && url in s.tables
      && Kept(s.m.txs, s.tables[url].commit, s.m.syncs[e].items) == []
    case Restart => true
  }

  ghost function Next(s: State, step: Step): State
    requires Enabled(s, step)
  {
    match step
    case Enqueue(msg) => State(EnqueueMem(s.m, msg), s.tables, EnqueueHistory(s.m, s.h, msg))
    case Create(url, cols) =>
      var t := StoredTable(cols, multiset{}, None);
      State(s.m, s.tables[url := t], s.h.(base := s.h.base[url := t]))
    case Commit(url) =>
      var items := s.m.syncs[EntryOf(s.m.syncs, url)].items;
      var t := s.tables[url];
      var kept := Kept(s.m.txs, t.commit, items);
      State(
        CommitMem(s.m, url),
        s.tables[url := StoredTable(t.cols, ApplyBag(t.cols, t.bag, AllChanges(kept)),
                                    NewCommit(s.m.txs, t.commit, items))],
        CommitHistory(s.h, url, kept))
    case SkipAll(url) =>
      State(RemoveEntry(s.m, EntryOf(s.m.syncs, url)), s.tables,
            CommitHistory(s.h, url, []).(skipped := true))
    case Restart =>
      State(EMPTY, s.tables, Started(s.tables, s.h.clock))
  }

  ghost predicate Initial(s: State) {
    s.m == EMPTY && s.h == Started(s.tables, s.h.clock)
  }

  /** A run: every state but the first follows from the one before by an enabled step. */
  ghost predicate IsRun(run: seq<State>, steps: seq<Step>) {
    && |run| == |steps| + 1 && Initial(run[0])
    && forall i :: 0 <= i < |steps| ==> Enabled(run[i], steps[i]) && run[i + 1] == Next(run[i], steps[i])
  }
}
