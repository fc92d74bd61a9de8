/** The sync command of the Flight frontend: probe, or enqueue and then flush, and report the sequence
    numbers. */
module FlightHandler {
  import opened Basics
  import opened SyncState
  import opened SyncStore
  import opened SyncTheorems
  import opened Writer

  datatype Response =
    | Response(accepted: bool, memory: Option<nat>, durable: Option<nat>, first: bool)
    | Rejected(reason: Outcome)
    | FlushError

  /** The sequence numbers in a response are those of the state: the memory number of the origin, and a
      durable number that only covers committed transactions. */
  ghost predicate Reports(r: Response, s: State, origin: string) {
    && r.Response? && r.accepted
    && (r.memory.Some? <==> origin in s.m.memory) && (r.memory.Some? ==> r.memory.value == s.m.memory[origin])
    && (r.durable.Some? <==> origin in s.m.durable) && (r.durable.Some? ==> r.durable.value == s.m.durable[origin])
    && (r.durable.Some? ==> exists i :: DurableAt(s, origin, i))
  }

  /** What is left after flushing: no table is due, or the one that is due cannot be flushed, or flushing
      panics for want of a table. */
  ghost predicate HasFlushed(r: Response, s: State, world: nat -> World, config: Config) {
    || (r.Response? && r.accepted && exists at: nat :: Rested(s.m.syncs, s.m.size, world(at).now, config))
    || (r.FlushError? && exists at: nat :: IsBlocked(s, world(at), config))
    || (r.FlushError? && s.m.syncs == [] && config.maxBytes == 0)
  }

  lemma ReportIsSafe(s: State, origin: string, r: Response)
    requires Inv(s) && r.Response? && r.accepted
    requires (r.memory.Some? <==> origin in s.m.memory) && (r.memory.Some? ==> r.memory.value == s.m.memory[origin])
    requires r.durable.Some? <==> origin in s.m.durable
    requires r.durable.Some? ==> r.durable.value == s.m.durable[origin]
    ensures Reports(r, s, origin)
  {
    hide Inv, DurableAt;
    if r.durable.Some? {
      DurableIsCommitted(s, origin);
    }
  }

  class FlightHandler {
    const writer: Writer
    var firstSync: bool

    constructor (writer: Writer)
      ensures this.writer == writer && firstSync
    {
      this.writer := writer;
      firstSync := true;
    }

    /** Only the first command since the start is answered with `first`. A probe, or a command that does
        not get the write lock, leaves the writer alone; otherwise the message is enqueued, and if it is
        not refused, the tables that are due are flushed. */
    method ProcessSyncCmd(msg: Message, locked: bool, world: nat -> World) returns (r: Response)
      requires writer.Valid() && MessageFits(writer.history, msg)
      requires forall i :: Faithful(world(i)) && msg.now <= world(i).now
      modifies this, writer
      ensures writer.Valid() && !firstSync
      ensures r.Response? ==> r.first == old(firstSync)
      ensures r.Response? && r.accepted ==> Reports(r, writer.Abstract(), msg.origin)
      ensures IsProbe(msg) ==> r.Response? && r.accepted
      ensures IsProbe(msg) || !locked ==> writer.Abstract() == old(writer.Abstract())
      ensures !IsProbe(msg) && !locked ==> r == Response(false, None, None, old(firstSync))
      ensures !IsProbe(msg) && locked ==>
        && Enabled(old(writer.Abstract()), Enqueue(msg))
        && old(writer.run) + [Next(old(writer.Abstract()), Enqueue(msg))] <= writer.run
        && FlushesOnly(old(writer.steps) + [Enqueue(msg)], writer.steps)
        && DueOnly(writer.run, writer.steps, |old(writer.steps)| + 1, world, writer.config)
      ensures !IsProbe(msg) && locked ==>
        var outcome := EnqueueOutcome(old(writer.Mem()), msg);
        if outcome != Accepted
        then r == Rejected(outcome) && writer.Abstract() == Next(old(writer.Abstract()), Enqueue(msg))
        else HasFlushed(r, writer.Abstract(), world, writer.config)
    {
      hide Inv, IsRun, Next, Rested, Faithful, EnqueueOutcome, StoredAll, DurableAt, MessageFits, IsBlocked, IsDue;
      var first := firstSync;
      firstSync := false;
      if msg.rows == [] && msg.sequence.None? {
        var memory, durable := writer.StoredSequences(msg.origin);
        r := Response(true, memory, durable, first);
        ReportIsSafe(writer.Abstract(), msg.origin, r);
        return;
      }
      if !locked {
        return Response(false, None, None, first);
      }
      var outcome := writer.EnqueueSync(msg);
      NothingDue(writer.run, writer.steps, world, writer.config);
      if outcome != Accepted {
        return Rejected(outcome);
      }
      ClockIs(old(writer.Abstract()), msg);
      var flushed, _ := writer.Flush(world);
      if flushed != Flushed {
        return FlushError;
      }
      var memory, durable := writer.StoredSequences(msg.origin);
      r := Response(true, memory, durable, first);
      ReportIsSafe(writer.Abstract(), msg.origin, r);
    }
  }

  lemma ClockIs(s: State, msg: Message)
    requires MessageOk(s.h, msg)
    ensures Next(s, Enqueue(msg)).h.clock == msg.now
  {
  }
}
