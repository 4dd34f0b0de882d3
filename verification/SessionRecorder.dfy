/**
 The recorder object: its queue, gates and counters, changed in place by the handlers,
 each held to the corresponding step of `SessionLog`.
 */
module SessionRecorder {
  import opened Options
  import opened SessionLog

  lemma Moved(batch: seq<Event>, rest: seq<Event>, queue: seq<Event>)
    requires batch + rest == queue && rest != []
    ensures rest[0] == queue[|batch|]
    ensures (batch + [rest[0]]) + rest[1..] == queue
  {
  }

  lemma Parted(batch: seq<Event>, rest: seq<Event>, queue: seq<Event>)
    requires batch + rest == queue
    ensures batch == queue[..|batch|] && rest == queue[|batch|..]
  {
  }

  class Recorder {
    var bound: bool
    var acceptingEvents: bool
    var captureFailure: Option<Code>
    var eventQueue: seq<Event>
    var pendingMessageEnds: seq<Event>
    var flush: Option<Flight>
    var flushTimer: bool
    var outstandingRecords: int
    var outstandingBytes: int
    var nextEventSeq: nat
    var stopped: bool
    ghost var syncing: nat
    ghost var persisted: seq<nat>
    ghost var dropped: bool
    ghost var drift: int

    constructor ()
      ensures View() == Start()
    {
      bound, acceptingEvents, captureFailure := false, true, None;
      eventQueue, pendingMessageEnds, flush, flushTimer := [], [], None, false;
      outstandingRecords, outstandingBytes, nextEventSeq, stopped := 0, 0, 1, false;
      syncing, persisted, dropped, drift := 0, [], false, 0;
    }

    ghost function View(): Log
      reads this
    {
      Log(bound, acceptingEvents, captureFailure, eventQueue, pendingMessageEnds, flush, flushTimer,
          outstandingRecords, outstandingBytes, nextEventSeq, persisted, stopped, syncing, dropped, drift)
    }

    method Fail(code: Code)
      modifies this`captureFailure, this`acceptingEvents
      ensures View() == FailCapture(old(View()), code)
      ensures captureFailure == if old(captureFailure).Some? then old(captureFailure) else Some(code)
      ensures acceptingEvents == (old(captureFailure).Some? && old(acceptingEvents))
    {
      if captureFailure.Some? { return; }
      captureFailure := Some(code);
      acceptingEvents := false;
    }

    method QueuedBytes() returns (sum: nat)
      ensures sum == Bytes(eventQueue)
    {
      sum := 0;
      for i := 0 to |eventQueue|
        invariant sum == Bytes(eventQueue[..i])
      {
        assert eventQueue[..i + 1][..i] == eventQueue[..i];
        sum := sum + eventQueue[i].bytes;
      }
      assert eventQueue[..|eventQueue|] == eventQueue;
    }

    /** Take events off the front while they fit into one batch. */
    method TakeBatch() returns (batch: seq<Event>)
      modifies this`eventQueue
      ensures var n := BatchLength(old(eventQueue), 0, 0);
        batch == old(eventQueue)[..n] && eventQueue == old(eventQueue)[n..]
    {
      batch := [];
      var bytes: nat := 0;
      ghost var queue := eventQueue;
      while eventQueue != [] && |batch| < FLUSH_MAX_RECORDS
        invariant batch + eventQueue == queue
        invariant BatchLength(queue, 0, 0) == BatchLength(queue, |batch|, bytes)
        decreases |eventQueue|
      {
        var next := eventQueue[0];
        Moved(batch, eventQueue, queue);
        if batch != [] && FLUSH_MAX_BYTES < bytes + next.bytes { break; }
        batch := batch + [next];
        eventQueue := eventQueue[1..];
        bytes := bytes + next.bytes;
      }
      Parted(batch, eventQueue, queue);
    }

    method StartFlush()
      modifies this`flushTimer, this`flush, this`eventQueue
      ensures View() == SessionLog.StartFlush(old(View()))
      ensures pendingMessageEnds != [] || old(flush).Some? || old(eventQueue) == [] ==> View() == old(View())
      ensures pendingMessageEnds == [] && old(flush).None? && old(eventQueue) != [] ==>
        !flushTimer && flush.Some? && !flush.value.done && flush.value.batch != [] &&
        flush.value.batch + eventQueue == old(eventQueue)
    {
      if pendingMessageEnds != [] || flush.Some? || eventQueue == [] { return; }
      flushTimer := false;
      var batch := TakeBatch();
      flush := Some(Flight(batch, false));
    }

    method ScheduleFlush()
      modifies this`flushTimer
      ensures View() == SessionLog.ScheduleFlush(old(View()))
      ensures flushTimer == (old(flushTimer) || (pendingMessageEnds == [] && flush.None?))
    {
      if pendingMessageEnds != [] || flushTimer || flush.Some? { return; }
      flushTimer := true;
    }

    method FlushOrSchedule()
      modifies this`flushTimer, this`flush, this`eventQueue
      ensures View() == SessionLog.FlushOrSchedule(old(View()))
    {
      var bytes := QueuedBytes();
      if FLUSH_MAX_RECORDS <= |eventQueue| || FLUSH_MAX_BYTES <= bytes { StartFlush(); } else { ScheduleFlush(); }
    }

    /** Refuse, or price and queue under the next number. */
    method Push(bytes: nat, externalizable: bool) returns (queued: bool)
      modifies this`captureFailure, this`acceptingEvents, this`nextEventSeq, this`eventQueue,
               this`outstandingRecords, this`outstandingBytes
      ensures (View(), queued) == Enqueued(old(View()), bytes, externalizable)
      ensures var open := bound && old(acceptingEvents) && old(captureFailure).None?;
        var large := EVENT_MAX_BYTES < bytes && !externalizable;
        var full := QUEUE_MAX_RECORDS < old(outstandingRecords) + 1 || QUEUE_MAX_BYTES < old(outstandingBytes) + bytes;
        && (queued <==> open && !large && !full)
        && (queued ==> eventQueue == old(eventQueue) + [Event(old(nextEventSeq), bytes)])
        && (!queued ==> eventQueue == old(eventQueue))
        && captureFailure == if open && large then Some(TooLarge) else if open && full then Some(Overflow)
                             else old(captureFailure)
    {
      if !bound || !acceptingEvents || captureFailure.Some? { return false; }
      if EVENT_MAX_BYTES < bytes && !externalizable {
        Fail(TooLarge);
        return false;
      }
      if QUEUE_MAX_RECORDS < outstandingRecords + 1 || QUEUE_MAX_BYTES < outstandingBytes + bytes {
        Fail(Overflow);
        return false;
      }
      eventQueue := eventQueue + [Event(nextEventSeq, bytes)];
      nextEventSeq := nextEventSeq + 1;
      outstandingRecords := outstandingRecords + 1;
      outstandingBytes := outstandingBytes + bytes;
      return true;
    }

    method Enqueue(bytes: nat, externalizable: bool) returns (queued: bool)
      modifies this
      ensures View() == AfterEnqueue(old(View()), bytes, externalizable)
    {
      queued := Push(bytes, externalizable);
      if queued { FlushOrSchedule(); }
    }

    method HandleMessageEnd(bytes: nat)
      modifies this
      ensures View() == AfterMessageEnd(old(View()), bytes)
      ensures !flushTimer && flush == old(flush)
      ensures var added := if eventQueue == old(eventQueue) then [] else [Event(old(nextEventSeq), bytes)];
        eventQueue == old(eventQueue) + added && pendingMessageEnds == old(pendingMessageEnds) + added
    {
      flushTimer := false;
      var seqNo := nextEventSeq;
      var queued := Push(bytes, false);
      if queued {
        pendingMessageEnds := pendingMessageEnds + [Event(seqNo, bytes)];
        flushTimer := false;
      }
    }

    /** The final payload of one open end: its queue entry, if it is still there, and the total change. */
    method PriceEnd(end: Event, size: nat)
      modifies this`eventQueue, this`outstandingBytes, this`drift
      ensures View() == old(View()).(queue := Priced(old(eventQueue), end.seqNo, size),
                                     bytes := old(outstandingBytes) + size - end.bytes,
                                     drift := if Queued(old(eventQueue), end.seqNo) then old(drift)
                                              else old(drift) + size - end.bytes)
    {
      drift := if Queued(eventQueue, end.seqNo) then drift else drift + size - end.bytes;
      outstandingBytes := outstandingBytes + (size - end.bytes);
      eventQueue := Priced(eventQueue, end.seqNo, size);
    }

    /** `synchronize` up to its `await`: whether it goes on to record the entries. */
    method Synchronize() returns (waits: bool)
      modifies this`syncing
      ensures View() == AfterSynchronize(old(View()))
      ensures waits == (pendingMessageEnds != [])
    {
      if pendingMessageEnds == [] { return false; }
      syncing := syncing + 1;
      return true;
    }

    /** `synchronize` after the entries were recorded; `sizes` are the sizes of the settled records. */
    method Settle(sizes: seq<nat>)
      requires 0 < syncing && |sizes| == |pendingMessageEnds|
      modifies this
      ensures View() == AfterSettle(old(View()), sizes)
    {
      syncing := syncing - 1;
      ghost var all := Reprice(View(), sizes);
      var i := 0;
      while pendingMessageEnds != []
        invariant 0 <= i <= |sizes| && |pendingMessageEnds| == |sizes| - i
        invariant all == Reprice(View(), sizes[i..])
        decreases |pendingMessageEnds|
        modifies this
      {
        assert sizes[i..][1..] == sizes[i + 1..];
        var end := pendingMessageEnds[0];
        pendingMessageEnds := pendingMessageEnds[1..];
        PriceEnd(end, sizes[i]);
        i := i + 1;
      }
      FlushOrSchedule();
    }

    /** Empty the queue, giving its records and bytes back. */
    method DropQueue()
      modifies this`eventQueue, this`outstandingRecords, this`outstandingBytes
      ensures eventQueue == []
      ensures outstandingRecords == old(outstandingRecords) - |old(eventQueue)|
      ensures outstandingBytes == old(outstandingBytes) - Bytes(old(eventQueue))
    {
      ghost var queue := eventQueue;
      var k := 0;
      while eventQueue != []
        invariant 0 <= k <= |queue| && queue[k..] == eventQueue
        invariant outstandingRecords == old(outstandingRecords) - k
        invariant outstandingBytes == old(outstandingBytes) - Bytes(queue[..k])
        decreases |eventQueue|
      {
        assert queue[..k + 1][..k] == queue[..k] && eventQueue[0] == queue[k];
        outstandingRecords := outstandingRecords - 1;
        outstandingBytes := outstandingBytes - eventQueue[0].bytes;
        eventQueue := eventQueue[1..];
        k := k + 1;
      }
      assert queue[..k] == queue;
    }

    method AppendStored()
      requires flush.Some?
      modifies this`flush, this`persisted
      ensures View() == AfterAppend(old(View()), true, 0, Other)
      ensures flush == Some(Flight(old(flush).value.batch, true))
      ensures persisted == old(persisted) + Numbers(old(flush).value.batch)
    {
      var batch := flush.value.batch;
      flush := Some(Flight(batch, true));
      persisted := persisted + Numbers(batch);
    }

    /** A failed append may leave `written` of its records behind; what is queued is given up. */
    method AppendFailed(written: nat, code: Code)
      requires flush.Some? && written <= |flush.value.batch|
      modifies this
      ensures View() == AfterAppend(old(View()), false, written, code)
      ensures eventQueue == [] && flush == Some(Flight(old(flush).value.batch, true))
      ensures captureFailure == if old(captureFailure).Some? then old(captureFailure) else Some(code)
      ensures persisted == old(persisted) + Numbers(old(flush).value.batch[..written])
      ensures outstandingRecords == old(outstandingRecords) - |old(eventQueue)|
    {
      var batch := flush.value.batch;
      flush := Some(Flight(batch, true));
      persisted := persisted + Numbers(batch[..written]);
      dropped := true;
      Fail(code);
      DropQueue();
    }

    method GiveBack(batch: seq<Event>)
      modifies this`outstandingRecords, this`outstandingBytes
      ensures outstandingRecords == old(outstandingRecords) - |batch|
      ensures outstandingBytes == old(outstandingBytes) - Bytes(batch)
    {
      for i := 0 to |batch|
        invariant outstandingRecords == old(outstandingRecords) - i
        invariant outstandingBytes == old(outstandingBytes) - Bytes(batch[..i])
      {
        assert batch[..i + 1][..i] == batch[..i];
        outstandingRecords := outstandingRecords - 1;
        outstandingBytes := outstandingBytes - batch[i].bytes;
      }
      assert batch[..|batch|] == batch;
    }

    /** The `finally` of a flush: give back the batch, and go on if there is more. */
    method Landed()
      requires flush.Some?
      modifies this
      ensures View() == AfterFinally(old(View()))
      ensures outstandingRecords == old(outstandingRecords) - |old(flush).value.batch|
      ensures outstandingBytes == old(outstandingBytes) - Bytes(old(flush).value.batch)
      ensures flush.Some? <==>
        old(eventQueue) != [] && captureFailure != Some(WriteFailed) && pendingMessageEnds == []
      ensures flush.None? ==> eventQueue == old(eventQueue)
    {
      GiveBack(flush.value.batch);
      flush := None;
      if eventQueue != [] && captureFailure != Some(WriteFailed) { StartFlush(); }
    }

    method Stop()
      modifies this
      ensures View() == AfterStop(old(View()))
      ensures stopped && !acceptingEvents && pendingMessageEnds == [] && !flushTimer
      ensures old(flush).None? ==> (flush.Some? <==> old(eventQueue) != [])
      ensures old(flush).Some? ==> flush == old(flush) && eventQueue == old(eventQueue)
    {
      stopped := true;
      acceptingEvents := false;
      pendingMessageEnds := [];
      flushTimer := false;
      StartFlush();
    }
  }
}
