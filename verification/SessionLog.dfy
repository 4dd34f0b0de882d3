/**
 The session recorder's event log (`src/extension/recorder.ts`) as a state machine: a
 queue of priced events, message ends whose final form is still open, and one batch
 at a time on its way to the store. The store's append and the `finally` of a flush
 are steps of their own, so anything may happen between them.
 */
module SessionLog {
  import opened Options

  const FLUSH_MAX_RECORDS: nat := 256
  const FLUSH_MAX_BYTES: nat := 256 * 1024
  const QUEUE_MAX_RECORDS: nat := 8192
  const QUEUE_MAX_BYTES: nat := 16 * 1024 * 1024
  const EVENT_MAX_BYTES: nat := 1024 * 1024

  datatype Event = Event(seqNo: nat, bytes: nat)

  datatype Code = WriteFailed | TooLarge | Overflow | Other

  /** A batch that was taken out of the queue; `done` once the store has answered. */
  datatype Flight = Flight(batch: seq<Event>, done: bool)

  /**
   `ends` are the message ends that still await their entry id, as they stand in the
   queue. `syncing` counts the calls of `synchronize` that found an open end and now wait
   for the entries to be recorded. `persisted` is what the store holds. The last two fields
   are for the proof: `dropped` is set once an append has failed, and `drift` is what
   re-pricing dropped events has since done to `outstandingBytes`.
   */
  datatype Log = Log(bound: bool, accepting: bool, failure: Option<Code>, queue: seq<Event>, ends: seq<Event>,
                     flight: Option<Flight>, timer: bool, records: int, bytes: int, nextSeq: nat,
                     persisted: seq<nat>, stopped: bool, syncing: nat, dropped: bool, drift: int)

  function Start(): Log {
    Log(false, true, None, [], [], None, false, 0, 0, 1, [], false, 0, false, 0)
  }

  function Bytes(events: seq<Event>): nat {
    if events == [] then 0 else Bytes(events[..|events| - 1]) + events[|events| - 1].bytes
  }

  function Numbers(events: seq<Event>): seq<nat> {
    seq(|events|, i requires 0 <= i < |events| => events[i].seqNo)
  }

  // ------------------------------------------------------------------- operations

  function FailCapture(l: Log, code: Code): Log {
    if l.failure.Some? then l else l.(failure := Some(code), accepting := false)
  }

  /** How many queued events go into a batch that already holds `taken` of them with `bytes` bytes. */
  function BatchLength(queue: seq<Event>, taken: nat, bytes: nat): (n: nat)
    requires taken <= |queue|
    ensures taken <= n <= |queue|
    decreases |queue| - taken
  {
    if taken == |queue| || FLUSH_MAX_RECORDS <= taken then taken
    else if 0 < taken && FLUSH_MAX_BYTES < bytes + queue[taken].bytes then taken
    else BatchLength(queue, taken + 1, bytes + queue[taken].bytes)
  }

  function StartFlush(l: Log): Log {
    if l.ends != [] || l.flight.Some? || l.queue == [] then l
    else
      var n := BatchLength(l.queue, 0, 0);
      l.(timer := false, flight := Some(Flight(l.queue[..n], false)), queue := l.queue[n..])
  }

  function ScheduleFlush(l: Log): Log {
    if l.ends != [] || l.timer || l.flight.Some? then l else l.(timer := true)
  }

  function FlushOrSchedule(l: Log): Log {
    if FLUSH_MAX_RECORDS <= |l.queue| || FLUSH_MAX_BYTES <= Bytes(l.queue) then StartFlush(l) else ScheduleFlush(l)
  }

  predicate Fits(l: Log, bytes: nat) {
    l.records + 1 <= QUEUE_MAX_RECORDS && l.bytes + bytes <= QUEUE_MAX_BYTES
  }

  predicate Accepts(l: Log) { l.bound && l.accepting && l.failure.None? }

  /** `enqueue` up to the decision to flush: the log and whether the event was queued. */
  function Enqueued(l: Log, bytes: nat, externalizable: bool): (Log, bool) {
    if !Accepts(l) then (l, false)
    else if EVENT_MAX_BYTES < bytes && !externalizable then (FailCapture(l, TooLarge), false)
    else if !Fits(l, bytes) then (FailCapture(l, Overflow), false)
    else
      (l.(nextSeq := l.nextSeq + 1, queue := l.queue + [Event(l.nextSeq, bytes)],
          records := l.records + 1, bytes := l.bytes + bytes), true)
  }

  function AfterEnqueue(l: Log, bytes: nat, externalizable: bool): Log {
    var (l', queued) := Enqueued(l, bytes, externalizable);
    if queued then FlushOrSchedule(l') else l'
  }

  /** `handleMessageEnd`: the event stays open, and with it everything behind it. */
  function AfterMessageEnd(l: Log, bytes: nat): Log {
    var (l', queued) := Enqueued(l.(timer := false), bytes, false);
    if queued then l'.(ends := l'.ends + [Event(l.nextSeq, bytes)]) else l'
  }

  /** Give the queued event its final price; an event that was dropped from the queue only moves the total. */
  function Priced(queue: seq<Event>, seqNo: nat, bytes: nat): seq<Event> {
    if queue == [] then []
    else if queue[|queue| - 1].seqNo == seqNo then queue[..|queue| - 1] + [Event(seqNo, bytes)]
    else Priced(queue[..|queue| - 1], seqNo, bytes) + [queue[|queue| - 1]]
  }

  predicate Queued(queue: seq<Event>, seqNo: nat) { exists e <- queue :: e.seqNo == seqNo }

  /** The first open end gets its final size. */
  function PriceFirst(l: Log, size: nat): Log
    requires l.ends != []
  {
    var end := l.ends[0];
    l.(ends := l.ends[1..], queue := Priced(l.queue, end.seqNo, size), bytes := l.bytes + size - end.bytes,
       drift := if Queued(l.queue, end.seqNo) then l.drift else l.drift + size - end.bytes)
  }

  function Reprice(l: Log, sizes: seq<nat>): Log
    requires |sizes| == |l.ends|
    decreases |sizes|
  {
    if sizes == [] then l else Reprice(PriceFirst(l, sizes[0]), sizes[1..])
  }

  /** `synchronize` up to the recording of entries: without an open end it does nothing. */
  function AfterSynchronize(l: Log): Log {
    if l.ends == [] then l else Waiting(l, l.syncing + 1)
  }

  function Waiting(l: Log, calls: nat): Log { l.(syncing := calls) }

  /** A waiting `synchronize` goes on, whatever ends are open by then: all of them are settled. */
  function AfterSettle(l: Log, sizes: seq<nat>): Log
    requires 0 < l.syncing && |sizes| == |l.ends|
  {
    FlushOrSchedule(Reprice(Waiting(l, l.syncing - 1), sizes))
  }

  /** The entries could not be recorded: capture fails, and the waiting call throws. */
  function AfterReject(l: Log): Log
    requires 0 < l.syncing
  {
    FailCapture(Waiting(l, l.syncing - 1), Other)
  }

  /** The append succeeds, or fails after `written` records and takes the queue with it. */
  function AfterAppend(l: Log, ok: bool, written: nat, code: Code): Log
    requires l.flight.Some?
    requires ok || written <= |l.flight.value.batch|
  {
    var batch := l.flight.value.batch;
    var l1 := l.(flight := Some(Flight(batch, true)));
    if ok then l1.(persisted := l.persisted + Numbers(batch))
    else
      FailCapture(l1, code).(persisted := l.persisted + Numbers(batch[..written]), queue := [],
                             records := l.records - |l.queue|, bytes := l.bytes - Bytes(l.queue), dropped := true)
  }

  function AfterFinally(l: Log): Log
    requires l.flight.Some?
  {
    var l1 := GivenBack(l, l.flight.value.batch);
    if l1.queue != [] && l1.failure != Some(WriteFailed) then StartFlush(l1) else l1
  }

  function GivenBack(l: Log, batch: seq<Event>): Log {
    l.(flight := None, records := l.records - |batch|, bytes := l.bytes - Bytes(batch))
  }

  function AfterStop(l: Log): Log {
    StartFlush(l.(accepting := false, ends := [], timer := false, stopped := true))
  }

  // ---------------------------------------------------------------------- machine

  datatype Action =
    | Bind
    | Enqueue(size: nat, externalizable: bool)
    | MessageEnd(size: nat)
    | Synchronize
    | Settle(sizes: seq<nat>)
    | Reject
    | TimerFires
    | Append(ok: bool, written: nat, code: Code)
    | Finally
    | Fail(code: Code)
    | Stop

  predicate Enabled(l: Log, a: Action) {
    match a
    case Settle(sizes) => 0 < l.syncing && |sizes| == |l.ends|
    case Reject => 0 < l.syncing
    case TimerFires => l.timer
    case Append(ok, written, code) =>
      && l.flight.Some? && !l.flight.value.done && (ok || written <= |l.flight.value.batch|)
      && (code == WriteFailed || code == TooLarge)
    case Finally => l.flight.Some? && l.flight.value.done
    case Fail(code) => code == Other
    case _ => true
  }

  function Next(l: Log, a: Action): Log
    requires Enabled(l, a)
  {
    match a
    case Bind => l.(bound := true)
    case Enqueue(size, externalizable) => AfterEnqueue(l, size, externalizable)
    case MessageEnd(size) => AfterMessageEnd(l, size)
    case Synchronize => AfterSynchronize(l)
    case Settle(sizes) => AfterSettle(l, sizes)
    case Reject => AfterReject(l)
    case TimerFires => StartFlush(l.(timer := false))
    case Append(ok, written, code) => AfterAppend(l, ok, written, code)
    case Finally => AfterFinally(l)
    case Fail(code) => FailCapture(l, code)
    case Stop => AfterStop(l)
  }

  predicate ValidRun(l: Log, run: seq<Action>)
    decreases |run|
  {
    run == [] || (Enabled(l, run[0]) && ValidRun(Next(l, run[0]), run[1..]))
  }

  function After(l: Log, run: seq<Action>): Log
    requires ValidRun(l, run)
    decreases |run|
  {
    if run == [] then l else After(Next(l, run[0]), run[1..])
  }

  // -------------------------------------------------------------------- invariants

  function InFlight(l: Log): seq<Event> {
    if l.flight.None? then [] else l.flight.value.batch
  }

  /** What the store has not been given yet, in order. */
  function Unsent(l: Log): seq<Event> {
    (if l.flight.Some? && !l.flight.value.done then l.flight.value.batch else []) + l.queue
  }

  predicate CountsFrom(numbers: seq<nat>, first: nat) {
    forall i :: 0 <= i < |numbers| ==> numbers[i] == first + i
  }

  /** Nothing is lost, doubled or reordered; after a failed append what is stored is still the start of it. */
  predicate InOrder(l: Log) {
    && CountsFrom(l.persisted, 1)
    && CountsFrom(Numbers(Unsent(l)), |l.persisted| + 1)
    && 1 <= l.nextSeq
    && (!l.dropped ==> |l.persisted| + |Unsent(l)| == l.nextSeq - 1)
    && (l.dropped ==> l.queue == [] && l.failure.Some? && |l.persisted| < l.nextSeq)
    && (l.dropped && l.flight.Some? ==> l.flight.value.done)
  }

  /**
   A queue that may be flushed has a batch or a timer at work. A message end that is refused can
   clear the timer, and then nothing moves the queue but `stop` or a `synchronize` already waiting.
   */
  predicate Driven(l: Log) {
    && (l.queue != [] && l.ends == [] && l.flight.None? ==> l.timer || (l.failure.Some? && !l.stopped))
    && (l.stopped && l.queue != [] ==> l.flight.Some?)
  }

  predicate Gates(l: Log) {
    && (l.stopped ==> l.ends == [] && !l.accepting)
    && (!l.accepting ==> l.failure.Some? || l.stopped)
    && (!l.bound ==> l.queue == [])
    && (l.failure == Some(WriteFailed) ==> l.dropped)
  }

  predicate TimerAlone(l: Log) {
    (l.flight.Some? ==> l.flight.value.batch != []) && (l.timer ==> l.ends == [] && l.flight.None?)
  }

  predicate EndsQueued(l: Log) {
    && (forall i :: 0 <= i < |l.ends| ==> l.ends[i].seqNo < l.nextSeq)
    && (forall i, j :: 0 <= i < j < |l.ends| ==> l.ends[i].seqNo < l.ends[j].seqNo)
    && (!l.dropped ==> forall e <- l.ends :: e in l.queue)
  }

  predicate Accounted(l: Log) {
    && l.records == |l.queue| + |InFlight(l)|
    && l.bytes == Bytes(l.queue) + Bytes(InFlight(l)) + l.drift
    && (!l.dropped ==> l.drift == 0)
  }

  /** The invariant in the middle of an operation, before it decides to flush. */
  predicate Sound(l: Log) { InOrder(l) && TimerAlone(l) && EndsQueued(l) && Accounted(l) && Gates(l) }

  predicate Inv(l: Log) { Sound(l) && Driven(l) }

  // ------------------------------------------------------------------ sums and batches

  lemma {:induction false} BytesConcat(a: seq<Event>, b: seq<Event>)
    ensures Bytes(a + b) == Bytes(a) + Bytes(b)
    decreases |b|
  {
    if b == [] {
      assert a + b == a;
    } else {
      BytesConcat(a, b[..|b| - 1]);
      assert (a + b)[..|a + b| - 1] == a + b[..|b| - 1];
    }
  }

  lemma BytesOfSplit(q: seq<Event>, n: nat)
    requires n <= |q|
    ensures Bytes(q) == Bytes(q[..n]) + Bytes(q[n..])
  {
    BytesConcat(q[..n], q[n..]);
    Rejoined(q, n);
  }

  lemma Rejoined(q: seq<Event>, n: nat)
    requires n <= |q|
    ensures q[..n] + q[n..] == q
  {
  }

  /** A batch takes at least one event, at most 256, and more than 256 KiB only when one event alone is larger. */
  lemma {:induction false} BatchFits(queue: seq<Event>, taken: nat, bytes: nat)
    requires taken <= |queue| && taken <= FLUSH_MAX_RECORDS && bytes == Bytes(queue[..taken])
    requires taken <= 1 || bytes <= FLUSH_MAX_BYTES
    ensures var n := BatchLength(queue, taken, bytes);
      && (queue != [] ==> 0 < n)
      && n <= FLUSH_MAX_RECORDS
      && (n <= 1 || Bytes(queue[..n]) <= FLUSH_MAX_BYTES)
      && (n < |queue| && n < FLUSH_MAX_RECORDS ==> FLUSH_MAX_BYTES < Bytes(queue[..n + 1]))
    decreases |queue| - taken
  {
    if taken < |queue| {
      assert queue[..taken + 1][..taken] == queue[..taken];
      assert Bytes(queue[..taken + 1]) == bytes + queue[taken].bytes;
      if taken < FLUSH_MAX_RECORDS && !(0 < taken && FLUSH_MAX_BYTES < bytes + queue[taken].bytes) {
        BatchFits(queue, taken + 1, bytes + queue[taken].bytes);
      }
    }
  }

  lemma BatchOfQueue(queue: seq<Event>)
    requires queue != []
    ensures var n := BatchLength(queue, 0, 0);
      && 0 < n <= FLUSH_MAX_RECORDS
      && (n == 1 || Bytes(queue[..n]) <= FLUSH_MAX_BYTES)
      && (n < |queue| && n < FLUSH_MAX_RECORDS ==> FLUSH_MAX_BYTES < Bytes(queue[..n + 1]))
  {
    BatchFits(queue, 0, 0);
  }

  // ------------------------------------------------------------- what each step keeps

  lemma TakenInOrder(l: Log, n: nat, l': Log)
    requires InOrder(l) && l.flight.None? && n <= |l.queue|
    requires l' == l.(timer := false, flight := Some(Flight(l.queue[..n], false)), queue := l.queue[n..])
    requires l.queue != []
    ensures InOrder(l')
  {
    assert Unsent(l') == Unsent(l);
  }

  lemma StartFlushKeeps(l: Log, l': Log)
    requires Sound(l) && l' == StartFlush(l)
    ensures Inv(l') && l'.stopped == l.stopped
  {
    if l.ends == [] && l.flight.None? && l.queue != [] {
      var n := BatchLength(l.queue, 0, 0);
      BatchOfQueue(l.queue);
      BytesOfSplit(l.queue, n);
      TakenInOrder(l, n, l');
    }
  }

  lemma FlushOrScheduleKeeps(l: Log, l': Log)
    requires Sound(l) && l' == FlushOrSchedule(l) && (l.stopped && l.queue != [] ==> l.flight.Some?)
    ensures Inv(l')
  {
    if FLUSH_MAX_RECORDS <= |l.queue| || FLUSH_MAX_BYTES <= Bytes(l.queue) { StartFlushKeeps(l, l'); }
  }

  predicate QueuedMore(l: Log, e: Event, l': Log) {
    l' == l.(nextSeq := l.nextSeq + 1, queue := l.queue + [e], records := l.records + 1, bytes := l.bytes + e.bytes)
  }

  lemma MoreInOrder(l: Log, e: Event, l': Log)
    requires InOrder(l) && l.failure.None? && e.seqNo == l.nextSeq && QueuedMore(l, e, l')
    ensures InOrder(l')
  {
    assert Unsent(l') == Unsent(l) + [e];
    assert Numbers(Unsent(l')) == Numbers(Unsent(l)) + [l.nextSeq];
  }

  lemma MoreKeeps(l: Log, e: Event, l': Log)
    requires Sound(l) && Accepts(l) && e.seqNo == l.nextSeq && QueuedMore(l, e, l')
    ensures Sound(l')
  {
    MoreInOrder(l, e, l');
    assert (l.queue + [e])[..|l.queue|] == l.queue;
  }

  lemma FailKeeps(l: Log, code: Code, l': Log)
    requires Sound(l) && l' == FailCapture(l, code) && code != WriteFailed
    ensures Sound(l') && (Driven(l) ==> Driven(l'))
  {
    assert Unsent(l') == Unsent(l);
  }

  lemma EnqueuedShape(l: Log, bytes: nat, externalizable: bool, l': Log, queued: bool)
    requires (l', queued) == Enqueued(l, bytes, externalizable)
    ensures queued ==> Accepts(l) && QueuedMore(l, Event(l.nextSeq, bytes), l')
    ensures !queued ==> l' == l || (Accepts(l) && (l' == FailCapture(l, TooLarge) || l' == FailCapture(l, Overflow)))
  {
  }

  lemma EnqueueKeeps(l: Log, bytes: nat, externalizable: bool, l': Log)
    requires Inv(l) && l' == AfterEnqueue(l, bytes, externalizable)
    ensures Inv(l')
  {
    var (l1, queued) := Enqueued(l, bytes, externalizable);
    EnqueuedShape(l, bytes, externalizable, l1, queued);
    if queued {
      MoreKeeps(l, Event(l.nextSeq, bytes), l1);
      FlushOrScheduleKeeps(l1, l');
    } else if l' != l {
      FailKeeps(l, if l' == FailCapture(l, TooLarge) then TooLarge else Overflow, l');
    }
  }

  /** The message end is the last of the queue and of the open ends. */
  lemma EndOpened(l: Log, e: Event, l': Log)
    requires Sound(l) && l.queue != [] && e == l.queue[|l.queue| - 1] && !l.dropped && !l.timer && !l.stopped
    requires e.seqNo == l.nextSeq - 1 && (forall x <- l.ends :: x.seqNo < e.seqNo) && l' == l.(ends := l.ends + [e])
    ensures Sound(l')
  {
    assert Unsent(l') == Unsent(l);
  }

  lemma TimerCleared(l: Log, l': Log)
    requires Sound(l) && l' == l.(timer := false)
    ensures Sound(l')
  {
    assert Unsent(l') == Unsent(l);
  }

  lemma MessageEndKeeps(l: Log, bytes: nat, l': Log)
    requires Inv(l) && l' == AfterMessageEnd(l, bytes)
    ensures Inv(l')
  {
    var l0 := l.(timer := false);
    TimerCleared(l, l0);
    var (l1, queued) := Enqueued(l0, bytes, false);
    EnqueuedShape(l0, bytes, false, l1, queued);
    if queued {
      MoreKeeps(l0, Event(l.nextSeq, bytes), l1);
      EndOpened(l1, Event(l.nextSeq, bytes), l');
    } else if l' != l0 {
      FailKeeps(l0, if l' == FailCapture(l0, TooLarge) then TooLarge else Overflow, l');
    }
  }

  lemma StopKeeps(l: Log, l': Log)
    requires Inv(l) && l' == AfterStop(l)
    ensures Inv(l')
  {
    var l0 := l.(accepting := false, ends := [], timer := false, stopped := true);
    assert Unsent(l0) == Unsent(l);
    StartFlushKeeps(l0, l');
  }

  lemma LandedKeeps(l: Log, l1: Log)
    requires Inv(l) && l.flight.Some? && l.flight.value.done
    requires l1 == GivenBack(l, l.flight.value.batch)
    ensures Sound(l1)
  {
    assert Unsent(l1) == Unsent(l);
  }

  lemma FinallyKeeps(l: Log, l': Log)
    requires Inv(l) && l.flight.Some? && l.flight.value.done && l' == AfterFinally(l)
    ensures Inv(l')
  {
    var l1 := GivenBack(l, l.flight.value.batch);
    LandedKeeps(l, l1);
    if l1.queue != [] && l1.failure != Some(WriteFailed) { StartFlushKeeps(l1, l'); }
  }

  lemma CountsConcat(a: seq<nat>, b: seq<nat>, first: nat)
    ensures CountsFrom(a + b, first) <==> CountsFrom(a, first) && CountsFrom(b, first + |a|)
  {
    if CountsFrom(a + b, first) {
      forall i | 0 <= i < |a| ensures a[i] == first + i { assert (a + b)[i] == a[i]; }
      forall i | 0 <= i < |b| ensures b[i] == first + |a| + i { assert (a + b)[|a| + i] == b[i]; }
    }
  }

  /** The store's own check, that a batch continues its numbering, cannot fail; and a partial write leaves a prefix. */
  lemma AppendInOrder(l: Log, ok: bool, written: nat, code: Code, l': Log)
    requires InOrder(l) && Enabled(l, Append(ok, written, code)) && l' == AfterAppend(l, ok, written, code)
    ensures InOrder(l')
  {
    var batch := l.flight.value.batch;
    var k := if ok then |batch| else written;
    assert Unsent(l) == batch + l.queue;
    assert Numbers(Unsent(l)) == Numbers(batch[..k]) + Numbers(batch[k..] + l.queue);
    CountsConcat(Numbers(batch[..k]), Numbers(batch[k..] + l.queue), |l.persisted| + 1);
    CountsConcat(l.persisted, Numbers(batch[..k]), 1);
    assert ok ==> batch[..k] == batch && batch[k..] + l.queue == l.queue;
    assert Unsent(l') == l'.queue;
  }

  lemma AppendKeeps(l: Log, ok: bool, written: nat, code: Code, l': Log)
    requires Inv(l) && Enabled(l, Append(ok, written, code)) && l' == AfterAppend(l, ok, written, code)
    ensures Inv(l')
  {
    AppendInOrder(l, ok, written, code, l');
  }

  // ----------------------------------------------------------------------- re-pricing

  predicate Increasing(queue: seq<Event>) {
    forall i, j :: 0 <= i < j < |queue| ==> queue[i].seqNo < queue[j].seqNo
  }

  lemma QueueIncreasing(l: Log)
    requires InOrder(l)
    ensures Increasing(l.queue)
  {
    var skip := |Unsent(l)| - |l.queue|;
    forall i, j | 0 <= i < j < |l.queue| ensures l.queue[i].seqNo < l.queue[j].seqNo {
      assert Numbers(Unsent(l))[skip + i] == l.queue[i].seqNo && Numbers(Unsent(l))[skip + j] == l.queue[j].seqNo;
    }
  }

  lemma {:induction false} PricedAt(queue: seq<Event>, seqNo: nat, bytes: nat)
    requires Increasing(queue)
    ensures |Priced(queue, seqNo, bytes)| == |queue|
    ensures forall i :: 0 <= i < |queue| ==>
      Priced(queue, seqNo, bytes)[i] == if queue[i].seqNo == seqNo then Event(seqNo, bytes) else queue[i]
    decreases |queue|
  {
    if queue != [] {
      var front, last := queue[..|queue| - 1], queue[|queue| - 1];
      PricedAt(front, seqNo, bytes);
      assert queue == front + [last];
    }
  }

  lemma {:induction false} PricedBytes(queue: seq<Event>, seqNo: nat, bytes: nat, e: Event)
    requires Increasing(queue) && e in queue && e.seqNo == seqNo
    ensures Bytes(Priced(queue, seqNo, bytes)) == Bytes(queue) - e.bytes + bytes
    decreases |queue|
  {
    var front, last := queue[..|queue| - 1], queue[|queue| - 1];
    assert queue == front + [last];
    if last.seqNo == seqNo {
      assert e == last;
      assert (front + [Event(seqNo, bytes)])[..|front|] == front;
    } else {
      assert e in front;
      PricedBytes(front, seqNo, bytes, e);
      var priced := Priced(front, seqNo, bytes);
      assert (priced + [last])[..|priced|] == priced;
    }
  }

  lemma PricedNumbers(queue: seq<Event>, seqNo: nat, bytes: nat)
    requires Increasing(queue)
    ensures Numbers(Priced(queue, seqNo, bytes)) == Numbers(queue)
  {
    PricedAt(queue, seqNo, bytes);
  }

  lemma PricedAbsent(queue: seq<Event>, seqNo: nat, bytes: nat)
    requires Increasing(queue) && !Queued(queue, seqNo)
    ensures Priced(queue, seqNo, bytes) == queue
  {
    PricedAt(queue, seqNo, bytes);
    forall i | 0 <= i < |queue| ensures queue[i].seqNo != seqNo { assert queue[i] in queue; }
  }

  lemma PriceInOrder(l: Log, size: nat, l': Log)
    requires InOrder(l) && l.ends != [] && l' == PriceFirst(l, size)
    ensures InOrder(l')
  {
    QueueIncreasing(l);
    PricedNumbers(l.queue, l.ends[0].seqNo, size);
    PricedAt(l.queue, l.ends[0].seqNo, size);
    var head := if l.flight.Some? && !l.flight.value.done then l.flight.value.batch else [];
    NumbersConcat(head, l.queue);
    NumbersConcat(head, l'.queue);
  }

  lemma NumbersConcat(a: seq<Event>, b: seq<Event>)
    ensures Numbers(a + b) == Numbers(a) + Numbers(b)
  {
  }

  lemma PriceAccounts(l: Log, size: nat, l': Log)
    requires Sound(l) && l.ends != [] && l' == PriceFirst(l, size)
    ensures Accounted(l')
  {
    QueueIncreasing(l);
    var end := l.ends[0];
    assert end in l.ends;
    PricedAt(l.queue, end.seqNo, size);
    if l.dropped {
      PricedAbsent(l.queue, end.seqNo, size);
    } else {
      assert Queued(l.queue, end.seqNo);
      PricedBytes(l.queue, end.seqNo, size, end);
    }
  }

  lemma PriceKeepsEnds(l: Log, size: nat, l': Log)
    requires Sound(l) && l.ends != [] && l' == PriceFirst(l, size)
    ensures EndsQueued(l')
  {
    QueueIncreasing(l);
    PricedAt(l.queue, l.ends[0].seqNo, size);
    forall e <- l'.ends | !l'.dropped ensures e in l'.queue {
      assert e in l.ends && e in l.queue;
      var i :| 0 <= i < |l.queue| && l.queue[i] == e;
      assert l'.queue[i] == e;
    }
  }

  lemma PriceKeeps(l: Log, size: nat, l': Log)
    requires Sound(l) && l.ends != [] && l' == PriceFirst(l, size)
    ensures Sound(l')
  {
    PriceInOrder(l, size, l');
    PriceAccounts(l, size, l');
    PriceKeepsEnds(l, size, l');
    QueueIncreasing(l);
    PricedAt(l.queue, l.ends[0].seqNo, size);
  }

  lemma {:induction false} RepriceKeeps(l: Log, sizes: seq<nat>)
    requires Sound(l) && |sizes| == |l.ends|
    ensures Sound(Reprice(l, sizes)) && Reprice(l, sizes).ends == []
    ensures Reprice(l, sizes).stopped == l.stopped && Reprice(l, sizes).flight == l.flight
    ensures l.ends == [] ==> Reprice(l, sizes) == l
    decreases |sizes|
  {
    if sizes != [] {
      PriceKeeps(l, sizes[0], PriceFirst(l, sizes[0]));
      RepriceKeeps(PriceFirst(l, sizes[0]), sizes[1..]);
    }
  }

  lemma WaitingKeeps(l: Log, calls: nat)
    requires Sound(l)
    ensures Sound(Waiting(l, calls)) && (Driven(l) ==> Driven(Waiting(l, calls)))
  {
    assert Unsent(Waiting(l, calls)) == Unsent(l);
  }

  lemma WaitingInv(l: Log, calls: nat)
    requires Inv(l)
    ensures Inv(Waiting(l, calls))
  {
    WaitingKeeps(l, calls);
  }

  lemma RepricedKeeps(l: Log, sizes: seq<nat>, l': Log)
    requires Inv(l) && |sizes| == |l.ends| && l' == FlushOrSchedule(Reprice(l, sizes))
    ensures Inv(l')
  {
    RepriceKeeps(l, sizes);
    FlushOrScheduleKeeps(Reprice(l, sizes), l');
  }

  /** What a waiting `synchronize` goes on from is sound, and settling and flushing keep that. */
  lemma SettleKeeps(l: Log, sizes: seq<nat>, l': Log)
    requires Enabled(l, Settle(sizes)) && Inv(Waiting(l, l.syncing - 1)) && l' == AfterSettle(l, sizes)
    ensures Inv(l')
  {
    RepricedKeeps(Waiting(l, l.syncing - 1), sizes, l');
  }

  lemma RejectKeeps(l: Log, l': Log)
    requires Inv(l) && 0 < l.syncing && l' == AfterReject(l)
    ensures Inv(l')
  {
    WaitingKeeps(l, l.syncing - 1);
    FailKeeps(Waiting(l, l.syncing - 1), Other, l');
  }

  lemma NextInv(l: Log, a: Action)
    requires Inv(l) && Enabled(l, a)
    ensures Inv(Next(l, a))
  {
    var l' := Next(l, a);
    if a.Enqueue? {
      EnqueueKeeps(l, a.size, a.externalizable, l');
    } else if a.MessageEnd? {
      MessageEndKeeps(l, a.size, l');
    } else if a.Settle? {
      WaitingInv(l, l.syncing - 1);
      SettleKeeps(l, a.sizes, l');
    } else if a.TimerFires? {
      TimerKeeps(l, l');
    } else if a.Finally? {
      FinallyKeeps(l, l');
    } else if a.Stop? {
      StopKeeps(l, l');
    } else {
      QuietKeeps(l, a);
    }
  }

  lemma TimerKeeps(l: Log, l': Log)
    requires Inv(l) && l.timer && l' == StartFlush(l.(timer := false))
    ensures Inv(l')
  {
    TimerCleared(l, l.(timer := false));
    StartFlushKeeps(l.(timer := false), l');
  }

  /** The steps that start no batch. */
  lemma QuietKeeps(l: Log, a: Action)
    requires Inv(l) && Enabled(l, a) && (a.Bind? || a.Synchronize? || a.Reject? || a.Append? || a.Fail?)
    ensures Inv(Next(l, a))
  {
    if a.Synchronize? {
      WaitingKeeps(l, l.syncing + 1);
    } else if a.Reject? {
      RejectKeeps(l, Next(l, a));
    } else if a.Append? {
      AppendKeeps(l, a.ok, a.written, a.code, Next(l, a));
    } else if a.Fail? {
      FailKeeps(l, a.code, Next(l, a));
    } else {
      assert Unsent(Next(l, a)) == Unsent(l);
    }
  }

  lemma {:induction false} RunInv(l: Log, run: seq<Action>)
    requires Inv(l) && ValidRun(l, run)
    ensures Inv(After(l, run))
    decreases |run|
  {
    if run != [] {
      NextInv(l, run[0]);
      RunInv(Next(l, run[0]), run[1..]);
    }
  }

  // ----------------------------------------------------------------------- what follows

  lemma StartInv()
    ensures Inv(Start())
  {
  }

  predicate Reaches(run: seq<Action>, l: Log) { ValidRun(Start(), run) && l == After(Start(), run) }

  lemma ReachedInv(run: seq<Action>, l: Log)
    requires Reaches(run, l)
    ensures Inv(l)
  {
    StartInv();
    RunInv(Start(), run);
  }

  /** Persisted, in flight and queued together are 1, 2, 3 and so on, until an append fails; then a prefix stays. */
  lemma LogIsPrefix(run: seq<Action>, l: Log)
    requires Reaches(run, l)
    ensures CountsFrom(l.persisted, 1) && |l.persisted| < l.nextSeq
    ensures !l.dropped ==>
      CountsFrom(l.persisted + Numbers(Unsent(l)), 1) && |l.persisted + Numbers(Unsent(l))| == l.nextSeq - 1
  {
    ReachedInv(run, l);
    CountsConcat(l.persisted, Numbers(Unsent(l)), 1);
  }

  predicate Writing(l: Log) { l.flight.Some? && !l.flight.value.done }

  /** `l'` is `l`, or `l` with a batch or a timer started. */
  predicate Flushes(l: Log, l': Log) {
    l' == l || l' == StartFlush(l) || l' == FlushOrSchedule(l)
  }

  lemma FlushIsGated(l: Log, l': Log)
    requires Flushes(l, l') && Writing(l') && !Writing(l)
    ensures l.flight.None? && l'.ends == []
  {
  }

  /** The log right before the step decides to flush. */
  function BeforeFlush(l: Log, a: Action): Log
    requires Enabled(l, a)
  {
    match a
    case Enqueue(size, externalizable) => Enqueued(l, size, externalizable).0
    case Settle(sizes) => Reprice(Waiting(l, l.syncing - 1), sizes)
    case TimerFires => l.(timer := false)
    case Finally => GivenBack(l, l.flight.value.batch)
    case Stop => l.(accepting := false, ends := [], timer := false, stopped := true)
    case _ => Next(l, a)
  }

  lemma FlushesLast(l: Log, a: Action, l': Log)
    requires Enabled(l, a) && l' == Next(l, a)
    ensures Flushes(BeforeFlush(l, a), l')
  {
  }

  lemma BeforeFlushFlight(l: Log, a: Action)
    requires Enabled(l, a) && !a.Append?
    ensures BeforeFlush(l, a).flight == if a.Finally? then None else l.flight
  {
    if a.Settle? { RepriceOnlyPrices(Waiting(l, l.syncing - 1), a.sizes); }
  }

  lemma {:induction false} RepriceOnlyPrices(l: Log, sizes: seq<nat>)
    requires |sizes| == |l.ends|
    ensures Reprice(l, sizes).flight == l.flight && Reprice(l, sizes).records == l.records
    decreases |sizes|
  {
    if sizes != [] { RepriceOnlyPrices(PriceFirst(l, sizes[0]), sizes[1..]); }
  }

  /**
   A batch starts only while no message end is open and no other batch is out, and with the oldest event
   not stored.
   */
  lemma BatchesAreGated(l: Log, a: Action, l': Log)
    requires Inv(l) && Enabled(l, a) && l' == Next(l, a) && Writing(l') && !Writing(l)
    ensures l.flight.None? || a.Finally?
    ensures l'.ends == []
    ensures Numbers(l'.flight.value.batch) != [] && Numbers(l'.flight.value.batch)[0] == |l'.persisted| + 1
  {
    NextInv(l, a);
    OldestFirst(l');
    BeforeFlushFlight(l, a);
    FlushesLast(l, a, l');
    FlushIsGated(BeforeFlush(l, a), l');
  }

  lemma OldestFirst(l: Log)
    requires Inv(l) && Writing(l)
    ensures Numbers(l.flight.value.batch) != [] && Numbers(l.flight.value.batch)[0] == |l.persisted| + 1
  {
    assert Numbers(Unsent(l))[0] == Numbers(l.flight.value.batch)[0];
  }

  predicate Exact(l: Log) { l.bytes == Bytes(l.queue) + Bytes(InFlight(l)) }

  /** How far the byte counter is from what is queued and in flight. */
  function Discrepancy(l: Log): int { l.bytes - Bytes(l.queue) - Bytes(InFlight(l)) }

  /** What a step moves the byte counter away by: final sizes of message ends that a failed append dropped. */
  function Shift(l: Log, a: Action): int {
    if a.Settle? && l.dropped then Sum(a.sizes) - Bytes(l.ends) else 0
  }

  function TotalShift(l: Log, run: seq<Action>): int
    requires ValidRun(l, run)
    decreases |run|
  {
    if run == [] then 0 else Shift(l, run[0]) + TotalShift(Next(l, run[0]), run[1..])
  }

  lemma DiscrepancyIsDrift(l: Log)
    requires Inv(l)
    ensures Discrepancy(l) == l.drift
    ensures !l.dropped ==> l.drift == 0
  {
  }

  lemma FlushKeepsDrift(l: Log)
    ensures FlushOrSchedule(l).drift == l.drift && StartFlush(l).drift == l.drift
    ensures FlushOrSchedule(l).dropped == l.dropped
  {
  }

  lemma RepriceShifts(l: Log, sizes: seq<nat>)
    requires Sound(l) && |sizes| == |l.ends|
    ensures Reprice(l, sizes).drift == l.drift + if l.dropped then Sum(sizes) - Bytes(l.ends) else 0
  {
    if l.dropped {
      DriftOfDroppedEnds(l, sizes);
    } else {
      StaysUndropped(l, sizes);
      RepriceKeeps(l, sizes);
    }
  }

  lemma FlushShifts(l: Log, sizes: seq<nat>)
    requires Sound(l) && |sizes| == |l.ends|
    ensures FlushOrSchedule(Reprice(l, sizes)).drift == l.drift + if l.dropped then Sum(sizes) - Bytes(l.ends) else 0
  {
    RepriceShifts(l, sizes);
    FlushKeepsDrift(Reprice(l, sizes));
  }

  lemma SettlingShifts(l: Log, sizes: seq<nat>)
    requires Enabled(l, Settle(sizes)) && Sound(Waiting(l, l.syncing - 1))
    ensures AfterSettle(l, sizes).drift == l.drift + Shift(l, Settle(sizes))
  {
    FlushShifts(Waiting(l, l.syncing - 1), sizes);
  }

  lemma ShiftsOnce(l: Log, a: Action)
    requires Inv(l) && Enabled(l, a)
    ensures Discrepancy(Next(l, a)) == Discrepancy(l) + Shift(l, a)
  {
    NextInv(l, a);
    DiscrepancyIsDrift(l);
    DiscrepancyIsDrift(Next(l, a));
    DriftMoves(l, a);
  }

  lemma DriftMoves(l: Log, a: Action)
    requires Sound(l) && Enabled(l, a)
    ensures Next(l, a).drift == l.drift + Shift(l, a)
  {
    if a.Settle? {
      WaitingKeeps(l, l.syncing - 1);
      SettlingShifts(l, a.sizes);
    } else {
      DriftStays(l, a);
    }
  }

  lemma EnqueuedKeepsDrift(l: Log, bytes: nat, externalizable: bool)
    ensures Enqueued(l, bytes, externalizable).0.drift == l.drift
  {
  }

  lemma DriftStays(l: Log, a: Action)
    requires Enabled(l, a) && !a.Settle?
    ensures Next(l, a).drift == l.drift
  {
    match a
    case Enqueue(size, externalizable) =>
      EnqueuedKeepsDrift(l, size, externalizable);
      FlushKeepsDrift(Enqueued(l, size, externalizable).0);
    case MessageEnd(size) => EnqueuedKeepsDrift(l.(timer := false), size, false);
    case TimerFires => FlushKeepsDrift(l.(timer := false));
    case Append(ok, written, code) => AppendKeepsDrift(l, ok, written, code);
    case Finally => FlushKeepsDrift(GivenBack(l, l.flight.value.batch));
    case Stop => FlushKeepsDrift(l.(accepting := false, ends := [], timer := false, stopped := true));
    case _ =>
  }

  lemma AppendKeepsDrift(l: Log, ok: bool, written: nat, code: Code)
    requires l.flight.Some? && (ok || written <= |l.flight.value.batch|)
    ensures AfterAppend(l, ok, written, code).drift == l.drift
  {
  }

  lemma {:induction false} StaysUndropped(l: Log, sizes: seq<nat>)
    requires |sizes| == |l.ends|
    ensures Reprice(l, sizes).dropped == l.dropped
    decreases |sizes|
  {
    if sizes != [] { StaysUndropped(PriceFirst(l, sizes[0]), sizes[1..]); }
  }

  lemma {:induction false} ShiftsAdd(l: Log, run: seq<Action>)
    requires Inv(l) && ValidRun(l, run)
    ensures Discrepancy(After(l, run)) == Discrepancy(l) + TotalShift(l, run)
    decreases |run|
  {
    if run != [] {
      NextInv(l, run[0]);
      ShiftsOnce(l, run[0]);
      ShiftsAdd(Next(l, run[0]), run[1..]);
    }
  }

  /**
   On every run from a log with exact counters, the empty one to begin with, the record counter stays
   exact, and the byte counter does until an append fails. After that it is exact as long as the dropped
   ends settle, in all, to the sizes they were queued with.
   */
  lemma AccountingIsExact(s: Log, run: seq<Action>, l: Log)
    requires Inv(s) && Exact(s) && ValidRun(s, run) && l == After(s, run)
    ensures l.records == |l.queue| + |InFlight(l)|
    ensures !l.dropped ==> Exact(l)
    ensures Exact(l) <==> TotalShift(s, run) == 0
  {
    Measured(s, run, l);
    ExactMeans(l);
  }

  lemma ExactMeans(l: Log)
    ensures Exact(l) <==> Discrepancy(l) == 0
  {
  }

  lemma Measured(s: Log, run: seq<Action>, l: Log)
    requires Inv(s) && Exact(s) && ValidRun(s, run) && l == After(s, run)
    ensures l.records == |l.queue| + |InFlight(l)|
    ensures Discrepancy(l) == TotalShift(s, run)
    ensures !l.dropped ==> Discrepancy(l) == 0
  {
    RunInv(s, run);
    ExactMeans(s);
    ShiftsAdd(s, run);
    DiscrepancyIsDrift(l);
    CountsRecords(l);
  }

  lemma CountsRecords(l: Log)
    requires Inv(l)
    ensures l.records == |l.queue| + |InFlight(l)|
  {
  }

  /** From an exact counter, settling dropped ends keeps it exact exactly when their sizes add up to the same. */
  lemma ExactAfterSettling(l: Log, sizes: seq<nat>)
    requires Inv(l) && l.dropped && Enabled(l, Settle(sizes))
    requires Exact(l)
    ensures Exact(Next(l, Settle(sizes))) <==> Sum(sizes) == Bytes(l.ends)
  {
    ShiftsOnce(l, Settle(sizes));
    ExactMeans(l);
    ExactMeans(Next(l, Settle(sizes)));
  }

  /**
   After a failed append, settling the ends it dropped keeps the byte counter exact only if their sizes
   stay the same.
   */
  lemma {:induction false} DriftOfDroppedEnds(l: Log, sizes: seq<nat>)
    requires Sound(l) && l.dropped && |sizes| == |l.ends|
    ensures Reprice(l, sizes).drift == l.drift + Sum(sizes) - Bytes(l.ends)
    decreases |sizes|
  {
    if sizes != [] {
      PriceKeeps(l, sizes[0], PriceFirst(l, sizes[0]));
      DriftOfDroppedEnds(PriceFirst(l, sizes[0]), sizes[1..]);
      BytesConcat([l.ends[0]], l.ends[1..]);
      assert [l.ends[0]] + l.ends[1..] == l.ends;
      assert Bytes([l.ends[0]]) == l.ends[0].bytes by { assert [l.ends[0]][..0] == []; }
    }
  }

  function Sum(sizes: seq<nat>): nat { if sizes == [] then 0 else sizes[0] + Sum(sizes[1..]) }

  /** An end of 20 bytes is dropped by a failed append and then settles to 25: five bytes are never given back. */
  const DRIFTING: seq<Action> := [Bind] + ([Enqueue(10, false)] + ([TimerFires] + ([MessageEnd(20)] + TAIL)))

  const FIRST: Event := Event(1, 10)
  const END: Event := Event(2, 20)

  /** Bound, with one event queued and the timer running. */
  const ONE_QUEUED: Log := Log(true, true, None, [FIRST], [], None, true, 1, 10, 2, [], false, 0, false, 0)

  const ENDED: Log :=
    Log(true, true, None, [END], [END], Some(Flight([FIRST], false)), false, 2, 30, 3, [], false, 0, false, 0)

  const FAILED: Log :=
    Log(true, false, Some(WriteFailed), [], [END], Some(Flight([FIRST], true)), false, 1, 10, 3, [], false, 0, true, 0)

  const LANDED: Log := FAILED.(flight := None, records := 0, bytes := 0)

  lemma OneQueued()
    ensures Next(Next(Start(), Bind), Enqueue(10, false)) == ONE_QUEUED
  {
    BytesOfOne(FIRST);
    assert [] + [FIRST] == [FIRST];
  }

  lemma EndWhileFlying()
    ensures Next(ONE_QUEUED, TimerFires)
       == ONE_QUEUED.(queue := [], flight := Some(Flight([FIRST], false)), timer := false)
    ensures Next(Next(ONE_QUEUED, TimerFires), MessageEnd(20)) == ENDED
  {
    assert [FIRST][..1] == [FIRST] && [FIRST][1..] == [];
    assert [] + [END] == [END];
  }

  lemma AppendDropsEnd()
    ensures Next(ENDED, Append(false, 0, WriteFailed)) == FAILED
  {
    BytesOfOne(END);
    assert [FIRST][..0] == [] && Numbers([]) == [] && [] + Numbers([]) == [];
  }

  lemma SettledTooLate()
    ensures Next(FAILED, Finally) == LANDED && Next(LANDED, Synchronize) == Waiting(LANDED, 1)
    ensures var l := Next(Waiting(LANDED, 1), Settle([25]));
      l.queue == [] && l.flight.None? && l.bytes == 5
  {
    BytesOfOne(FIRST);
    assert [25][1..] == [] && [END][1..] == [];
    assert Reprice(LANDED, [25]) == PriceFirst(LANDED, 25);
  }

  const TAIL: seq<Action> := [Append(false, 0, WriteFailed)] + ([Finally] + ([Synchronize] + [Settle([25])]))

  lemma TailDrifts()
    ensures ValidRun(ENDED, TAIL)
    ensures var l := After(ENDED, TAIL); l.queue == [] && l.flight.None? && l.bytes == 5
  {
    AppendDropsEnd();
    SettledTooLate();
    RunOne(Waiting(LANDED, 1), Settle([25]), []);
    RunOne(LANDED, Synchronize, [Settle([25])]);
    RunOne(FAILED, Finally, [Synchronize] + [Settle([25])]);
    RunOne(ENDED, Append(false, 0, WriteFailed), [Finally] + ([Synchronize] + [Settle([25])]));
  }

  lemma ToEnded(rest: seq<Action>)
    requires ValidRun(ENDED, rest)
    ensures var run := [Bind] + ([Enqueue(10, false)] + ([TimerFires] + ([MessageEnd(20)] + rest)));
      ValidRun(Start(), run) && After(Start(), run) == After(ENDED, rest)
  {
    OneQueued();
    EndWhileFlying();
    RunOne(Next(ONE_QUEUED, TimerFires), MessageEnd(20), rest);
    RunOne(ONE_QUEUED, TimerFires, [MessageEnd(20)] + rest);
    RunOne(Next(Start(), Bind), Enqueue(10, false), [TimerFires] + ([MessageEnd(20)] + rest));
    RunOne(Start(), Bind, [Enqueue(10, false)] + ([TimerFires] + ([MessageEnd(20)] + rest)));
  }

  lemma AccountingDrifts()
    ensures ValidRun(Start(), DRIFTING)
    ensures var l := After(Start(), DRIFTING); l.queue == [] && l.flight.None? && l.bytes == 5
  {
    TailDrifts();
    ToEnded(TAIL);
  }

  lemma BytesOfOne(e: Event)
    ensures Bytes([e]) == e.bytes
  {
    assert [e][..0] == [];
  }

  /** A run is its first step and the rest. */
  lemma RunOne(l: Log, a: Action, rest: seq<Action>)
    requires Enabled(l, a) && ValidRun(Next(l, a), rest)
    ensures ValidRun(l, [a] + rest) && After(l, [a] + rest) == After(Next(l, a), rest)
  {
    assert ([a] + rest)[1..] == rest;
  }

  /** Once stopped, a queue is on its way: with nothing in flight, everything accepted is stored or an append failed. */
  lemma StopDrains(run: seq<Action>, l: Log)
    requires Reaches(run, l) && l.stopped && l.flight.None?
    ensures l.queue == [] && (l.dropped || |l.persisted| == l.nextSeq - 1)
  {
    ReachedInv(run, l);
  }

  /** What `enqueue` does with an event: four refusals, two of which fail the capture, and else the next number. */
  lemma EnqueuedExactly(l: Log, bytes: nat, externalizable: bool)
    ensures var (l', queued) := Enqueued(l, bytes, externalizable);
      var open := l.bound && l.accepting && l.failure.None?;
      var large := 1024 * 1024 < bytes && !externalizable;
      var full := 8192 <= l.records || 16 * 1024 * 1024 < l.bytes + bytes;
      && (queued <==> open && !large && !full)
      && (!open ==> l' == l)
      && (open && large ==> l'.failure == Some(TooLarge) && !l'.accepting && l'.queue == l.queue)
      && (open && !large && full ==> l'.failure == Some(Overflow) && !l'.accepting && l'.queue == l.queue)
      && (queued ==>
            && l'.queue == l.queue + [Event(l.nextSeq, bytes)] && l'.nextSeq == l.nextSeq + 1
            && l'.records == l.records + 1 && l'.bytes == l.bytes + bytes && l'.failure.None?)
  {
  }

  /** A queued event starts the next batch at once when the queue is full, by number or by size, and else the timer. */
  lemma FullQueueFlushes(l: Log, bytes: nat, externalizable: bool)
    requires Enqueued(l, bytes, externalizable).1 && l.ends == [] && l.flight.None?
    ensures var l' := AfterEnqueue(l, bytes, externalizable);
      var full := 256 <= |l.queue| + 1 || 256 * 1024 <= Bytes(l.queue) + bytes;
      && (full <==> l'.flight.Some?) && (l'.timer <==> !full)
      && (!full ==> l'.queue == l.queue + [Event(l.nextSeq, bytes)])
  {
    QueueGrows(l, bytes, externalizable, Enqueued(l, bytes, externalizable).0);
    FlushesWhenFull(Enqueued(l, bytes, externalizable).0);
  }

  lemma QueueGrows(l: Log, bytes: nat, externalizable: bool, l': Log)
    requires Enqueued(l, bytes, externalizable) == (l', true)
    ensures l'.queue == l.queue + [Event(l.nextSeq, bytes)] && Bytes(l'.queue) == Bytes(l.queue) + bytes
    ensures l'.ends == l.ends && l'.flight == l.flight
  {
    BytesConcat(l.queue, [Event(l.nextSeq, bytes)]);
    BytesOfOne(Event(l.nextSeq, bytes));
  }

  lemma FlushesWhenFull(l: Log)
    requires l.ends == [] && l.flight.None? && l.queue != []
    ensures var (l', full) := (FlushOrSchedule(l), 256 <= |l.queue| || 256 * 1024 <= Bytes(l.queue));
      (full <==> l'.flight.Some?) && (l'.timer <==> !full) && (!full ==> l'.queue == l.queue)
  {
  }

  lemma FlushKeepsRecords(l: Log)
    ensures FlushOrSchedule(l).records == l.records && StartFlush(l).records == l.records
  {
  }

  lemma EnqueuedRecords(l: Log, bytes: nat, externalizable: bool)
    requires l.records <= QUEUE_MAX_RECORDS
    ensures Enqueued(l, bytes, externalizable).0.records <= QUEUE_MAX_RECORDS
  {
  }

  lemma NextRecords(l: Log, a: Action)
    requires Enabled(l, a) && l.records <= QUEUE_MAX_RECORDS
    ensures Next(l, a).records <= QUEUE_MAX_RECORDS
  {
    if a.Enqueue? {
      EnqueuedRecords(l, a.size, a.externalizable);
      FlushKeepsRecords(Enqueued(l, a.size, a.externalizable).0);
    } else if a.MessageEnd? {
      EnqueuedRecords(l.(timer := false), a.size, false);
    } else if a.Settle? {
      RepriceOnlyPrices(Waiting(l, l.syncing - 1), a.sizes);
      FlushKeepsRecords(BeforeFlush(l, a));
    } else if a.TimerFires? || a.Finally? || a.Stop? {
      FlushKeepsRecords(BeforeFlush(l, a));
    }
  }

  lemma {:induction false} RunRecords(l: Log, run: seq<Action>)
    requires ValidRun(l, run) && l.records <= QUEUE_MAX_RECORDS
    ensures After(l, run).records <= QUEUE_MAX_RECORDS
    decreases |run|
  {
    if run != [] {
      NextRecords(l, run[0]);
      RunRecords(Next(l, run[0]), run[1..]);
    }
  }

  /** There are never more than 8192 events queued and in flight. */
  lemma OutstandingIsBounded(run: seq<Action>, l: Log)
    requires Reaches(run, l)
    ensures |l.queue| + |InFlight(l)| <= 8192
  {
    ReachedInv(run, l);
    RunRecords(Start(), run);
    CountsRecords(l);
  }

  /** While capture has not failed no flushable queue sits without a batch or a timer. */
  lemma NothingIdles(run: seq<Action>, l: Log)
    requires Reaches(run, l) && l.failure.None? && l.queue != [] && l.ends == []
    ensures l.flight.Some? || l.timer
  {
    ReachedInv(run, l);
  }

  /** Events wait, nothing holds them back, and nothing is going to take them. */
  predicate Idle(l: Log) {
    l.queue != [] && l.ends == [] && l.flight.None? && !l.timer && !l.stopped
  }

  lemma SettleIsNotIdle(l: Log, sizes: seq<nat>)
    requires Enabled(l, Settle(sizes))
    ensures !Idle(AfterSettle(l, sizes))
  {
    FlushMoves(Reprice(Waiting(l, l.syncing - 1), sizes));
  }

  /**
   A queue falls idle in one way only: a message end that is not queued, because capture has failed
   before or fails by it, comes while the flush timer is running.
   */
  lemma IdlesExactly(l: Log, a: Action)
    requires Inv(l) && Enabled(l, a) && !Idle(l)
    ensures Idle(Next(l, a))
       <==> a.MessageEnd? && l.timer && l.queue != [] && !l.stopped && !Enqueued(l.(timer := false), a.size, false).1
  {
    match a
    case MessageEnd(size) => EndIdles(l, size);
    case Enqueue(size, externalizable) =>
      FlushMoves(Enqueued(l, size, externalizable).0);
    case Settle(sizes) =>
      SettleIsNotIdle(l, sizes);
    case Finally => FlushMoves(GivenBack(l, l.flight.value.batch));
    case _ =>
  }

  /** What is flushed or scheduled is not idle. */
  lemma FlushMoves(l: Log)
    ensures !Idle(FlushOrSchedule(l)) && (!Idle(StartFlush(l)) || StartFlush(l) == l)
    ensures l.queue != [] && l.ends == [] && l.flight.None? ==> StartFlush(l).flight.Some?
  {
  }

  lemma EndIdles(l: Log, size: nat)
    requires Inv(l) && !Idle(l)
    ensures Idle(AfterMessageEnd(l, size))
       <==> l.timer && l.queue != [] && !l.stopped && !Enqueued(l.(timer := false), size, false).1
  {
  }

  /** An idle queue stays as it is but for `stop`, and for a `synchronize` that was waiting when it fell idle. */
  lemma IdleEndsExactly(l: Log, a: Action)
    requires Inv(l) && Enabled(l, a) && Idle(l)
    ensures !Idle(Next(l, a)) <==> a.Settle? || a.Stop?
    ensures !a.Settle? && !a.Stop? ==> Unmoved(l, Next(l, a))
    ensures Next(l, a).syncing <= l.syncing
  {
  }

  /** The same events wait, and the store has been given no more. */
  predicate Unmoved(l: Log, l': Log) { l'.queue == l.queue && l'.persisted == l.persisted }

  lemma {:induction false} StoppedForGood(l: Log, run: seq<Action>)
    requires ValidRun(l, run) && l.stopped
    ensures After(l, run).stopped
    decreases |run|
  {
    if run != [] {
      StopsOnce(l, run[0]);
      StoppedForGood(Next(l, run[0]), run[1..]);
    }
  }

  lemma StopsOnce(l: Log, a: Action)
    requires Enabled(l, a) && l.stopped
    ensures Next(l, a).stopped
  {
    if a.Settle? { RepriceStopped(Waiting(l, l.syncing - 1), a.sizes); }
  }

  lemma {:induction false} RepriceStopped(l: Log, sizes: seq<nat>)
    requires |sizes| == |l.ends|
    ensures Reprice(l, sizes).stopped == l.stopped
    decreases |sizes|
  {
    if sizes != [] { RepriceStopped(PriceFirst(l, sizes[0]), sizes[1..]); }
  }

  /**
   Main result: only `stop` drains an idle queue. Unless a `synchronize` was already waiting when it fell
   idle, a run leaves the same events waiting exactly when nothing in it stops the recorder.
   */
  lemma {:induction false} OnlyStopDrains(l: Log, run: seq<Action>)
    requires Inv(l) && Idle(l) && l.syncing == 0 && ValidRun(l, run)
    ensures Idle(After(l, run)) <==> forall a <- run :: !a.Stop?
    ensures Idle(After(l, run)) ==> Unmoved(l, After(l, run))
    decreases |run|
  {
    if run != [] {
      var next, rest := Next(l, run[0]), run[1..];
      assert run == [run[0]] + rest;
      NextInv(l, run[0]);
      IdleEndsExactly(l, run[0]);
      if run[0].Stop? { StoppedForGood(next, rest); } else { OnlyStopDrains(next, rest); }
    }
  }

  /** One event is queued; then a message end is too large, or capture fails for another reason before one comes. */
  const TOO_LARGE_END: seq<Action> := [Bind, Enqueue(10, false), MessageEnd(EVENT_MAX_BYTES + 1)]
  const REFUSED_END: seq<Action> := [Bind, Enqueue(10, false), Fail(Other), MessageEnd(5)]

  lemma RefusedEndIdles()
    ensures ValidRun(Start(), TOO_LARGE_END) && ValidRun(Start(), REFUSED_END)
    ensures Idle(After(Start(), TOO_LARGE_END)) && After(Start(), TOO_LARGE_END).syncing == 0
    ensures Idle(After(Start(), REFUSED_END)) && After(Start(), REFUSED_END).syncing == 0
  {
    OneQueued();
    var large, failed := MessageEnd(EVENT_MAX_BYTES + 1), ONE_QUEUED.(failure := Some(Other), accepting := false);
    EndsIdle();
    RunOne(ONE_QUEUED, large, []);
    RunOne(Next(Start(), Bind), Enqueue(10, false), [large]);
    RunOne(Start(), Bind, [Enqueue(10, false)] + [large]);
    assert TOO_LARGE_END == [Bind] + ([Enqueue(10, false)] + [large]);
    RunOne(failed, MessageEnd(5), []);
    RunOne(ONE_QUEUED, Fail(Other), [MessageEnd(5)]);
    RunOne(Next(Start(), Bind), Enqueue(10, false), [Fail(Other)] + [MessageEnd(5)]);
    RunOne(Start(), Bind, [Enqueue(10, false)] + ([Fail(Other)] + [MessageEnd(5)]));
    assert REFUSED_END == [Bind] + ([Enqueue(10, false)] + ([Fail(Other)] + [MessageEnd(5)]));
  }

  lemma EndsIdle()
    ensures var l := Next(ONE_QUEUED, MessageEnd(EVENT_MAX_BYTES + 1)); Idle(l) && l.syncing == 0
    ensures Next(ONE_QUEUED, Fail(Other)) == ONE_QUEUED.(failure := Some(Other), accepting := false)
    ensures var l := Next(Next(ONE_QUEUED, Fail(Other)), MessageEnd(5)); Idle(l) && l.syncing == 0
  {
  }

  const SETTLED: Event := Event(1, 20)

  /** Bound, with one message end open and `calls` calls of `synchronize` waiting. */
  function OneEnd(calls: nat): Log {
    Log(true, true, None, [SETTLED], [SETTLED], None, false, 1, 20, 2, [], false, calls, false, 0)
  }

  /** Two overlapping calls of `synchronize`: the first settles the end, and then another end is too large. */
  const OVERLAPPING: seq<Action> :=
    [Bind] + ([MessageEnd(20)] + ([Synchronize] + ([Synchronize]
      + ([Settle([20])] + [MessageEnd(EVENT_MAX_BYTES + 1)]))))

  const SETTLED_ONCE: Log := OneEnd(1).(ends := [], timer := true)

  lemma EndSettles()
    ensures Next(Next(Start(), Bind), MessageEnd(20)) == OneEnd(0)
    ensures Next(OneEnd(2), Settle([20])) == SETTLED_ONCE
  {
    BytesOfOne(SETTLED);
    assert [] + [SETTLED] == [SETTLED] && [SETTLED][1..] == [] && [20][1..] == [];
    assert Priced([SETTLED], 1, 20) == [SETTLED] by { assert [SETTLED][..0] + [SETTLED] == [SETTLED]; }
    assert Reprice(OneEnd(1), [20]) == PriceFirst(OneEnd(1), 20);
  }

  lemma SettledOnceIdles()
    ensures var l := Next(SETTLED_ONCE, MessageEnd(EVENT_MAX_BYTES + 1)); Idle(l) && l.syncing == 1
    ensures var l := Next(SETTLED_ONCE, MessageEnd(EVENT_MAX_BYTES + 1)); Next(l, Settle([])).timer
  {
    BytesOfOne(SETTLED);
  }

  /** The second of the two calls is what may still wake an idle queue: it starts a timer although no end is open. */
  lemma WaitingCallWakes()
    ensures ValidRun(Start(), OVERLAPPING)
    ensures var l := After(Start(), OVERLAPPING);
      Idle(l) && Enabled(l, Settle([])) && Next(l, Settle([])).timer
  {
    var large := MessageEnd(EVENT_MAX_BYTES + 1);
    SettledOnceIdles();
    RunOne(SETTLED_ONCE, large, []);
    ToSettledOnce([large]);
  }

  lemma ToSettledOnce(rest: seq<Action>)
    requires ValidRun(SETTLED_ONCE, rest)
    ensures var run := [Bind] + ([MessageEnd(20)] + ([Synchronize] + ([Synchronize] + ([Settle([20])] + rest))));
      ValidRun(Start(), run) && After(Start(), run) == After(SETTLED_ONCE, rest)
  {
    EndSettles();
    var settle := [Settle([20])] + rest;
    RunOne(OneEnd(2), Settle([20]), rest);
    RunOne(OneEnd(1), Synchronize, settle);
    RunOne(OneEnd(0), Synchronize, [Synchronize] + settle);
    RunOne(Next(Start(), Bind), MessageEnd(20), [Synchronize] + ([Synchronize] + settle));
    RunOne(Start(), Bind, [MessageEnd(20)] + ([Synchronize] + ([Synchronize] + settle)));
  }
}
