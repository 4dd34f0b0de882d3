/**
 Multi-part delivery of one decision over one channel
 (`src/channels/decision-channels.ts`, lines 628 to 805 and 1244 to 1256). Calls are
 made one after the other; each may crash between any two store, projection and
 network operations, and each may bring other parts and other recipients.
 */
module DecisionDelivery {
  import opened Options

  type Digest = nat
  type Chat = string

  /** A part for a recipient, with its content. */
  datatype Key = Key(recipient: nat, part: nat, digest: Digest)

  datatype State = Intent | Confirmed | Unknown | Failed

  /** `CallRecord` stands for the records that open and complete a call. */
  datatype Record = PartRecord(key: Key, count: nat, state: State) | CallRecord(state: State)

  /** What `sendMessage` comes back with: an answer, an error that may hide a delivery, or a definite refusal. */
  datatype Answer = Delivered | Ambiguous | Rejected

  datatype Phase =
    | Starting | Looking | Intended | Answered(answer: Answer) | Projected | Failing(state: State)
    | PartFailed(state: State)

  datatype Call = Call(prior: seq<Record>, parts: seq<Digest>, chats: seq<Chat>, recipient: nat, part: nat,
                       phase: Phase)

  datatype Seen = Seen(digest: Digest, chat: Chat)

  /** `sends` counts the calls of `sendMessage`. */
  datatype Sys = Sys(records: seq<Record>, projection: map<(nat, nat), Seen>, sends: map<Key, nat>, call: Option<Call>)

  datatype Action =
    | Begin(parts: seq<Digest>, chats: seq<Chat>)
    | Open
    | Look
    | Send(answer: Answer)
    | Project(ok: bool)
    | Confirm(ok: bool, written: bool)
    | RecordPart
    | RecordCall
    | Crash

  function Sends(s: Sys, k: Key): nat {
    if k in s.sends then s.sends[k] else 0
  }

  predicate Recorded(records: seq<Record>, k: Key, state: State) {
    exists r <- records :: r.PartRecord? && r.key == k && r.state == state
  }

  predicate HasOutcome(records: seq<Record>, k: Key) {
    Recorded(records, k, Confirmed) || Recorded(records, k, Unknown) || Recorded(records, k, Failed)
  }

  predicate HasUnsettledDeliveryIntent(records: seq<Record>) {
    exists r <- records :: r.PartRecord? && r.state == Intent && !HasOutcome(records, r.key)
  }

  /** The answers of `deliver` that send nothing: adopted as complete, or given up as unknown. */
  predicate Adopted(records: seq<Record>) {
    || (exists r <- records :: r == CallRecord(Confirmed))
    || (exists r <- records :: r.state == Unknown)
    || HasUnsettledDeliveryIntent(records)
  }

  predicate ConfirmedBefore(prior: seq<Record>, k: Key, count: nat) {
    PartRecord(k, count, Confirmed) in prior
  }

  predicate AtPart(c: Call) { c.recipient < |c.chats| && c.part < |c.parts| }

  function Current(c: Call): Key
    requires AtPart(c)
  {
    Key(c.recipient + 1, c.part + 1, c.parts[c.part])
  }

  function Onward(c: Call): Call {
    c.(part := c.part + 1, phase := Looking)
  }

  predicate Enabled(s: Sys, a: Action) {
    match a
    case Begin(_, _) => s.call.None?
    case Open => s.call.Some? && s.call.value.phase.Starting?
    case Look => s.call.Some? && s.call.value.phase.Looking?
    case Send(_) => s.call.Some? && s.call.value.phase.Intended? && AtPart(s.call.value)
    case Project(_) => s.call.Some? && s.call.value.phase == Answered(Delivered) && AtPart(s.call.value)
    case Confirm(_, _) => s.call.Some? && s.call.value.phase.Projected? && AtPart(s.call.value)
    case RecordPart =>
      && s.call.Some? && AtPart(s.call.value)
      && (s.call.value.phase.Failing? || s.call.value.phase == Answered(Ambiguous) ||
          s.call.value.phase == Answered(Rejected))
    case RecordCall => s.call.Some? && s.call.value.phase.PartFailed?
    case Crash => s.call.Some?
  }

  function Write(s: Sys, r: Record, call: Option<Call>): Sys {
    s.(records := s.records + [r], call := call)
  }

  /**
   One round of the loops: skip what is known to have arrived, stop on evidence that does not fit, or
   announce the part.
   */
  function AfterLook(s: Sys, c: Call): Sys {
    if |c.chats| <= c.recipient then Write(s, CallRecord(Confirmed), None)
    else if |c.parts| <= c.part then s.(call := Some(c.(recipient := c.recipient + 1, part := 0)))
    else
      var k := Current(c);
      var at := (k.recipient, k.part);
      var confirmed := ConfirmedBefore(c.prior, k, |c.parts|);
      if confirmed && at in s.projection && s.projection[at] == Seen(k.digest, c.chats[c.recipient]) then
        s.(call := Some(Onward(c)))
      else if confirmed || at in s.projection then Write(s, PartRecord(k, |c.parts|, Unknown), None)
      else Write(s, PartRecord(k, |c.parts|, Intent), Some(c.(phase := Intended)))
  }

  function FailureState(phase: Phase): State {
    if phase.Failing? then phase.state else if phase == Answered(Rejected) then Failed else Unknown
  }

  function Next(s: Sys, a: Action): Sys
    requires Enabled(s, a)
  {
    match a
    case Begin(parts, chats) =>
      if Adopted(s.records) then s else s.(call := Some(Call(s.records, parts, chats, 0, 0, Starting)))
    case Open => Write(s, CallRecord(Intent), Some(s.call.value.(phase := Looking)))
    case Look => AfterLook(s, s.call.value)
    case Send(answer) =>
      var k := Current(s.call.value);
      s.(sends := s.sends[k := Sends(s, k) + 1], call := Some(s.call.value.(phase := Answered(answer))))
    case Project(ok) =>
      var c, k := s.call.value, Current(s.call.value);
      if ok then
        s.(projection := s.projection[(k.recipient, k.part) := Seen(k.digest, c.chats[c.recipient])],
           call := Some(c.(phase := Projected)))
      else s.(call := Some(c.(phase := Failing(Unknown))))
    case Confirm(ok, written) =>
      var c := s.call.value;
      var confirmed := PartRecord(Current(c), |c.parts|, Confirmed);
      if ok then Write(s, confirmed, Some(Onward(c)))
      else
        var failing := Some(c.(phase := Failing(Unknown)));
        if written then Write(s, confirmed, failing) else s.(call := failing)
    case RecordPart =>
      var c := s.call.value;
      var state := FailureState(c.phase);
      Write(s, PartRecord(Current(c), |c.parts|, state), Some(c.(phase := PartFailed(state))))
    case RecordCall => Write(s, CallRecord(s.call.value.phase.state), None)
    case Crash => s.(call := None)
  }

  predicate ValidRun(s: Sys, run: seq<Action>)
    decreases |run|
  {
    run == [] || (Enabled(s, run[0]) && ValidRun(Next(s, run[0]), run[1..]))
  }

  function After(s: Sys, run: seq<Action>): Sys
    requires ValidRun(s, run)
    decreases |run|
  {
    if run == [] then s else After(Next(s, run[0]), run[1..])
  }

  function Start(): Sys { Sys([], map[], map[], None) }

  // ----------------------------------------------------------------- the invariant

  /** Nothing speaks against announcing this key: what was sent of it was refused, or has arrived and is on file. */
  predicate Explained(s: Sys, k: Key) {
    0 < Sends(s, k) ==> Recorded(s.records, k, Failed) || (k.recipient, k.part) in s.projection
  }

  predicate KeyOk(s: Sys, k: Key) {
    && (0 < Sends(s, k) ==> Recorded(s.records, k, Intent))
    && (1 < Sends(s, k) ==> Recorded(s.records, k, Failed))
    && (Recorded(s.records, k, Confirmed) ==> (k.recipient, k.part) in s.projection)
  }

  /** The parts a call has still to look at. */
  predicate Ahead(c: Call, k: Key) {
    c.recipient + 1 < k.recipient || (c.recipient + 1 == k.recipient && c.part + 1 < k.part)
  }

  predicate Here(c: Call, k: Key) { k.recipient == c.recipient + 1 && k.part == c.part + 1 }

  predicate CallOk(s: Sys, k: Key) {
    s.call.Some? ==>
      var c := s.call.value;
      && (Ahead(c, k) ==> Explained(s, k))
      && ((c.phase.Starting? || c.phase.Looking?) && Here(c, k) ==> Explained(s, k))
      && (c.phase.Intended? && Here(c, k) ==>
            (k.recipient, k.part) !in s.projection && (AtPart(c) && k == Current(c) ==> Recorded(s.records, k, Intent)))
      && (c.phase.Intended? && Here(c, k) && 0 < Sends(s, k) ==> Recorded(s.records, k, Failed))
      && (c.phase.Projected? && Here(c, k) ==> (k.recipient, k.part) in s.projection)
  }

  predicate FailingOk(s: Sys) {
    s.call.Some? && s.call.value.phase.Failing? ==> s.call.value.phase.state == Unknown
  }

  ghost predicate Inv(s: Sys) { FailingOk(s) && forall k :: KeyOk(s, k) && CallOk(s, k) }

  lemma RecordedMore(records: seq<Record>, r: Record, k: Key, state: State)
    ensures Recorded(records + [r], k, state)
       <==> Recorded(records, k, state) || (r.PartRecord? && r.key == k && r.state == state)
  {
    if Recorded(records, k, state) {
      var x :| x in records && x.PartRecord? && x.key == k && x.state == state;
      assert x in records + [r];
    }
    if r.PartRecord? && r.key == k && r.state == state { assert r in records + [r]; }
  }

  /** A call that is not adopted starts with every earlier send explained. */
  lemma BeginExplains(s: Sys, k: Key)
    requires KeyOk(s, k) && !Adopted(s.records)
    ensures Explained(s, k)
  {
    if 0 < Sends(s, k) {
      var r :| r in s.records && r.PartRecord? && r.key == k && r.state == Intent;
      assert HasOutcome(s.records, r.key);
    }
  }

  lemma NextInv(s: Sys, a: Action)
    requires Inv(s) && Enabled(s, a)
    ensures Inv(Next(s, a))
  {
    var s' := Next(s, a);
    forall k ensures KeyOk(s', k) && CallOk(s', k) {
      assert KeyOk(s, k) && CallOk(s, k);
      if a.Begin? && !Adopted(s.records) { BeginExplains(s, k); }
      StepKey(s, a, s', k);
    }
  }

  /** What a new record at the current key says about any key. */
  lemma Wrote(s: Sys, r: Record, s': Sys, k: Key)
    requires s'.records == s.records + [r]
    ensures forall state :: Recorded(s'.records, k, state) <==>
      Recorded(s.records, k, state) || (r.PartRecord? && r.key == k && r.state == state)
  {
    forall state ensures Recorded(s'.records, k, state) <==>
      Recorded(s.records, k, state) || (r.PartRecord? && r.key == k && r.state == state)
    {
      RecordedMore(s.records, r, k, state);
    }
  }

  lemma LookKey(s: Sys, s': Sys, k: Key)
    requires Enabled(s, Look) && s' == Next(s, Look) && KeyOk(s, k) && CallOk(s, k)
    ensures KeyOk(s', k) && CallOk(s', k)
  {
    if |s'.records| == |s.records| + 1 { Wrote(s, s'.records[|s.records|], s', k); }
  }

  lemma SendKey(s: Sys, a: Action, s': Sys, k: Key)
    requires a.Send? && Enabled(s, a) && s' == Next(s, a) && KeyOk(s, k) && CallOk(s, k)
    ensures KeyOk(s', k) && CallOk(s', k)
  {
  }

  lemma ProjectKey(s: Sys, a: Action, s': Sys, k: Key)
    requires a.Project? && Enabled(s, a) && s' == Next(s, a) && KeyOk(s, k) && CallOk(s, k)
    ensures KeyOk(s', k) && CallOk(s', k)
  {
  }

  lemma ConfirmKey(s: Sys, a: Action, s': Sys, k: Key)
    requires a.Confirm? && Enabled(s, a) && s' == Next(s, a) && KeyOk(s, k) && CallOk(s, k)
    ensures KeyOk(s', k) && CallOk(s', k)
  {
    if a.ok || a.written {
      var c := s.call.value;
      Wrote(s, PartRecord(Current(c), |c.parts|, Confirmed), s', k);
    }
  }

  lemma RecordKey(s: Sys, a: Action, s': Sys, k: Key)
    requires a.RecordPart? && Enabled(s, a) && s' == Next(s, a) && KeyOk(s, k) && CallOk(s, k)
    requires FailureState(s.call.value.phase) != Confirmed
    ensures KeyOk(s', k) && CallOk(s', k)
  {
    var c := s.call.value;
    Wrote(s, PartRecord(Current(c), |c.parts|, FailureState(c.phase)), s', k);
  }

  lemma StepKey(s: Sys, a: Action, s': Sys, k: Key)
    requires Enabled(s, a) && s' == Next(s, a) && KeyOk(s, k) && CallOk(s, k)
    requires a.Begin? && !Adopted(s.records) ==> Explained(s, k)
    requires FailingOk(s)
    ensures KeyOk(s', k) && CallOk(s', k)
  {
    if a.Look? {
      LookKey(s, s', k);
    } else if a.Send? {
      SendKey(s, a, s', k);
    } else if a.Project? {
      ProjectKey(s, a, s', k);
    } else if a.Confirm? {
      ConfirmKey(s, a, s', k);
    } else if a.RecordPart? {
      RecordKey(s, a, s', k);
    } else if a.Open? {
      Wrote(s, CallRecord(Intent), s', k);
    } else if a.RecordCall? {
      Wrote(s, CallRecord(s.call.value.phase.state), s', k);
    }
  }

  lemma {:induction false} RunInv(s: Sys, run: seq<Action>)
    requires Inv(s) && ValidRun(s, run)
    ensures Inv(After(s, run))
    decreases |run|
  {
    if run != [] {
      NextInv(s, run[0]);
      RunInv(Next(s, run[0]), run[1..]);
    }
  }

  // ------------------------------------------------------------------ what follows

  /** What the three ways to pass a part are decided by: its confirmation on record, and what is on file for it. */
  lemma LookExactly(s: Sys, c: Call)
    requires s.call == Some(c) && c.phase.Looking? && AtPart(c)
    ensures var (k, s') := (Current(c), Next(s, Look));
      var confirmed := PartRecord(k, |c.parts|, Confirmed) in c.prior;
      var filed := (k.recipient, k.part) in s.projection;
      var same := filed && s.projection[(k.recipient, k.part)] == Seen(k.digest, c.chats[c.recipient]);
      && (confirmed && same ==> s' == s.(call := Some(c.(part := c.part + 1))))
      && ((confirmed || filed) && !(confirmed && same) ==>
            s' == s.(records := s.records + [PartRecord(k, |c.parts|, Unknown)], call := None))
      && (!confirmed && !filed ==>
            s' == s.(records := s.records + [PartRecord(k, |c.parts|, Intent)], call := Some(c.(phase := Intended))))
  {
  }

  /** The call stands at this part with this phase. */
  predicate Stands(s: Sys, k: Key, phase: Phase) {
    s.call.Some? && AtPart(s.call.value) && Current(s.call.value) == k && s.call.value.phase == phase
  }

  /** Some step of the run sends this part and gets this answer. */
  predicate WasAnswered(s: Sys, run: seq<Action>, k: Key, answer: Answer)
    requires ValidRun(s, run)
    decreases |run|
  {
    && run != []
    && ((run[0] == Send(answer) && Current(s.call.value) == k) || WasAnswered(Next(s, run[0]), run[1..], k, answer))
  }

  /** Where a confirmation or a refusal can still come from: what is on record, or an answer already in hand. */
  predicate InHand(s: Sys, k: Key, state: State) {
    || Recorded(s.records, k, state)
    || (state == Failed && Stands(s, k, Answered(Rejected)))
    || (state == Confirmed && (Stands(s, k, Answered(Delivered)) || Stands(s, k, Projected)))
  }

  lemma OneInHand(s: Sys, a: Action, k: Key, state: State)
    requires FailingOk(s) && Enabled(s, a) && (state == Failed || state == Confirmed) && InHand(Next(s, a), k, state)
    ensures InHand(s, k, state) ||
      (a == Send(if state == Failed then Rejected else Delivered) && Current(s.call.value) == k)
  {
    var s' := Next(s, a);
    if |s'.records| == |s.records| + 1 && Recorded(s'.records, k, state) {
      Wrote(s, s'.records[|s.records|], s', k);
    }
  }

  lemma {:induction false} InHandWasAnswered(s: Sys, run: seq<Action>, k: Key, state: State)
    requires Inv(s) && ValidRun(s, run) && (state == Failed || state == Confirmed) && InHand(After(s, run), k, state)
    ensures InHand(s, k, state) || WasAnswered(s, run, k, if state == Failed then Rejected else Delivered)
    decreases |run|
  {
    if run != [] {
      NextInv(s, run[0]);
      InHandWasAnswered(Next(s, run[0]), run[1..], k, state);
      if InHand(Next(s, run[0]), k, state) { OneInHand(s, run[0], k, state); }
    }
  }

  /**
   Main result: over any calls and crashes a part is on record as confirmed only if the network answered a send of it
   as delivered, and as refused only if it answered one with a definite refusal.
   */
  lemma RecordsWereAnswered(run: seq<Action>, k: Key)
    requires ValidRun(Start(), run)
    ensures Recorded(After(Start(), run).records, k, Failed) ==> WasAnswered(Start(), run, k, Rejected)
    ensures Recorded(After(Start(), run).records, k, Confirmed) ==> WasAnswered(Start(), run, k, Delivered)
  {
    assert Inv(Start());
    if Recorded(After(Start(), run).records, k, Failed) { InHandWasAnswered(Start(), run, k, Failed); }
    if Recorded(After(Start(), run).records, k, Confirmed) { InHandWasAnswered(Start(), run, k, Confirmed); }
  }

  /**
   Over any calls and crashes, a part is sent to a recipient at most once unless a definite refusal of
   it is on record.
   */
  lemma NoBlindResend(run: seq<Action>, k: Key)
    requires ValidRun(Start(), run)
    ensures var s := After(Start(), run);
      Sends(s, k) <= 1 || Recorded(s.records, k, Failed)
  {
    assert Inv(Start());
    RunInv(Start(), run);
    assert KeyOk(After(Start(), run), k);
  }

  /**
   No message goes out before its intent is on record, nor where some content of that part is known to
   have arrived.
   */
  lemma ConfirmedIsNeverResent(s: Sys, a: Action, k: Key)
    requires Inv(s) && Enabled(s, a) && Sends(Next(s, a), k) != Sends(s, k)
    ensures Recorded(s.records, k, Intent)
    ensures forall d :: !Recorded(s.records, Key(k.recipient, k.part, d), Confirmed)
  {
    assert CallOk(s, k);
    forall d
      ensures !Recorded(s.records, Key(k.recipient, k.part, d), Confirmed)
    {
      assert KeyOk(s, Key(k.recipient, k.part, d));
    }
  }

  predicate Attempted(records: seq<Record>, k: Key) { Recorded(records, k, Intent) }

  /** The gate's view of one part: it stops for an attempt of it unless any outcome of it is on record. */
  predicate GateStopsFor(records: seq<Record>, k: Key) { Attempted(records, k) && !HasOutcome(records, k) }

  /** The gate of a call is the gate of some part. */
  lemma GateIsPerPart(records: seq<Record>)
    ensures HasUnsettledDeliveryIntent(records) <==> exists k :: GateStopsFor(records, k)
  {
    if HasUnsettledDeliveryIntent(records) {
      var r :| r in records && r.PartRecord? && r.state == Intent && !HasOutcome(records, r.key);
      assert GateStopsFor(records, r.key);
    }
    if k :| GateStopsFor(records, k) {
      var r :| r in records && r.PartRecord? && r.key == k && r.state == Intent;
      assert !HasOutcome(records, r.key);
    }
  }

  // ------------------------------------------------- sends whose answer is not on record

  function Refusals(records: seq<Record>, k: Key): nat {
    if records == [] then 0
    else
      var r := records[|records| - 1];
      Refusals(records[..|records| - 1], k) + if r.PartRecord? && r.key == k && r.state == Failed then 1 else 0
  }

  /** The records that answer a send of `k`: refused, arrived, or given up as unknown. */
  function Answers(records: seq<Record>, k: Key): nat {
    if records == [] then 0
    else
      var r := records[|records| - 1];
      Answers(records[..|records| - 1], k) + if r.PartRecord? && r.key == k && r.state != Intent then 1 else 0
  }

  lemma RecordsOne(records: seq<Record>, r: Record, k: Key)
    ensures Refusals(records + [r], k)
         == Refusals(records, k) + if r.PartRecord? && r.key == k && r.state == Failed then 1 else 0
    ensures Answers(records + [r], k)
         == Answers(records, k) + if r.PartRecord? && r.key == k && r.state != Intent then 1 else 0
  {
    assert (records + [r])[..|records|] == records;
  }

  lemma {:induction false} AnswersAre(records: seq<Record>, k: Key)
    ensures Recorded(records, k, Failed) <==> 0 < Refusals(records, k)
    ensures !Recorded(records, k, Confirmed) && !Recorded(records, k, Unknown) ==>
      Answers(records, k) == Refusals(records, k)
    decreases |records|
  {
    if records != [] {
      var b, r := records[..|records| - 1], records[|records| - 1];
      assert b + [r] == records;
      AnswersAre(b, k);
      RecordedMore(b, r, k, Failed);
      RecordedMore(b, r, k, Confirmed);
      RecordedMore(b, r, k, Unknown);
    }
  }

  /** The send of `k` that is under way has no record yet. */
  predicate InTheAir(s: Sys, k: Key) {
    && s.call.Some? && AtPart(s.call.value) && Current(s.call.value) == k
    && (s.call.value.phase.Answered? || s.call.value.phase.Projected? || s.call.value.phase.Failing?)
  }

  /** Every refusal answers a send of its own; and while a call goes on nothing is given up as unknown. */
  ghost predicate CountOk(s: Sys) {
    && (forall k :: Refusals(s.records, k) + (if InTheAir(s, k) then 1 else 0) <= Sends(s, k))
    && (s.call.Some? && !s.call.value.phase.PartFailed? ==> forall r <- s.records :: r.state != Unknown)
  }

  lemma CountKept(s: Sys, s': Sys, r: Record)
    requires CountOk(s) && s'.records == s.records + [r] && s'.sends == s.sends
    requires r.PartRecord? && r.state == Failed ==> InTheAir(s, r.key) && !InTheAir(s', r.key)
    requires forall k :: InTheAir(s', k) ==> InTheAir(s, k)
    requires s'.call.Some? && !s'.call.value.phase.PartFailed? ==>
      s.call.Some? && !s.call.value.phase.PartFailed? && r.state != Unknown
    ensures CountOk(s')
  {
    forall k ensures Refusals(s'.records, k) + (if InTheAir(s', k) then 1 else 0) <= Sends(s', k) {
      RecordsOne(s.records, r, k);
      assert Refusals(s.records, k) + (if InTheAir(s, k) then 1 else 0) <= Sends(s, k);
    }
  }

  lemma CountStill(s: Sys, s': Sys)
    requires CountOk(s) && s'.records == s.records && s'.sends == s.sends
    requires forall k :: InTheAir(s', k) ==> InTheAir(s, k)
    requires s'.call.Some? && !s'.call.value.phase.PartFailed? ==> forall r <- s.records :: r.state != Unknown
    ensures CountOk(s')
  {
    forall k ensures Refusals(s'.records, k) + (if InTheAir(s', k) then 1 else 0) <= Sends(s', k) {
      assert Refusals(s.records, k) + (if InTheAir(s, k) then 1 else 0) <= Sends(s, k);
    }
  }

  lemma CountStep(s: Sys, a: Action)
    requires CountOk(s) && Enabled(s, a)
    ensures CountOk(Next(s, a))
  {
    var s' := Next(s, a);
    match a
    case Begin(_, _) => CountStill(s, s');
    case Open => CountKept(s, s', CallRecord(Intent));
    case Look => CountLook(s, s');
    case Send(_) =>
      forall k ensures Refusals(s'.records, k) + (if InTheAir(s', k) then 1 else 0) <= Sends(s', k) {
        assert Refusals(s.records, k) + (if InTheAir(s, k) then 1 else 0) <= Sends(s, k);
      }
    case Project(_) => CountStill(s, s');
    case Confirm(ok, written) =>
      if ok || written {
        CountKept(s, s', PartRecord(Current(s.call.value), |s.call.value.parts|, Confirmed));
      } else {
        CountStill(s, s');
      }
    case RecordPart =>
      CountKept(s, s', PartRecord(Current(s.call.value), |s.call.value.parts|, FailureState(s.call.value.phase)));
    case RecordCall => CountKept(s, s', CallRecord(s.call.value.phase.state));
    case Crash => CountStill(s, s');
  }

  lemma CountLook(s: Sys, s': Sys)
    requires CountOk(s) && Enabled(s, Look) && s' == Next(s, Look)
    ensures CountOk(s')
  {
    if |s'.records| == |s.records| { CountStill(s, s'); } else { CountKept(s, s', s'.records[|s.records|]); }
  }

  lemma {:induction false} RunCounts(s: Sys, run: seq<Action>)
    requires CountOk(s) && ValidRun(s, run)
    ensures CountOk(After(s, run))
    decreases |run|
  {
    if run != [] {
      CountStep(s, run[0]);
      RunCounts(Next(s, run[0]), run[1..]);
    }
  }

  /**
   Main result: a part is sent although an earlier send of it has no answer on record exactly when one
   earlier send of it was refused and another one was not, since the gate takes the refusal for both. All
   the answers that are on record at that moment are refusals, and each is that of a different send.
   */
  lemma ResendsUnansweredExactly(run: seq<Action>, answer: Answer)
    requires ValidRun(Start(), run) && Enabled(After(Start(), run), Send(answer))
    ensures var s := After(Start(), run);
      var k := Current(s.call.value);
      && Answers(s.records, k) == Refusals(s.records, k) <= Sends(s, k)
      && (Answers(s.records, k) < Sends(s, k) <==> 0 < Refusals(s.records, k) < Sends(s, k))
  {
    var s := After(Start(), run);
    var k := Current(s.call.value);
    assert Inv(Start()) && CountOk(Start());
    RunInv(Start(), run);
    RunCounts(Start(), run);
    assert KeyOk(s, k) && CallOk(s, k);
    assert !Recorded(s.records, k, Confirmed) && !Recorded(s.records, k, Unknown);
    AnswersAre(s.records, k);
    assert Refusals(s.records, k) + (if InTheAir(s, k) then 1 else 0) <= Sends(s, k);
  }

  lemma {:induction false} RunAppend(s: Sys, run: seq<Action>, more: seq<Action>)
    requires ValidRun(s, run) && ValidRun(After(s, run), more)
    ensures ValidRun(s, run + more) && After(s, run + more) == After(After(s, run), more)
    decreases |run|
  {
    if run == [] {
      assert run + more == more;
    } else {
      assert (run + more)[1..] == run[1..] + more;
      RunAppend(Next(s, run[0]), run[1..], more);
    }
  }

  lemma One(s: Sys, a: Action)
    requires Enabled(s, a)
    ensures ValidRun(s, [a]) && After(s, [a]) == Next(s, a)
  {
    assert [a][1..] == [];
    assert ValidRun(Next(s, a), []);
  }

  const PARTS: seq<Digest> := [5]
  const CHATS: seq<Chat> := ["c"]
  const KEY: Key := Key(1, 1, 5)

  function Attempt(answer: Answer): seq<Action> { [Begin(PARTS, CHATS)] + [Open] + [Look] + [Send(answer)] }

  /** A call for one part and one recipient, up to the answer of the network. */
  lemma AttemptRuns(s: Sys, answer: Answer)
    requires s.call.None? && !Adopted(s.records) && (1, 1) !in s.projection
    requires !ConfirmedBefore(s.records, KEY, 1)
    ensures ValidRun(s, Attempt(answer))
    ensures var s' := After(s, Attempt(answer));
      && s'.records == s.records + [CallRecord(Intent), PartRecord(KEY, 1, Intent)]
      && s'.projection == s.projection && Sends(s', KEY) == Sends(s, KEY) + 1
      && s'.call == Some(Call(s.records, PARTS, CHATS, 0, 0, Answered(answer)))
  {
    var s1 := Next(s, Begin(PARTS, CHATS));
    var s2 := Next(s1, Open);
    assert Current(s2.call.value) == KEY;
    var s3 := Next(s2, Look);
    One(s, Begin(PARTS, CHATS));
    One(s1, Open);
    One(s2, Look);
    One(s3, Send(answer));
    RunAppend(s, [Begin(PARTS, CHATS)], [Open]);
    RunAppend(s, [Begin(PARTS, CHATS)] + [Open], [Look]);
    RunAppend(s, [Begin(PARTS, CHATS)] + [Open] + [Look], [Send(answer)]);
  }

  predicate Quiet(s: Sys) {
    s.call.None? && !Adopted(s.records) && (1, 1) !in s.projection && !ConfirmedBefore(s.records, KEY, 1)
  }

  const REFUSED: seq<Action> := Attempt(Rejected) + ([RecordPart] + [RecordCall])
  const LOST: seq<Action> := Attempt(Delivered) + [Crash]
  const AFTER_REFUSAL: seq<Record> :=
    [CallRecord(Intent), PartRecord(KEY, 1, Intent), PartRecord(KEY, 1, Failed), CallRecord(Failed)]

  lemma RefusedCall()
    ensures ValidRun(Start(), REFUSED)
    ensures var s := After(Start(), REFUSED);
      s.call.None? && s.projection == map[] && Sends(s, KEY) == 1 && s.records == AFTER_REFUSAL
  {
    AttemptRuns(Start(), Rejected);
    var s1 := After(Start(), Attempt(Rejected));
    One(s1, RecordPart);
    One(Next(s1, RecordPart), RecordCall);
    RunAppend(s1, [RecordPart], [RecordCall]);
    RunAppend(Start(), Attempt(Rejected), [RecordPart] + [RecordCall]);
  }

  lemma LostCall(s: Sys)
    requires Quiet(s)
    ensures ValidRun(s, LOST)
    ensures var s' := After(s, LOST);
      && s'.call.None? && s'.projection == s.projection && Sends(s', KEY) == Sends(s, KEY) + 1
      && s'.records == s.records + [CallRecord(Intent), PartRecord(KEY, 1, Intent)]
  {
    AttemptRuns(s, Delivered);
    One(After(s, Attempt(Delivered)), Crash);
    RunAppend(s, Attempt(Delivered), [Crash]);
  }

  /** One refusal of the part, and attempts at it that crashed. */
  predicate Overlooked(records: seq<Record>) {
    && PartRecord(KEY, 1, Failed) in records && Refusals(records, KEY) == 1
    && forall r <- records ::
         || r == CallRecord(Intent) || r == CallRecord(Failed)
         || r == PartRecord(KEY, 1, Intent) || r == PartRecord(KEY, 1, Failed)
  }

  lemma StillQuiet(s: Sys)
    requires s.call.None? && s.projection == map[] && Overlooked(s.records)
    ensures Quiet(s)
  {
  }

  lemma StillOverlooked(records: seq<Record>)
    requires Overlooked(records)
    ensures Overlooked(records + [CallRecord(Intent), PartRecord(KEY, 1, Intent)])
  {
    RecordsOne(records, CallRecord(Intent), KEY);
    RecordsOne(records + [CallRecord(Intent)], PartRecord(KEY, 1, Intent), KEY);
    assert records + [CallRecord(Intent), PartRecord(KEY, 1, Intent)]
       == (records + [CallRecord(Intent)]) + [PartRecord(KEY, 1, Intent)];
  }

  lemma RefusalIsOverlooked()
    ensures Overlooked(AFTER_REFUSAL)
  {
    var a, b, c, d := CallRecord(Intent), PartRecord(KEY, 1, Intent), PartRecord(KEY, 1, Failed), CallRecord(Failed);
    RecordsOne([], a, KEY);
    RecordsOne([] + [a], b, KEY);
    RecordsOne([] + [a] + [b], c, KEY);
    RecordsOne([] + [a] + [b] + [c], d, KEY);
    assert AFTER_REFUSAL == [] + [a] + [b] + [c] + [d];
    assert AFTER_REFUSAL[2] == c;
  }

  /** From one refusal on, each further call sends the part once more and crashes. */
  lemma {:induction false} LostCalls(s: Sys, m: nat) returns (run: seq<Action>)
    requires s.call.None? && s.projection == map[] && Overlooked(s.records)
    ensures ValidRun(s, run)
    ensures var s' := After(s, run); Sends(s', KEY) == Sends(s, KEY) + m && Refusals(s'.records, KEY) == 1
    decreases m
  {
    if m == 0 {
      run := [];
    } else {
      StillQuiet(s);
      LostCall(s);
      StillOverlooked(s.records);
      var rest := LostCalls(After(s, LOST), m - 1);
      RunAppend(s, LOST, rest);
      run := LOST + rest;
    }
  }

  /** With a single refusal on record, a part can be sent any number of times. */
  lemma RefusalThenCrashesResend(n: nat)
    requires 0 < n
    ensures exists run ::
      ValidRun(Start(), run) && Sends(After(Start(), run), KEY) == n && Refusals(After(Start(), run).records, KEY) == 1
  {
    RefusedCall();
    RefusalIsOverlooked();
    var s1 := After(Start(), REFUSED);
    var rest := LostCalls(s1, n - 1);
    RunAppend(Start(), REFUSED, rest);
    assert ValidRun(Start(), REFUSED + rest);
  }
}
