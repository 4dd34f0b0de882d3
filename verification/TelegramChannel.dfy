/**
 `TelegramDecisionChannel.deliver` as the loops it is, over records, projection and
 network. Each store, projection or network operation is one step of
 `DecisionDelivery`, kept in `trace`, so a whole call is a run of that machine.
 */
module TelegramChannel {
  import opened Options
  import opened DecisionDelivery

  /** What happens to one part: the network's answer, and whether filing it throws. */
  datatype PartOutcome = Arrives | AnswerLost | Refused | ProjectionThrows | ConfirmThrows(written: bool)

  datatype Status = Delivered | NotConfirmed(state: State)

  /** What became of one pass over a part. */
  datatype Progress = Went | Stopped(state: State)

  function AnswerOf(o: PartOutcome): Answer {
    match o
    case AnswerLost => Ambiguous
    case Refused => Rejected
    case _ => Answer.Delivered
  }

  function OutcomeOf(outcomes: map<(nat, nat), PartOutcome>, r: nat, p: nat): PartOutcome {
    if (r, p) in outcomes then outcomes[(r, p)] else Arrives
  }

  // --------------------------------------------- a call that nothing interrupts

  predicate AtLook(s: Sys) { s.call.Some? && s.call.value.phase.Looking? }

  /** The two records of a part that did not arrive. */
  function GivenUp(s: Sys): (s': Sys)
    requires Enabled(s, RecordPart)
    ensures s'.call.None? && s'.projection == s.projection && s'.sends == s.sends
    ensures var c := s.call.value;
      s'.records == s.records + [PartRecord(Current(c), |c.parts|, FailureState(c.phase))]
                              + [CallRecord(FailureState(c.phase))]
  {
    Next(Next(s, RecordPart), RecordCall)
  }

  /** From the announcement of a part to its confirmation, or to the end of the call. */
  function Announced(s: Sys, o: PartOutcome): (s': Sys)
    requires Enabled(s, Send(AnswerOf(o)))
    ensures s'.call == if o.Arrives? then Some(Onward(s.call.value)) else None
  {
    var sent := Next(s, Send(AnswerOf(o)));
    match o
    case AnswerLost | Refused => GivenUp(sent)
    case ProjectionThrows => GivenUp(Next(sent, Project(false)))
    case ConfirmThrows(written) => GivenUp(Next(Next(sent, Project(true)), Confirm(false, written)))
    case Arrives => Next(Next(sent, Project(true)), Confirm(true, true))
  }

  function Part(s: Sys, o: PartOutcome): (s': Sys)
    requires AtLook(s) && AtPart(s.call.value)
    ensures s'.call == None || s'.call == Some(Onward(s.call.value))
  {
    var looked := Next(s, Look);
    if looked.call.Some? && looked.call.value.phase.Intended? then Announced(looked, o) else looked
  }

  /** The rest of a call, given what happens to each part. */
  function Carried(s: Sys, outcomes: map<(nat, nat), PartOutcome>): (s': Sys)
    requires AtLook(s)
    ensures s'.call.None?
    decreases |s.call.value.chats| - s.call.value.recipient, |s.call.value.parts| - s.call.value.part
  {
    var c := s.call.value;
    if !AtPart(c) then
      var s1 := Next(s, Look);
      if s1.call.None? then s1 else Carried(s1, outcomes)
    else
      var s1 := Part(s, OutcomeOf(outcomes, c.recipient, c.part));
      if s1.call.None? then s1 else Carried(s1, outcomes)
  }

  /** A call that was not adopted, with its opening record written. */
  function Opened(s: Sys, parts: seq<Digest>, chats: seq<Chat>): (s': Sys)
    requires s.call.None? && !Adopted(s.records)
    ensures s'.call == Some(Call(s.records, parts, chats, 0, 0, Looking))
    ensures s'.records == s.records + [CallRecord(State.Intent)]
  {
    Next(Next(s, Action.Begin(parts, chats)), Open)
  }

  /** What the caller is told: the state of the last record. */
  function Told(records: seq<Record>): Status
    requires records != []
  {
    var last := records[|records| - 1];
    if last == CallRecord(State.Confirmed) then Status.Delivered else NotConfirmed(last.state)
  }

  predicate PartConfirmed(records: seq<Record>, parts: seq<Digest>, r: nat, p: nat)
    requires p < |parts|
  {
    PartRecord(Key(r + 1, p + 1, parts[p]), |parts|, State.Confirmed) in records
  }

  /** Every part up to where the call stands has its confirmation on record. */
  ghost predicate ConfirmedUpTo(records: seq<Record>, parts: seq<Digest>, r: nat, p: nat) {
    forall i: nat, j: nat :: (i < r || (i == r && j < p)) && j < |parts| ==> PartConfirmed(records, parts, i, j)
  }

  /** A recipient that has got all its parts is done. */
  lemma NextRecipientUpTo(records: seq<Record>, parts: seq<Digest>, r: nat, p: nat)
    requires ConfirmedUpTo(records, parts, r, p) && |parts| <= p
    ensures ConfirmedUpTo(records, parts, r + 1, 0)
  {
    forall i: nat, j: nat | i < r + 1 && j < |parts| ensures PartConfirmed(records, parts, i, j) {
      assert i < r || (i == r && j < p);
    }
  }

  lemma OneMoreConfirmed(records: seq<Record>, more: seq<Record>, parts: seq<Digest>, r: nat, p: nat)
    requires ConfirmedUpTo(records, parts, r, p) && p < |parts| && records <= more && PartConfirmed(more, parts, r, p)
    ensures ConfirmedUpTo(more, parts, r, p + 1)
  {
    forall i: nat, j: nat | (i < r || (i == r && j < p + 1)) && j < |parts| ensures PartConfirmed(more, parts, i, j) {
      if i < r || (i == r && j < p) { assert PartConfirmed(records, parts, i, j); }
    }
  }

  lemma AnnouncedRecords(s: Sys, o: PartOutcome, s': Sys)
    requires Enabled(s, Send(AnswerOf(o))) && s' == Announced(s, o)
    ensures s.records <= s'.records
    ensures o.Arrives? ==>
      s'.records == s.records + [PartRecord(Current(s.call.value), |s.call.value.parts|, State.Confirmed)]
    ensures !o.Arrives? ==> s'.records != [] && Told(s'.records) == NotConfirmed(if o.Refused? then Failed else Unknown)
  {
  }

  lemma PartConfirms(s: Sys, o: PartOutcome, s': Sys)
    requires AtLook(s) && AtPart(s.call.value) && s' == Part(s, o)
    requires s.call.value.prior <= s.records
    ensures s.records <= s'.records
    ensures s'.call.Some? ==> PartConfirmed(s'.records, s.call.value.parts, s.call.value.recipient, s.call.value.part)
    ensures s'.call.None? ==> s'.records != [] && !Told(s'.records).Delivered?
  {
    var c := s.call.value;
    var looked := Next(s, Look);
    if looked.call.Some? && looked.call.value.phase.Intended? {
      AnnouncedRecords(looked, o, s');
    } else if looked.call.Some? {
      assert PartRecord(Current(c), |c.parts|, State.Confirmed) in s.records;
    }
  }

  /** Told that a decision was delivered, the caller can find every part for every recipient confirmed. */
  lemma {:induction false} CarriedConfirms(s: Sys, outcomes: map<(nat, nat), PartOutcome>)
    requires AtLook(s) && s.call.value.prior <= s.records
    requires ConfirmedUpTo(s.records, s.call.value.parts, s.call.value.recipient, s.call.value.part)
    ensures var s' := Carried(s, outcomes);
      && s'.records != []
      && (Told(s'.records).Delivered? ==> ConfirmedUpTo(s'.records, s.call.value.parts, |s.call.value.chats|, 0))
    decreases |s.call.value.chats| - s.call.value.recipient, |s.call.value.parts| - s.call.value.part
  {
    var c := s.call.value;
    if AtPart(c) {
      var s1 := Part(s, OutcomeOf(outcomes, c.recipient, c.part));
      PartConfirms(s, OutcomeOf(outcomes, c.recipient, c.part), s1);
      if s1.call.Some? {
        OneMoreConfirmed(s.records, s1.records, c.parts, c.recipient, c.part);
        CarriedConfirms(s1, outcomes);
      }
    } else if c.recipient < |c.chats| {
      NextRecipientUpTo(s.records, c.parts, c.recipient, c.part);
      CarriedConfirms(Next(s, Look), outcomes);
    } else {
      ClosedUpTo(s.records, s.records + [CallRecord(State.Confirmed)], c);
    }
  }

  lemma ClosedUpTo(records: seq<Record>, more: seq<Record>, c: Call)
    requires ConfirmedUpTo(records, c.parts, c.recipient, c.part) && |c.chats| <= c.recipient && records <= more
    ensures ConfirmedUpTo(more, c.parts, |c.chats|, 0)
  {
    forall i: nat, j: nat | i < |c.chats| && j < |c.parts| ensures PartConfirmed(more, c.parts, i, j) {
      assert PartConfirmed(records, c.parts, i, j);
    }
  }

  class Channel {
    var records: seq<Record>
    var projection: map<(nat, nat), Seen>
    ghost var sends: map<Key, nat>
    ghost var call: Option<Call>
    ghost var trace: seq<Action>

    ghost function View(): Sys
      reads this
    {
      Sys(records, projection, sends, call)
    }

    ghost predicate Valid()
      reads this
    {
      ValidRun(Start(), trace) && After(Start(), trace) == View()
    }

    constructor ()
      ensures Valid() && call.None? && trace == []
    {
      records, projection, sends, call, trace := [], map[], map[], None, [];
    }

    ghost method Did(a: Action, before: Sys)
      requires ValidRun(Start(), trace) && After(Start(), trace) == before && Enabled(before, a)
      requires View() == Next(before, a)
      modifies this`trace
      ensures Valid() && trace == old(trace) + [a]
    {
      One(before, a);
      RunAppend(Start(), trace, [a]);
      trace := trace + [a];
    }

    /** `listDeliveries` and the three ways to give up before sending anything. */
    method Begin(parts: seq<Digest>, chats: seq<Chat>) returns (prior: seq<Record>, adopted: bool)
      requires Valid() && call.None?
      modifies this`call, this`trace
      ensures Valid() && prior == records && adopted == Adopted(records)
      ensures View() == Next(old(View()), Action.Begin(parts, chats))
    {
      ghost var before := View();
      prior := records;
      adopted := Adopted(records);
      call := if adopted then None else Some(Call(prior, parts, chats, 0, 0, Starting));
      Did(Action.Begin(parts, chats), before);
    }

    method RecordDelivery(r: Record, ghost a: Action, ghost after: Option<Call>)
      requires Valid() && Enabled(View(), a) && Next(View(), a) == Write(View(), r, after)
      modifies this`records, this`call, this`trace
      ensures Valid() && View() == Next(old(View()), a) && records == old(records) + [r]
    {
      ghost var before := View();
      records := records + [r];
      call := after;
      Did(a, before);
    }

    /** The announced part goes out; the projection and the record of its arrival follow. */
    method SendAnnounced(k: Key, count: nat, chat: Chat, o: PartOutcome) returns (progress: Progress)
      requires Valid() && call.Some? && call.value.phase.Intended? && AtPart(call.value)
      requires k == Current(call.value) && count == |call.value.parts| && chat == call.value.chats[call.value.recipient]
      modifies this
      ensures Valid()
      ensures View() == Announced(old(View()), o)
      ensures progress.Went? <==> o.Arrives?
      ensures progress.Stopped? ==> records != [] && Told(records) == NotConfirmed(progress.state)
    {
      ghost var c := call.value;
      Transmit(k, AnswerOf(o));
      if !o.AnswerLost? && !o.Refused? {
        FileProjection(k, chat, !o.ProjectionThrows?);
        if !o.ProjectionThrows? {
          if o.Arrives? {
            RecordDelivery(PartRecord(k, count, State.Confirmed), Action.Confirm(true, true), Some(Onward(c)));
            return Went;
          }
          ConfirmFails(k, count, o.written);
        }
      }
      var state := if o.Refused? then Failed else Unknown;
      GiveUp(k, count, state);
      return Stopped(state);
    }

    /** The `catch`: what is known of the part, and of the call. */
    method GiveUp(k: Key, count: nat, state: State)
      requires Valid() && Enabled(View(), Action.RecordPart) && state == FailureState(call.value.phase)
      requires k == Current(call.value) && count == |call.value.parts|
      modifies this`records, this`call, this`trace
      ensures Valid() && View() == GivenUp(old(View()))
      ensures projection == old(projection)
      ensures records == old(records) + [PartRecord(k, count, state)] + [CallRecord(state)]
    {
      ghost var c := call.value;
      RecordDelivery(PartRecord(k, count, state), Action.RecordPart, Some(c.(phase := PartFailed(state))));
      RecordDelivery(CallRecord(state), Action.RecordCall, None);
    }

    /** `sendMessage`. */
    method Transmit(k: Key, answer: Answer)
      requires Valid() && call.Some? && call.value.phase.Intended? && AtPart(call.value) && k == Current(call.value)
      modifies this`sends, this`call, this`trace
      ensures Valid() && View() == Next(old(View()), Action.Send(answer))
    {
      ghost var before := View();
      sends := sends[k := Sends(before, k) + 1];
      call := Some(call.value.(phase := Answered(answer)));
      Did(Action.Send(answer), before);
    }

    /** `putMessage` and `putMessagePart`. */
    method FileProjection(k: Key, chat: Chat, ok: bool)
      requires Valid() && call.Some? && call.value.phase == Answered(Answer.Delivered) && AtPart(call.value)
      requires k == Current(call.value) && chat == call.value.chats[call.value.recipient]
      modifies this`projection, this`call, this`trace
      ensures Valid() && View() == Next(old(View()), Action.Project(ok))
    {
      ghost var before := View();
      if ok { projection := projection[(k.recipient, k.part) := Seen(k.digest, chat)]; }
      call := Some(call.value.(phase := if ok then Projected else Failing(Unknown)));
      Did(Action.Project(ok), before);
    }

    /** The write of the confirmation throws, after or before it took effect. */
    method ConfirmFails(k: Key, count: nat, written: bool)
      requires Valid() && call.Some? && call.value.phase.Projected? && AtPart(call.value)
      requires k == Current(call.value) && count == |call.value.parts|
      modifies this`records, this`call, this`trace
      ensures Valid() && View() == Next(old(View()), Action.Confirm(false, written))
    {
      ghost var before := View();
      if written { records := records + [PartRecord(k, count, State.Confirmed)]; }
      call := Some(call.value.(phase := Failing(Unknown)));
      Did(Action.Confirm(false, written), before);
    }

    /** One part for one recipient. */
    method DeliverPart(prior: seq<Record>, k: Key, count: nat, chat: Chat, o: PartOutcome) returns (progress: Progress)
      requires Valid() && call.Some? && call.value.phase.Looking? && AtPart(call.value) && prior == call.value.prior
      requires k == Current(call.value) && count == |call.value.parts| && chat == call.value.chats[call.value.recipient]
      modifies this
      ensures Valid() && View() == Part(old(View()), o)
      ensures progress.Went? <==> call.Some?
      ensures progress.Stopped? ==> records != [] && Told(records) == NotConfirmed(progress.state)
    {
      ghost var c := call.value;
      var at := (k.recipient, k.part);
      var confirmed := ConfirmedBefore(prior, k, count);
      if confirmed && at in projection && projection[at] == Seen(k.digest, chat) {
        ghost var before := View();
        call := Some(Onward(c));
        Did(Action.Look, before);
        return Went;
      }
      if confirmed || at in projection {
        RecordDelivery(PartRecord(k, count, Unknown), Action.Look, None);
        return Stopped(Unknown);
      }
      RecordDelivery(PartRecord(k, count, State.Intent), Action.Look, Some(c.(phase := Intended)));
      progress := SendAnnounced(k, count, chat, o);
    }

    ghost method NextRecipient()
      requires Valid() && AtLook(View())
      requires call.value.recipient < |call.value.chats| && |call.value.parts| <= call.value.part
      modifies this`call, this`trace
      ensures Valid() && View() == Next(old(View()), Action.Look)
    {
      var before := View();
      call := Some(call.value.(recipient := call.value.recipient + 1, part := 0));
      Did(Action.Look, before);
    }

    /** The parts of one recipient. */
    method DeliverTo(prior: seq<Record>, parts: seq<Digest>, r: nat, chat: Chat, outcomes: map<(nat, nat), PartOutcome>)
      returns (progress: Progress)
      requires Valid() && call.Some? && r < |call.value.chats| && chat == call.value.chats[r]
      requires call == Some(Call(prior, parts, call.value.chats, r, 0, Looking))
      modifies this
      ensures Valid()
      ensures progress.Went? ==>
        && call == Some(Call(prior, parts, old(call).value.chats, r + 1, 0, Looking))
        && Carried(View(), outcomes) == Carried(old(View()), outcomes)
      ensures progress.Stopped? ==>
        View() == Carried(old(View()), outcomes) && records != [] && Told(records) == NotConfirmed(progress.state)
    {
      ghost var chats := call.value.chats;
      ghost var all := Carried(View(), outcomes);
      for p := 0 to |parts|
        invariant Valid() && call == Some(Call(prior, parts, chats, r, p, Looking))
        invariant all == Carried(View(), outcomes)
      {
        progress := DeliverPart(prior, Key(r + 1, p + 1, parts[p]), |parts|, chat, OutcomeOf(outcomes, r, p));
        if progress.Stopped? { return; }
      }
      NextRecipient();
      progress := Went;
    }

    /**
     A call that finds evidence of an earlier one changes nothing; any other goes through all parts
     and recipients until one fails, and says it delivered only with every part confirmed.
     */
    method Deliver(parts: seq<Digest>, chats: seq<Chat>, outcomes: map<(nat, nat), PartOutcome>)
      returns (status: Status)
      requires Valid() && call.None?
      modifies this
      ensures Valid()
      ensures Adopted(old(records)) ==>
        && View() == old(View())
        && status == if CallRecord(State.Confirmed) in records then Status.Delivered else NotConfirmed(Unknown)
      ensures !Adopted(old(records)) ==>
        && View() == Carried(Opened(old(View()), parts, chats), outcomes)
        && records != [] && status == Told(records)
        && (status.Delivered? ==> ConfirmedUpTo(records, parts, |chats|, 0))
    {
      var prior, adopted := Begin(parts, chats);
      if adopted {
        return if CallRecord(State.Confirmed) in prior then Status.Delivered else NotConfirmed(Unknown);
      }
      RecordDelivery(CallRecord(State.Intent), Action.Open, Some(call.value.(phase := Looking)));
      CarriedConfirms(View(), outcomes);
      status := DeliverAll(prior, parts, chats, outcomes);
    }

    method DeliverAll(prior: seq<Record>, parts: seq<Digest>, chats: seq<Chat>, outcomes: map<(nat, nat), PartOutcome>)
      returns (status: Status)
      requires Valid() && call == Some(Call(prior, parts, chats, 0, 0, Looking))
      modifies this
      ensures Valid() && View() == Carried(old(View()), outcomes)
      ensures records != [] && status == Told(records)
    {
      ghost var all := Carried(View(), outcomes);
      for r := 0 to |chats|
        invariant Valid() && call == Some(Call(prior, parts, chats, r, 0, Looking))
        invariant all == Carried(View(), outcomes)
      {
        var progress := DeliverTo(prior, parts, r, chats[r], outcomes);
        if progress.Stopped? { return NotConfirmed(progress.state); }
      }
      RecordDelivery(CallRecord(State.Confirmed), Action.Look, None);
      return Status.Delivered;
    }
  }
}
