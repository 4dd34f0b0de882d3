/**
 The turn-intent outbox: rows of `src/controllers/sqlite.ts` that one of several
 sessions claims, and the deliveries of `src/extension/deferred-turn-coordinator.ts`
 over them. A delivery may crash between any two operations. Two assumptions: the
 branch lookup reports exactly the messages that were sent, and a send completes while
 the claim it was made under is live.
 */
module TurnIntents {
  import opened Options

  type Id = nat
  type Session = string
  type Token = nat

  datatype Resolution = WorkflowPrompt | Presentation | Fallback

  datatype Claim = Claim(token: Token, expires: nat)

  datatype Intent = Intent(run: string, session: Session, requestedAt: nat, eligibleAt: Option<nat>,
                           resolution: Option<Resolution>, claim: Option<Claim>)

  type Rows = map<Id, Intent>

  predicate Claimable(r: Intent, now: nat) {
    r.resolution.None? && (r.claim.None? || r.claim.value.expires <= now)
  }

  predicate HeldBy(rows: Rows, i: Id, session: Session, t: Token) {
    && i in rows && rows[i].session == session && rows[i].resolution.None?
    && rows[i].claim.Some? && rows[i].claim.value.token == t
  }

  function AfterClaim(rows: Rows, i: Id, session: Session, claim: Claim, now: nat): (Rows, bool) {
    if i in rows && rows[i].session == session && Claimable(rows[i], now) then
      (rows[i := rows[i].(claim := Some(claim))], true)
    else (rows, false)
  }

  function AfterResolve(rows: Rows, i: Id, session: Session, t: Token, resolution: Resolution): (Rows, bool) {
    if HeldBy(rows, i, session, t) then (rows[i := rows[i].(resolution := Some(resolution), claim := None)], true)
    else (rows, false)
  }

  function AfterRelease(rows: Rows, i: Id, session: Session, t: Token): (Rows, bool) {
    if HeldBy(rows, i, session, t) then (rows[i := rows[i].(claim := None)], true) else (rows, false)
  }

  function AfterEligible(rows: Rows, i: Id, now: nat): (Rows, bool) {
    if i in rows && rows[i].resolution.None? then
      (rows[i := rows[i].(eligibleAt := if rows[i].eligibleAt.None? then Some(now) else rows[i].eligibleAt)], true)
    else (rows, false)
  }

  predicate Eligible(rows: Rows, i: Id, session: Session, now: nat) {
    && i in rows && rows[i].session == session && Claimable(rows[i], now)
    && rows[i].eligibleAt.Some? && rows[i].eligibleAt.value <= now
  }

  /** The claim's order: eligibility first, then id. */
  predicate Precedes(rows: Rows, i: Id, j: Id) {
    && i in rows && j in rows && rows[i].eligibleAt.Some? && rows[j].eligibleAt.Some?
    && (rows[i].eligibleAt.value < rows[j].eligibleAt.value
        || (rows[i].eligibleAt.value == rows[j].eligibleAt.value && i < j))
  }

  /** The first `limit` eligible intents of a session, in order. */
  ghost predicate IsBatch(rows: Rows, session: Session, now: nat, limit: nat, ids: seq<Id>) {
    && (forall i <- ids :: Eligible(rows, i, session, now))
    && (forall k, l :: 0 <= k < l < |ids| ==> Precedes(rows, ids[k], ids[l]))
    && |ids| <= limit
    && (forall j :: Eligible(rows, j, session, now) && j !in ids ==>
          |ids| == limit && forall i <- ids :: Precedes(rows, i, j))
  }

  function AfterBatch(rows: Rows, ids: seq<Id>, claim: Claim): Rows {
    map i | i in rows :: if i in ids then rows[i].(claim := Some(claim)) else rows[i]
  }

  // ------------------------------------------------------------------- the machine

  /** `Resolving` remembers whether the message was found in the branch or has just been sent. */
  datatype Phase = Checking | Sending | Resolving(resolution: Resolution, found: bool) | Releasing

  /** A delivery under one claim token; `todo` starts with the intent it is working on. */
  datatype Delivery = Delivery(session: Session, kind: Resolution, todo: seq<Id>, expires: nat, phase: Phase)

  /** `sent` holds, for every intent, the messages that name it. */
  datatype Sys = Sys(rows: Rows, deliveries: map<Token, Delivery>, sent: map<Id, seq<Resolution>>, nextToken: Token,
                     now: nat)

  /** `Vanish` is a crash, or an exception that passes the releases by; `Draw` draws a token for a claim of nothing. */
  datatype Action =
    | Ensure(id: Id, run: string, session: Session)
    | MakeEligible(id: Id)
    | ClaimOne(id: Id, session: Session, lease: nat, kind: Resolution)
    | ClaimBatch(ids: seq<Id>, session: Session, lease: nat, limit: nat)
    | Check(token: Token)
    | Send(token: Token, throws: bool)
    | SendNothing(token: Token)
    | Resolve(token: Token, throws: bool)
    | Release(token: Token)
    | Vanish(token: Token)
    | Draw
    | Tick

  function Sent(s: Sys, i: Id): seq<Resolution> {
    if i in s.sent then s.sent[i] else []
  }

  predicate InPhase(s: Sys, t: Token, phase: Phase) {
    t in s.deliveries && s.deliveries[t].phase == phase && s.deliveries[t].todo != []
  }

  ghost predicate Enabled(s: Sys, a: Action) {
    match a
    case Ensure(i, _, _) => i !in s.rows
    case ClaimOne(i, session, lease, kind) =>
      0 < lease && AfterClaim(s.rows, i, session, Claim(s.nextToken, s.now + lease), s.now).1
    case ClaimBatch(ids, session, lease, limit) => 0 < lease && ids != [] && IsBatch(s.rows, session, s.now, limit, ids)
    case Check(t) => InPhase(s, t, Checking)
    case Send(t, _) => InPhase(s, t, Sending) && s.now < s.deliveries[t].expires
    case SendNothing(t) => InPhase(s, t, Sending)
    case Resolve(t, _) => t in s.deliveries && s.deliveries[t].phase.Resolving? && s.deliveries[t].todo != []
    case Release(t) => InPhase(s, t, Releasing)
    case Vanish(t) => t in s.deliveries
    case MakeEligible(_) => true
    case Draw => true
    case Tick => true
  }

  function SetPhase(s: Sys, t: Token, phase: Phase): Sys
    requires t in s.deliveries
  {
    s.(deliveries := s.deliveries[t := s.deliveries[t].(phase := phase)])
  }

  function Gone(s: Sys, t: Token): Sys {
    s.(deliveries := s.deliveries - {t})
  }

  /** On to the next claimed intent, or done. */
  function Onward(s: Sys, t: Token, phase: Phase): Sys
    requires t in s.deliveries && s.deliveries[t].todo != []
  {
    var d := s.deliveries[t];
    if |d.todo| == 1 then Gone(s, t) else s.(deliveries := s.deliveries[t := d.(todo := d.todo[1..], phase := phase)])
  }

  function Next(s: Sys, a: Action): Sys
    requires Enabled(s, a)
  {
    match a
    case Ensure(i, run, session) => s.(rows := s.rows[i := Intent(run, session, s.now, None, None, None)])
    case MakeEligible(i) => s.(rows := AfterEligible(s.rows, i, s.now).0)
    case ClaimOne(i, session, lease, kind) =>
      s.(rows := AfterClaim(s.rows, i, session, Claim(s.nextToken, s.now + lease), s.now).0,
         deliveries := s.deliveries[s.nextToken := Delivery(session, kind, [i], s.now + lease, Checking)],
         nextToken := s.nextToken + 1)
    case ClaimBatch(ids, session, lease, _) =>
      s.(rows := AfterBatch(s.rows, ids, Claim(s.nextToken, s.now + lease)),
         deliveries := s.deliveries[s.nextToken := Delivery(session, Fallback, ids, s.now + lease, Checking)],
         nextToken := s.nextToken + 1)
    case Check(t) =>
      var found := Sent(s, s.deliveries[t].todo[0]);
      SetPhase(s, t, if found == [] then Sending else Resolving(found[0], true))
    case Send(t, throws) =>
      var d := s.deliveries[t];
      var s' := s.(sent := s.sent[d.todo[0] := Sent(s, d.todo[0]) + [d.kind]]);
      SetPhase(s', t, if throws then Releasing else Resolving(d.kind, false))
    case SendNothing(t) => SetPhase(s, t, Releasing)
    case Resolve(t, throws) =>
      var d := s.deliveries[t];
      if throws then (if d.phase.found then Gone(s, t) else SetPhase(s, t, Releasing))
      else Onward(s.(rows := AfterResolve(s.rows, d.todo[0], d.session, t, d.phase.resolution).0), t, Checking)
    case Release(t) =>
      var d := s.deliveries[t];
      Onward(s.(rows := AfterRelease(s.rows, d.todo[0], d.session, t).0), t, Releasing)
    case Vanish(t) => Gone(s, t)
    case Draw => s.(nextToken := s.nextToken + 1)
    case Tick => s.(now := s.now + 1)
  }

  ghost predicate ValidRun(s: Sys, run: seq<Action>)
    decreases |run|
  {
    run == [] || (Enabled(s, run[0]) && ValidRun(Next(s, run[0]), run[1..]))
  }

  ghost function After(s: Sys, run: seq<Action>): Sys
    requires ValidRun(s, run)
    decreases |run|
  {
    if run == [] then s else After(Next(s, run[0]), run[1..])
  }

  ghost predicate Start(s: Sys) {
    s.rows == map[] && s.deliveries == map[] && s.sent == map[]
  }

  // ----------------------------------------------------------------- the invariant

  predicate DistinctIds(ids: seq<Id>) {
    forall k, l :: 0 <= k < l < |ids| ==> ids[k] != ids[l]
  }

  /** While its claim is live a delivery holds every intent it has still to do. */
  predicate Holds(s: Sys, t: Token, d: Delivery) {
    forall i <- d.todo :: HeldBy(s.rows, i, d.session, t) && s.rows[i].claim.value.expires == d.expires
  }

  predicate DeliveryOk(s: Sys, t: Token) {
    t in s.deliveries ==>
      var d := s.deliveries[t];
      && t < s.nextToken && d.todo != [] && DistinctIds(d.todo)
      && (s.now < d.expires ==> Holds(s, t, d))
      && (s.now < d.expires && d.phase.Sending? ==> Sent(s, d.todo[0]) == [])
      && (d.phase.Resolving? ==> Sent(s, d.todo[0]) == [d.phase.resolution])
  }

  /** At most one message, and a resolution names it. */
  predicate IntentOk(s: Sys, i: Id) {
    && |Sent(s, i)| <= 1
    && (i in s.rows ==>
          && (s.rows[i].resolution.Some? ==> Sent(s, i) == [s.rows[i].resolution.value])
          && (s.rows[i].claim.Some? ==> s.rows[i].claim.value.token < s.nextToken))
  }

  ghost predicate Inv(s: Sys) {
    (forall t :: DeliveryOk(s, t)) && (forall i :: IntentOk(s, i))
  }

  lemma RowStep(s: Sys, a: Action)
    requires Inv(s) && Enabled(s, a)
    requires a.Ensure? || a.MakeEligible? || a.Draw? || a.Tick? || a.Vanish?
    ensures Inv(Next(s, a))
  {
    var s' := Next(s, a);
    forall t ensures DeliveryOk(s', t) { assert DeliveryOk(s, t); }
    forall i ensures IntentOk(s', i) { assert IntentOk(s, i); }
  }

  lemma ClaimOneStep(s: Sys, a: Action)
    requires Inv(s) && Enabled(s, a) && a.ClaimOne?
    ensures Inv(Next(s, a))
  {
    var s' := Next(s, a);
    forall t ensures DeliveryOk(s', t) { assert DeliveryOk(s, t); }
    forall i ensures IntentOk(s', i) { assert IntentOk(s, i); }
  }

  lemma ClaimBatchStep(s: Sys, a: Action)
    requires Inv(s) && Enabled(s, a) && a.ClaimBatch?
    ensures Inv(Next(s, a))
  {
    var s' := Next(s, a);
    forall t ensures DeliveryOk(s', t) { assert DeliveryOk(s, t); }
    forall i ensures IntentOk(s', i) { assert IntentOk(s, i); }
  }

  lemma PhaseStep(s: Sys, a: Action)
    requires Inv(s) && Enabled(s, a) && (a.Check? || a.SendNothing?)
    ensures Inv(Next(s, a))
  {
    var s' := Next(s, a);
    assert IntentOk(s, s.deliveries[a.token].todo[0]);
    forall t ensures DeliveryOk(s', t) { assert DeliveryOk(s, t); }
    forall i ensures IntentOk(s', i) { assert IntentOk(s, i); }
  }

  /** Only the holder of the live claim can be about to send, so the message is the first. */
  lemma SendStep(s: Sys, a: Action)
    requires Inv(s) && Enabled(s, a) && a.Send?
    ensures Inv(Next(s, a))
  {
    var s' := Next(s, a);
    assert DeliveryOk(s, a.token);
    var mine := s.deliveries[a.token].todo;
    assert mine[0] in mine;
    forall t ensures DeliveryOk(s', t) {
      assert DeliveryOk(s, t);
      if t in s.deliveries { assert s.deliveries[t].todo[0] in s.deliveries[t].todo; }
    }
    forall i ensures IntentOk(s', i) { assert IntentOk(s, i); }
  }

  lemma ResolveStep(s: Sys, a: Action)
    requires Inv(s) && Enabled(s, a) && a.Resolve?
    ensures Inv(Next(s, a))
  {
    var s' := Next(s, a);
    assert DeliveryOk(s, a.token);
    forall t ensures DeliveryOk(s', t) { assert DeliveryOk(s, t); }
    forall i ensures IntentOk(s', i) { assert IntentOk(s, i); }
  }

  lemma ReleaseStep(s: Sys, a: Action)
    requires Inv(s) && Enabled(s, a) && a.Release?
    ensures Inv(Next(s, a))
  {
    var s' := Next(s, a);
    assert DeliveryOk(s, a.token);
    forall t ensures DeliveryOk(s', t) { assert DeliveryOk(s, t); }
    forall i ensures IntentOk(s', i) { assert IntentOk(s, i); }
  }

  lemma NextInv(s: Sys, a: Action)
    requires Inv(s) && Enabled(s, a)
    ensures Inv(Next(s, a))
  {
    if a.ClaimOne? {
      ClaimOneStep(s, a);
    } else if a.ClaimBatch? {
      ClaimBatchStep(s, a);
    } else if a.Check? || a.SendNothing? {
      PhaseStep(s, a);
    } else if a.Send? {
      SendStep(s, a);
    } else if a.Resolve? {
      ResolveStep(s, a);
    } else if a.Release? {
      ReleaseStep(s, a);
    } else {
      RowStep(s, a);
    }
  }

  lemma {:induction false} RunInv(s: Sys, run: seq<Action>)
    requires Inv(s) && ValidRun(s, run)
    ensures Inv(After(s, run))
    decreases |run|
  {
    if run != [] {
      NextInv(s, run[0]);
      RunInv(Next(s, run[0]), run[1..]);
    }
  }

  /** Over all runs an intent is answered by at most one message, and a resolution is the message that was sent. */
  lemma OneMessagePerIntent(s: Sys, run: seq<Action>, i: Id)
    requires Start(s) && ValidRun(s, run)
    ensures |Sent(After(s, run), i)| <= 1
    ensures var rows := After(s, run).rows;
      i in rows && rows[i].resolution.Some? ==> Sent(After(s, run), i) == [rows[i].resolution.value]
  {
    RunInv(s, run);
    assert IntentOk(After(s, run), i);
  }

  lemma ResolvedStays(s: Sys, a: Action, i: Id)
    requires Inv(s) && Enabled(s, a) && i in s.rows && s.rows[i].resolution.Some?
    ensures i in Next(s, a).rows && Next(s, a).rows[i] == s.rows[i]
    ensures Sent(Next(s, a), i) == Sent(s, i)
  {
    assert IntentOk(s, i);
    if a.Send? {
      assert DeliveryOk(s, a.token);
      assert s.deliveries[a.token].todo[0] in s.deliveries[a.token].todo;
    }
  }

  /** A resolved intent never changes again, and no message follows. */
  lemma {:induction false} ResolutionIsFinal(s: Sys, run: seq<Action>, i: Id)
    requires Inv(s) && ValidRun(s, run) && i in s.rows && s.rows[i].resolution.Some?
    ensures i in After(s, run).rows && After(s, run).rows[i] == s.rows[i]
    ensures Sent(After(s, run), i) == Sent(s, i)
    decreases |run|
  {
    if run != [] {
      NextInv(s, run[0]);
      ResolvedStays(s, run[0], i);
      ResolutionIsFinal(Next(s, run[0]), run[1..], i);
    }
  }

  function Ticks(n: nat): seq<Action> { seq(n, _ => Tick) }

  lemma {:induction false} TimePasses(s: Sys, n: nat)
    ensures ValidRun(s, Ticks(n)) && After(s, Ticks(n)) == s.(now := s.now + n)
    decreases n
  {
    if n != 0 {
      assert Ticks(n)[1..] == Ticks(n - 1);
      TimePasses(Next(s, Tick), n - 1);
    }
  }

  /** No delivery keeps an unresolved intent for ever: once its lease has run out, any other can claim it. */
  lemma ClaimsRunOut(s: Sys, i: Id, lease: nat, kind: Resolution) returns (run: seq<Action>)
    requires i in s.rows && s.rows[i].resolution.None? && 0 < lease
    ensures ValidRun(s, run) && After(s, run) == s.(now := After(s, run).now)
    ensures Enabled(After(s, run), ClaimOne(i, s.rows[i].session, lease, kind))
    ensures After(s, run).now
      == if s.rows[i].claim.Some? && s.now < s.rows[i].claim.value.expires then s.rows[i].claim.value.expires else s.now
  {
    var wait := if s.rows[i].claim.Some? && s.now < s.rows[i].claim.value.expires
      then s.rows[i].claim.value.expires - s.now else 0;
    run := Ticks(wait);
    TimePasses(s, wait);
  }
}
