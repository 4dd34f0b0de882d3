/**
 One call of the deferred-turn coordinator (`src/extension/deferred-turn-coordinator.ts`)
 with nothing else running: what it leaves behind for every way its callbacks and store
 writes can throw.
 */
module TurnDeliveries {
  import opened Options
  import opened TurnIntents

  /** What goes wrong while one intent is delivered; a throwing send may have appended its message. */
  datatype Fault = Fine | LookupThrows | SendThrows(appended: bool) | ResolveThrows

  /** What goes wrong in a whole call: by intent, and whose release throws. */
  datatype Faults = Faults(at: map<Id, Fault>, stuck: set<Id>)

  /** The rows, the messages in the session branch, messages that name no intent, fresh tokens and the clock. */
  datatype World = World(rows: Rows, sent: map<Id, seq<Resolution>>, unnamed: nat, nextToken: Token, now: nat)

  datatype Natural = Natural(run: string, session: Session, kind: Resolution)

  datatype Answer = Delivered | Deferred | Suppressed | Threw

  /** How an attempt under a claim ends; `Lost` is an exception that passes the release code by. */
  datatype Attempt = Found | Done | Caught | Lost

  function FaultOf(faults: Faults, i: Id): Fault {
    if i in faults.at then faults.at[i] else Fine
  }

  function Messages(w: World, i: Id): seq<Resolution> {
    if i in w.sent then w.sent[i] else []
  }

  function Append(w: World, i: Id, kind: Resolution): World {
    w.(sent := w.sent[i := Messages(w, i) + [kind]])
  }

  function ResolveIn(w: World, i: Id, session: Session, t: Token, r: Resolution): World {
    w.(rows := AfterResolve(w.rows, i, session, t, r).0)
  }

  function Attempted(w: World, i: Id, session: Session, t: Token, kind: Resolution, fault: Fault): (World, Attempt) {
    if fault.LookupThrows? then (w, Lost)
    else if Messages(w, i) != [] then
      if fault.ResolveThrows? then (w, Lost) else (ResolveIn(w, i, session, t, Messages(w, i)[0]), Found)
    else if fault.SendThrows? then (if fault.appended then Append(w, i, kind) else w, Caught)
    else if fault.ResolveThrows? then (Append(w, i, kind), Caught)
    else (ResolveIn(Append(w, i, kind), i, session, t, kind), Done)
  }

  /** The releases of the `catch`, in order, up to the first that throws. */
  function ReleaseAll(w: World, ids: seq<Id>, session: Session, t: Token, stuck: set<Id>): World
    decreases |ids|
  {
    if ids == [] || ids[0] in stuck then w
    else ReleaseAll(w.(rows := AfterRelease(w.rows, ids[0], session, t).0), ids[1..], session, t, stuck)
  }

  datatype BatchResult = BatchResult(world: World, sent: nat, threw: bool)

  /** `deliverFallbacks` from the claimed intents on. */
  function Batch(w: World, ids: seq<Id>, session: Session, t: Token, faults: Faults): BatchResult
    decreases |ids|
  {
    if ids == [] then BatchResult(w, 0, false)
    else
      var (w', attempt) := Attempted(w, ids[0], session, t, Fallback, FaultOf(faults, ids[0]));
      match attempt
      case Caught => BatchResult(ReleaseAll(w', ids, session, t, faults.stuck), 0, true)
      case Lost => BatchResult(w', 0, true)
      case _ =>
        var rest := Batch(w', ids[1..], session, t, faults);
        rest.(sent := rest.sent + if attempt == Done then 1 else 0)
  }

  // ---------------------------------------------- which throws leave claims behind

  /** The lookup, and the resolve of a message it found, throw outside the `try`. */
  predicate EscapesRelease(w: World, i: Id, fault: Fault) {
    fault.LookupThrows? || (fault.ResolveThrows? && Messages(w, i) != [])
  }

  predicate Throws(w: World, i: Id, fault: Fault) {
    fault.LookupThrows? || fault.ResolveThrows? || (fault.SendThrows? && Messages(w, i) == [])
  }

  /** The index of the first intent whose delivery throws. */
  function FirstThrow(w: World, ids: seq<Id>, faults: Faults): (k: nat)
    ensures k <= |ids|
    ensures forall j :: 0 <= j < k ==> !Throws(w, ids[j], FaultOf(faults, ids[j]))
    ensures k < |ids| ==> Throws(w, ids[k], FaultOf(faults, ids[k]))
  {
    if ids == [] || Throws(w, ids[0], FaultOf(faults, ids[0])) then 0 else 1 + FirstThrow(w, ids[1..], faults)
  }

  /** A release that throws stops the ones behind it too. */
  predicate StopsAt(ids: seq<Id>, first: nat, k: nat, stuck: set<Id>) {
    k < |ids| && exists m :: first <= m <= k && ids[m] in stuck
  }

  /** Whether the k-th intent of the batch stays claimed. */
  predicate StaysClaimed(w: World, ids: seq<Id>, faults: Faults, k: nat) {
    var first := FirstThrow(w, ids, faults);
    && first <= k < |ids|
    && (EscapesRelease(w, ids[first], FaultOf(faults, ids[first])) || StopsAt(ids, first, k, faults.stuck))
  }

  /** The batch leaves a claim behind: the exception passes the release code by, or a release throws as well. */
  predicate LeavesClaims(w: World, ids: seq<Id>, faults: Faults) {
    var first := FirstThrow(w, ids, faults);
    && first < |ids|
    && (|| EscapesRelease(w, ids[first], FaultOf(faults, ids[first]))
        || exists i <- ids[first..] :: i in faults.stuck)
  }

  predicate Claimed(rows: Rows, ids: seq<Id>, session: Session, t: Token) {
    forall i <- ids :: HeldBy(rows, i, session, t)
  }

  lemma {:induction false} ReleaseKeepsOthers(w: World, ids: seq<Id>, session: Session, t: Token, stuck: set<Id>, i: Id)
    ensures ReleaseAll(w, ids, session, t, stuck).rows.Keys == w.rows.Keys
    ensures i !in ids ==> (i in w.rows ==> ReleaseAll(w, ids, session, t, stuck).rows[i] == w.rows[i])
    decreases |ids|
  {
    if ids != [] && ids[0] !in stuck {
      ReleaseKeepsOthers(w.(rows := AfterRelease(w.rows, ids[0], session, t).0), ids[1..], session, t, stuck, i);
    }
  }

  /** The k-th of held, distinct intents is freed exactly when no release up to its own throws. */
  lemma {:induction false} ReleaseFrees(w: World, ids: seq<Id>, session: Session, t: Token, stuck: set<Id>, k: nat)
    requires DistinctIds(ids) && k < |ids| && HeldBy(w.rows, ids[k], session, t)
    ensures HeldBy(ReleaseAll(w, ids, session, t, stuck).rows, ids[k], session, t) <==> StopsAt(ids, 0, k, stuck)
    decreases |ids|
  {
    if ids[0] !in stuck {
      var w1 := w.(rows := AfterRelease(w.rows, ids[0], session, t).0);
      var rest := ids[1..];
      if k == 0 {
        ReleaseKeepsOthers(w1, rest, session, t, stuck, ids[0]);
      } else {
        assert rest[k - 1] == ids[k];
        ReleaseFrees(w1, rest, session, t, stuck, k - 1);
        StopsSkips(ids, k, stuck);
      }
    }
  }

  lemma StopsSkips(ids: seq<Id>, k: nat, stuck: set<Id>)
    requires 0 < k < |ids| && ids[0] !in stuck
    ensures StopsAt(ids, 0, k, stuck) <==> StopsAt(ids[1..], 0, k - 1, stuck)
  {
    if m :| 0 <= m <= k && ids[m] in stuck { assert ids[1..][m - 1] in stuck; }
    if m :| 0 <= m <= k - 1 && ids[1..][m] in stuck { assert ids[m + 1] in stuck; }
  }

  lemma StopsShifts(ids: seq<Id>, first: nat, k: nat, stuck: set<Id>)
    requires 0 < first <= k < |ids|
    ensures StopsAt(ids, first, k, stuck) <==> StopsAt(ids[1..], first - 1, k - 1, stuck)
  {
    if m :| first <= m <= k && ids[m] in stuck { assert ids[1..][m - 1] in stuck; }
    if m :| first - 1 <= m <= k - 1 && ids[1..][m] in stuck { assert ids[m + 1] in stuck; }
  }

  /** Delivering one intent touches no other. */
  lemma AttemptIsLocal(w: World, i: Id, session: Session, t: Token, kind: Resolution, fault: Fault, j: Id)
    requires j != i
    ensures var w' := Attempted(w, i, session, t, kind, fault).0;
      && Messages(w', j) == Messages(w, j)
      && (j in w'.rows <==> j in w.rows) && (j in w.rows ==> w'.rows[j] == w.rows[j])
  {
  }

  lemma AttemptEnds(w: World, i: Id, session: Session, t: Token, kind: Resolution, fault: Fault)
    requires HeldBy(w.rows, i, session, t)
    ensures var (w', a) := Attempted(w, i, session, t, kind, fault);
      && (a.Caught? || a.Lost? <==> Throws(w, i, fault))
      && (a.Lost? <==> EscapesRelease(w, i, fault))
      && (HeldBy(w'.rows, i, session, t) <==> Throws(w, i, fault))
      && (!Throws(w, i, fault) ==> w'.rows[i].resolution.Some?)
  {
  }

  lemma {:induction false} FirstThrowIsLocal(w: World, w': World, ids: seq<Id>, faults: Faults)
    requires forall i <- ids :: Messages(w', i) == Messages(w, i)
    ensures FirstThrow(w', ids, faults) == FirstThrow(w, ids, faults)
    decreases |ids|
  {
    if ids != [] {
      assert Messages(w', ids[0]) == Messages(w, ids[0]);
      FirstThrowIsLocal(w, w', ids[1..], faults);
    }
  }

  /** The first throw divides the batch: resolved before it, and from it on held exactly where `stays` says so. */
  predicate Leaves(r: BatchResult, first: nat, stays: bool, ids: seq<Id>, k: nat, session: Session, t: Token)
    requires k < |ids|
  {
    && (r.threw <==> first < |ids|)
    && ids[k] in r.world.rows
    && (k < first ==> r.world.rows[ids[k]].resolution.Some?)
    && (first <= k ==> (HeldBy(r.world.rows, ids[k], session, t) <==> stays))
  }

  lemma {:induction false} BatchLeaves(w: World, ids: seq<Id>, session: Session, t: Token, faults: Faults, k: nat)
    requires DistinctIds(ids) && Claimed(w.rows, ids, session, t) && k < |ids|
    ensures Leaves(Batch(w, ids, session, t, faults), FirstThrow(w, ids, faults), StaysClaimed(w, ids, faults, k),
                   ids, k, session, t)
    decreases |ids|
  {
    var fault := FaultOf(faults, ids[0]);
    AttemptEnds(w, ids[0], session, t, Fallback, fault);
    var (w', a) := Attempted(w, ids[0], session, t, Fallback, fault);
    assert ids[k] in ids;
    if k != 0 { AttemptIsLocal(w, ids[0], session, t, Fallback, fault, ids[k]); }
    if a.Caught? {
      ReleaseKeepsOthers(w', ids, session, t, faults.stuck, ids[k]);
      ReleaseFrees(w', ids, session, t, faults.stuck, k);
    } else if !a.Lost? {
      BatchGoesOn(w, ids, session, t, faults, k);
    }
  }

  /** An intent that is delivered without a throw only hands on to the rest of the batch. */
  lemma BatchUnfolds(w: World, w': World, ids: seq<Id>, session: Session, t: Token, faults: Faults)
    requires DistinctIds(ids) && Claimed(w.rows, ids, session, t) && ids != []
    requires !Throws(w, ids[0], FaultOf(faults, ids[0]))
    requires w' == Attempted(w, ids[0], session, t, Fallback, FaultOf(faults, ids[0])).0
    ensures w'.rows.Keys == w.rows.Keys
    ensures Claimed(w'.rows, ids[1..], session, t)
    ensures ids[0] in w'.rows && w'.rows[ids[0]].resolution.Some?
    ensures Batch(w, ids, session, t, faults).world == Batch(w', ids[1..], session, t, faults).world
    ensures Batch(w, ids, session, t, faults).threw == Batch(w', ids[1..], session, t, faults).threw
    ensures FirstThrow(w, ids, faults) == 1 + FirstThrow(w', ids[1..], faults)
    ensures var k := FirstThrow(w', ids[1..], faults);
      k < |ids[1..]| ==>
        EscapesRelease(w', ids[1..][k], FaultOf(faults, ids[1..][k]))
           == EscapesRelease(w, ids[1..][k], FaultOf(faults, ids[1..][k]))
  {
    var fault := FaultOf(faults, ids[0]);
    assert ids[0] in ids;
    AttemptEnds(w, ids[0], session, t, Fallback, fault);
    var rest := ids[1..];
    forall i <- rest ensures Messages(w', i) == Messages(w, i) && HeldBy(w'.rows, i, session, t) {
      assert i in ids && i != ids[0];
      AttemptIsLocal(w, ids[0], session, t, Fallback, fault, i);
    }
    FirstThrowIsLocal(w, w', rest, faults);
    var k := FirstThrow(w', rest, faults);
    if k < |rest| { assert rest[k] in rest; }
  }

  lemma StaysShifts(w: World, w': World, ids: seq<Id>, session: Session, t: Token, faults: Faults, k: nat)
    requires DistinctIds(ids) && Claimed(w.rows, ids, session, t) && 0 < k < |ids|
    requires !Throws(w, ids[0], FaultOf(faults, ids[0]))
    requires w' == Attempted(w, ids[0], session, t, Fallback, FaultOf(faults, ids[0])).0
    ensures StaysClaimed(w, ids, faults, k) == StaysClaimed(w', ids[1..], faults, k - 1)
  {
    BatchUnfolds(w, w', ids, session, t, faults);
    var first := FirstThrow(w, ids, faults);
    if first <= k { StopsShifts(ids, first, k, faults.stuck); }
  }

  lemma BatchGoesOn(w: World, ids: seq<Id>, session: Session, t: Token, faults: Faults, k: nat)
    requires DistinctIds(ids) && Claimed(w.rows, ids, session, t) && k < |ids|
    requires !Throws(w, ids[0], FaultOf(faults, ids[0]))
    ensures Leaves(Batch(w, ids, session, t, faults), FirstThrow(w, ids, faults), StaysClaimed(w, ids, faults, k),
                   ids, k, session, t)
    decreases |ids|, 0
  {
    var w' := Attempted(w, ids[0], session, t, Fallback, FaultOf(faults, ids[0])).0;
    var rest := ids[1..];
    BatchUnfolds(w, w', ids, session, t, faults);
    if k != 0 {
      StaysShifts(w, w', ids, session, t, faults, k);
      BatchLeaves(w', rest, session, t, faults, k - 1);
    } else {
      BatchKeeps(w', rest, session, t, faults, ids[0]);
      if rest != [] { BatchLeaves(w', rest, session, t, faults, 0); }
    }
  }

  lemma {:induction false} BatchKeeps(w: World, ids: seq<Id>, session: Session, t: Token, faults: Faults, i: Id)
    requires i !in ids && i in w.rows
    ensures var w' := Batch(w, ids, session, t, faults).world;
      i in w'.rows && w'.rows[i] == w.rows[i]
    decreases |ids|
  {
    if ids != [] {
      var fault := FaultOf(faults, ids[0]);
      var (w', a) := Attempted(w, ids[0], session, t, Fallback, fault);
      AttemptIsLocal(w, ids[0], session, t, Fallback, fault, i);
      if a.Caught? {
        ReleaseKeepsOthers(w', ids, session, t, faults.stuck, i);
      } else if !a.Lost? {
        BatchKeeps(w', ids[1..], session, t, faults, i);
      }
    }
  }

  /** The promise of a throwing batch, and exactly when it is kept. */
  lemma ThrowingBatchReleases(w: World, ids: seq<Id>, session: Session, t: Token, faults: Faults)
    requires DistinctIds(ids) && Claimed(w.rows, ids, session, t)
    ensures (forall i <- ids :: !HeldBy(Batch(w, ids, session, t, faults).world.rows, i, session, t))
       <==> !LeavesClaims(w, ids, faults)
  {
    var rows := Batch(w, ids, session, t, faults).world.rows;
    var first := FirstThrow(w, ids, faults);
    if LeavesClaims(w, ids, faults) {
      var k := FirstStuck(w, ids, faults);
      BatchLeaves(w, ids, session, t, faults, k);
      assert ids[k] in ids;
    } else {
      forall m | first <= m < |ids| ensures ids[m] in ids[first..] { assert ids[first..][m - first] == ids[m]; }
      forall i <- ids ensures !HeldBy(rows, i, session, t) {
        var k :| 0 <= k < |ids| && ids[k] == i;
        BatchLeaves(w, ids, session, t, faults, k);
      }
    }
  }

  /** The first intent whose claim stays. */
  lemma FirstStuck(w: World, ids: seq<Id>, faults: Faults) returns (k: nat)
    requires LeavesClaims(w, ids, faults)
    ensures StaysClaimed(w, ids, faults, k)
  {
    k := FirstThrow(w, ids, faults);
    if !EscapesRelease(w, ids[k], FaultOf(faults, ids[k])) {
      var m :| 0 <= m < |ids[k..]| && ids[k..][m] in faults.stuck;
      k := k + m;
    }
  }

  /** What deliveries have appended for these intents. */
  function Gained(w: World, w': World, ids: seq<Id>): int
    decreases |ids|
  {
    if ids == [] then 0 else |Messages(w', ids[0])| - |Messages(w, ids[0])| + Gained(w, w', ids[1..])
  }

  lemma {:induction false} GainedIsLocal(w: World, w': World, v: World, v': World, ids: seq<Id>)
    requires forall i <- ids :: Messages(w, i) == Messages(v, i) && Messages(w', i) == Messages(v', i)
    ensures Gained(w, w', ids) == Gained(v, v', ids)
    decreases |ids|
  {
    if ids != [] { GainedIsLocal(w, w', v, v', ids[1..]); }
  }

  lemma {:induction false} ReleaseKeepsMessages(w: World, ids: seq<Id>, session: Session, t: Token, stuck: set<Id>)
    ensures ReleaseAll(w, ids, session, t, stuck).sent == w.sent
    decreases |ids|
  {
    if ids != [] && ids[0] !in stuck {
      ReleaseKeepsMessages(w.(rows := AfterRelease(w.rows, ids[0], session, t).0), ids[1..], session, t, stuck);
    }
  }

  lemma {:induction false} BatchIsLocal(w: World, ids: seq<Id>, session: Session, t: Token, faults: Faults, j: Id)
    requires j !in ids
    ensures Messages(Batch(w, ids, session, t, faults).world, j) == Messages(w, j)
    decreases |ids|
  {
    if ids != [] {
      var (w', a) := Attempted(w, ids[0], session, t, Fallback, FaultOf(faults, ids[0]));
      AttemptIsLocal(w, ids[0], session, t, Fallback, FaultOf(faults, ids[0]), j);
      ReleaseKeepsMessages(w', ids, session, t, faults.stuck);
      if !a.Caught? && !a.Lost? { BatchIsLocal(w', ids[1..], session, t, faults, j); }
    }
  }

  /** A batch that does not throw reports exactly the messages it appended: one for each intent that had none. */
  lemma {:induction false} BatchCounts(w: World, ids: seq<Id>, session: Session, t: Token, faults: Faults)
    requires DistinctIds(ids) && !Batch(w, ids, session, t, faults).threw
    ensures var r := Batch(w, ids, session, t, faults);
      && r.sent == Gained(w, r.world, ids)
      && forall i <- ids :: Messages(r.world, i) == if Messages(w, i) == [] then [Fallback] else Messages(w, i)
    decreases |ids|
  {
    if ids != [] {
      var w' := Attempted(w, ids[0], session, t, Fallback, FaultOf(faults, ids[0])).0;
      var rest := ids[1..];
      var end := Batch(w', rest, session, t, faults).world;
      forall i <- rest ensures Messages(w', i) == Messages(w, i) {
        AttemptIsLocal(w, ids[0], session, t, Fallback, FaultOf(faults, ids[0]), i);
      }
      BatchCounts(w', rest, session, t, faults);
      BatchIsLocal(w', rest, session, t, faults, ids[0]);
      GainedIsLocal(w, end, w', end, rest);
      assert ids == [ids[0]] + rest;
    }
  }

  /** Two claimed intents and a lookup that throws on the first: both stay claimed until the lease runs out. */
  lemma LookupThrowKeepsClaims()
    ensures var row := Intent("r", "s", 0, Some(0), None, Some(Claim(7, 100)));
      var w := World(map[1 := row, 2 := row], map[], 0, 8, 0);
      var r := Batch(w, [1, 2], "s", 7, Faults(map[1 := LookupThrows], {}));
      r.threw && HeldBy(r.world.rows, 1, "s", 7) && HeldBy(r.world.rows, 2, "s", 7)
  {
  }

  /** So do they when the first send throws and then its release does. */
  lemma ReleaseThrowKeepsClaims()
    ensures var row := Intent("r", "s", 0, Some(0), None, Some(Claim(7, 100)));
      var w := World(map[1 := row, 2 := row], map[], 0, 8, 0);
      var r := Batch(w, [1, 2], "s", 7, Faults(map[1 := SendThrows(false)], {1}));
      r.threw && HeldBy(r.world.rows, 1, "s", 7) && HeldBy(r.world.rows, 2, "s", 7)
  {
  }

  // ------------------------------------------------------------ natural deliveries

  function ClaimedFor(w: World, i: Id, session: Session, lease: nat): (World, bool) {
    var (rows, ok) := AfterClaim(w.rows, i, session, Claim(w.nextToken, w.now + lease), w.now);
    (w.(rows := rows, nextToken := w.nextToken + 1), ok)
  }

  function ReleaseIn(w: World, i: Id, session: Session, t: Token): World {
    w.(rows := AfterRelease(w.rows, i, session, t).0)
  }

  function AnswerTo(a: Attempt): Answer {
    match a
    case Found => Suppressed
    case Done => Delivered
    case Caught => Threw
    case Lost => Threw
  }

  /** `deliverNatural`: claim, look the branch up, send, resolve; `stuck` is a release that throws. */
  function NaturalOnce(w: World, i: Id, n: Natural, lease: nat, fault: Fault, stuck: bool): (World, Answer) {
    var t := w.nextToken;
    var (w0, ok) := ClaimedFor(w, i, n.session, lease);
    if !ok then (w0, if i in w.rows && w.rows[i].resolution.None? then Deferred else Suppressed)
    else
      var (w1, a) := Attempted(w0, i, n.session, t, n.kind, fault);
      (if a == Caught && !stuck then ReleaseIn(w1, i, n.session, t) else w1, AnswerTo(a))
  }

  /** Between calls: at most one message each, and a resolution names it. */
  ghost predicate OneEach(w: World) {
    forall i :: |Messages(w, i)| <= 1
      && (i in w.rows && w.rows[i].resolution.Some? ==> Messages(w, i) == [w.rows[i].resolution.value])
  }

  lemma AttemptKeepsOneEach(w: World, i: Id, session: Session, t: Token, kind: Resolution, fault: Fault)
    requires OneEach(w) && HeldBy(w.rows, i, session, t)
    ensures OneEach(Attempted(w, i, session, t, kind, fault).0)
  {
    var w' := Attempted(w, i, session, t, kind, fault).0;
    assert |Messages(w, i)| <= 1;
    forall j
      ensures |Messages(w', j)| <= 1
      ensures j in w'.rows && w'.rows[j].resolution.Some? ==> Messages(w', j) == [w'.rows[j].resolution.value]
    {
      if j != i {
        AttemptIsLocal(w, i, session, t, kind, fault, j);
        assert |Messages(w, j)| <= 1;
      }
    }
  }

  /** Claims and releases leave messages and resolutions alone. */
  predicate OnlyClaims(w: World, w': World) {
    w'.sent == w.sent && forall j <- w'.rows :: j in w.rows && w'.rows[j].resolution == w.rows[j].resolution
  }

  lemma ClaimsKeepOneEach(w: World, w': World)
    requires OneEach(w) && OnlyClaims(w, w')
    ensures OneEach(w')
  {
    forall j
      ensures |Messages(w', j)| <= 1
      ensures j in w'.rows && w'.rows[j].resolution.Some? ==> Messages(w', j) == [w'.rows[j].resolution.value]
    { assert |Messages(w, j)| <= 1; }
  }

  lemma ClaimKeepsOneEach(w: World, i: Id, session: Session, lease: nat)
    requires OneEach(w)
    ensures OneEach(ClaimedFor(w, i, session, lease).0)
    ensures ClaimedFor(w, i, session, lease).1 ==>
      HeldBy(ClaimedFor(w, i, session, lease).0.rows, i, session, w.nextToken)
  {
    ClaimsKeepOneEach(w, ClaimedFor(w, i, session, lease).0);
  }

  lemma ReleaseKeepsOneEach(w: World, i: Id, session: Session, t: Token)
    requires OneEach(w)
    ensures OneEach(ReleaseIn(w, i, session, t))
  {
    ClaimsKeepOneEach(w, ReleaseIn(w, i, session, t));
  }

  lemma NaturalKeepsOneEach(w: World, i: Id, n: Natural, lease: nat, fault: Fault, stuck: bool)
    requires OneEach(w)
    ensures OneEach(NaturalOnce(w, i, n, lease, fault, stuck).0)
  {
    var t := w.nextToken;
    var (w0, ok) := ClaimedFor(w, i, n.session, lease);
    ClaimKeepsOneEach(w, i, n.session, lease);
    if ok {
      AttemptKeepsOneEach(w0, i, n.session, t, n.kind, fault);
      ReleaseKeepsOneEach(Attempted(w0, i, n.session, t, n.kind, fault).0, i, n.session, t);
    }
  }

  /** What each answer of a natural delivery says about its intent. */
  lemma NaturalAnswers(w: World, i: Id, n: Natural, lease: nat, fault: Fault, stuck: bool)
    ensures var (w', a) := NaturalOnce(w, i, n, lease, fault, stuck);
      && (a == Delivered ==> Messages(w, i) == [] && Messages(w', i) == [n.kind])
      && (a == Suppressed ==> Messages(w', i) == Messages(w, i))
      && (a == Delivered || a == Suppressed ==>
            i in w.rows && w.rows[i].session == n.session ==> w'.rows[i].resolution.Some?)
      && (a == Deferred ==> w' == w.(nextToken := w.nextToken + 1) && i in w.rows && w.rows[i].resolution.None?)
  {
    var (w0, ok) := ClaimedFor(w, i, n.session, lease);
    if ok { AttemptEnds(w0, i, n.session, w.nextToken, n.kind, fault); }
  }

  /** A natural delivery leaves its claim behind in three ways only, and it throws in each. */
  lemma NaturalLeavesClaim(w: World, i: Id, n: Natural, lease: nat, fault: Fault, stuck: bool)
    requires !HeldBy(w.rows, i, n.session, w.nextToken)
    ensures var (w', a) := NaturalOnce(w, i, n, lease, fault, stuck);
      HeldBy(w'.rows, i, n.session, w.nextToken)
      <==> && ClaimedFor(w, i, n.session, lease).1
           && (EscapesRelease(w, i, fault) || (Throws(w, i, fault) && stuck))
  {
    var (w0, ok) := ClaimedFor(w, i, n.session, lease);
    if ok { AttemptEnds(w0, i, n.session, w.nextToken, n.kind, fault); }
  }

  lemma {:induction false} ReleasesKeepOneEach(w: World, ids: seq<Id>, session: Session, t: Token, stuck: set<Id>)
    requires OneEach(w)
    ensures OneEach(ReleaseAll(w, ids, session, t, stuck))
    decreases |ids|
  {
    if ids != [] && ids[0] !in stuck {
      ReleaseKeepsOneEach(w, ids[0], session, t);
      ReleasesKeepOneEach(ReleaseIn(w, ids[0], session, t), ids[1..], session, t, stuck);
    }
  }

  lemma RestStaysClaimed(w: World, ids: seq<Id>, session: Session, t: Token, fault: Fault)
    requires ids != [] && DistinctIds(ids) && Claimed(w.rows, ids, session, t)
    ensures DistinctIds(ids[1..])
    ensures Claimed(Attempted(w, ids[0], session, t, Fallback, fault).0.rows, ids[1..], session, t)
  {
    var w' := Attempted(w, ids[0], session, t, Fallback, fault).0;
    forall i <- ids[1..] ensures HeldBy(w'.rows, i, session, t) {
      assert i in ids && i != ids[0];
      AttemptIsLocal(w, ids[0], session, t, Fallback, fault, i);
    }
  }

  /** Whatever throws in a batch, there is at most one message for each intent, and a resolution names it. */
  lemma {:induction false} BatchKeepsOneEach(w: World, ids: seq<Id>, session: Session, t: Token, faults: Faults)
    requires OneEach(w) && DistinctIds(ids) && Claimed(w.rows, ids, session, t)
    ensures OneEach(Batch(w, ids, session, t, faults).world)
    decreases |ids|
  {
    if ids != [] {
      var (w', a) := Attempted(w, ids[0], session, t, Fallback, FaultOf(faults, ids[0]));
      assert ids[0] in ids;
      AttemptKeepsOneEach(w, ids[0], session, t, Fallback, FaultOf(faults, ids[0]));
      if a.Caught? {
        ReleasesKeepOneEach(w', ids, session, t, faults.stuck);
      } else if !a.Lost? {
        RestStaysClaimed(w, ids, session, t, FaultOf(faults, ids[0]));
        BatchKeepsOneEach(w', ids[1..], session, t, faults);
      }
    }
  }

  datatype Waiting = Waiting(id: Id, delivery: Natural)

  datatype FlushResult = FlushResult(world: World, left: seq<Waiting>, sent: nat, threw: bool)

  /** `flushNatural`: in the order of the map; an exception leaves the rest of the map alone. */
  function Flush(w: World, waiting: seq<Waiting>, lease: nat, faults: Faults): FlushResult
    decreases |waiting|
  {
    if waiting == [] then FlushResult(w, [], 0, false)
    else
      var head := waiting[0];
      var (w', a) := NaturalOnce(w, head.id, head.delivery, lease, FaultOf(faults, head.id), head.id in faults.stuck);
      if a == Threw then FlushResult(w', waiting, 0, true)
      else
        var rest := Flush(w', waiting[1..], lease, faults);
        FlushResult(rest.world, (if a == Deferred then [head] else []) + rest.left,
                    rest.sent + (if a == Delivered then 1 else 0), rest.threw)
  }

  /** A flush never sends an intent twice, and what it drops from the map needs no more attention. */
  lemma {:induction false} FlushKeepsOneEach(w: World, waiting: seq<Waiting>, lease: nat, faults: Faults)
    requires OneEach(w)
    ensures var r := Flush(w, waiting, lease, faults);
      OneEach(r.world) && |r.left| <= |waiting| && forall x <- r.left :: x in waiting
    decreases |waiting|
  {
    if waiting != [] {
      var head := waiting[0];
      NaturalKeepsOneEach(w, head.id, head.delivery, lease, FaultOf(faults, head.id), head.id in faults.stuck);
      var w' := NaturalOnce(w, head.id, head.delivery, lease, FaultOf(faults, head.id), head.id in faults.stuck).0;
      FlushKeepsOneEach(w', waiting[1..], lease, faults);
    }
  }

  /** The intent has nothing left to deliver for this session. */
  predicate Settled(w: World, x: Waiting) {
    x.id in w.rows && w.rows[x.id].session == x.delivery.session ==> w.rows[x.id].resolution.Some?
  }

  lemma NaturalSettles(w: World, i: Id, n: Natural, lease: nat, fault: Fault, stuck: bool, x: Waiting)
    ensures var (w', a) := NaturalOnce(w, i, n, lease, fault, stuck);
      && (Settled(w, x) ==> Settled(w', x))
      && ((a == Delivered || a == Suppressed) && x == Waiting(i, n) ==> Settled(w', x))
  {
    var (w0, ok) := ClaimedFor(w, i, n.session, lease);
    if ok {
      AttemptEnds(w0, i, n.session, w.nextToken, n.kind, fault);
      if x.id != i { AttemptIsLocal(w0, i, n.session, w.nextToken, n.kind, fault, x.id); }
    }
  }

  lemma {:induction false} FlushKeepsSettled(w: World, waiting: seq<Waiting>, lease: nat, faults: Faults, x: Waiting)
    requires Settled(w, x)
    ensures Settled(Flush(w, waiting, lease, faults).world, x)
    decreases |waiting|
  {
    if waiting != [] {
      var head := waiting[0];
      var (fault, stuck) := (FaultOf(faults, head.id), head.id in faults.stuck);
      NaturalSettles(w, head.id, head.delivery, lease, fault, stuck, x);
      FlushKeepsSettled(NaturalOnce(w, head.id, head.delivery, lease, fault, stuck).0, waiting[1..], lease, faults, x);
    }
  }

  /** What a flush drops is settled: nothing that still waits is forgotten. */
  lemma {:induction false} FlushForgetsNothing(w: World, waiting: seq<Waiting>, lease: nat, faults: Faults, x: Waiting)
    requires x in waiting
    ensures var r := Flush(w, waiting, lease, faults); x in r.left || Settled(r.world, x)
    decreases |waiting|
  {
    var head := waiting[0];
    var (fault, stuck) := (FaultOf(faults, head.id), head.id in faults.stuck);
    var (w', a) := NaturalOnce(w, head.id, head.delivery, lease, fault, stuck);
    if a != Threw {
      if x in waiting[1..] {
        FlushForgetsNothing(w', waiting[1..], lease, faults, x);
      } else {
        NaturalSettles(w, head.id, head.delivery, lease, fault, stuck, x);
        if a != Deferred { FlushKeepsSettled(w', waiting[1..], lease, faults, x); }
      }
    }
  }

  lemma NaturalIsLocal(w: World, i: Id, n: Natural, lease: nat, fault: Fault, stuck: bool, j: Id)
    requires j != i
    ensures Messages(NaturalOnce(w, i, n, lease, fault, stuck).0, j) == Messages(w, j)
  {
    var (w0, ok) := ClaimedFor(w, i, n.session, lease);
    if ok { AttemptIsLocal(w0, i, n.session, w.nextToken, n.kind, fault, j); }
  }

  function WaitingIds(waiting: seq<Waiting>): seq<Id> {
    seq(|waiting|, k requires 0 <= k < |waiting| => waiting[k].id)
  }

  lemma {:induction false} FlushIsLocal(w: World, waiting: seq<Waiting>, lease: nat, faults: Faults, j: Id)
    requires j !in WaitingIds(waiting)
    ensures Messages(Flush(w, waiting, lease, faults).world, j) == Messages(w, j)
    decreases |waiting|
  {
    if waiting != [] {
      var head := waiting[0];
      assert WaitingIds(waiting)[0] == head.id && WaitingIds(waiting[1..]) == WaitingIds(waiting)[1..];
      var (fault, stuck) := (FaultOf(faults, head.id), head.id in faults.stuck);
      NaturalIsLocal(w, head.id, head.delivery, lease, fault, stuck, j);
      FlushIsLocal(NaturalOnce(w, head.id, head.delivery, lease, fault, stuck).0, waiting[1..], lease, faults, j);
    }
  }

  /** A flush that does not throw reports exactly the messages it appended. */
  lemma {:induction false} FlushCounts(w: World, waiting: seq<Waiting>, lease: nat, faults: Faults)
    requires DistinctIds(WaitingIds(waiting)) && !Flush(w, waiting, lease, faults).threw
    ensures var r := Flush(w, waiting, lease, faults); r.sent == Gained(w, r.world, WaitingIds(waiting))
    decreases |waiting|
  {
    if waiting != [] {
      var (head, rest) := (waiting[0], waiting[1..]);
      var (fault, stuck) := (FaultOf(faults, head.id), head.id in faults.stuck);
      var (w', a) := NaturalOnce(w, head.id, head.delivery, lease, fault, stuck);
      var end := Flush(w', rest, lease, faults).world;
      var ids := WaitingIds(waiting);
      assert ids[0] == head.id && WaitingIds(rest) == ids[1..];
      forall i <- ids[1..] ensures Messages(w', i) == Messages(w, i) {
        NaturalIsLocal(w, head.id, head.delivery, lease, fault, stuck, i);
      }
      FlushCounts(w', rest, lease, faults);
      FlushIsLocal(w', rest, lease, faults, head.id);
      GainedIsLocal(w, end, w', end, ids[1..]);
      NaturalAnswers(w, head.id, head.delivery, lease, fault, stuck);
    }
  }

  /** The world right after a batch was claimed. */
  function BatchClaimed(w: World, ids: seq<Id>, lease: nat): World {
    w.(rows := AfterBatch(w.rows, ids, Claim(w.nextToken, w.now + lease)), nextToken := w.nextToken + 1)
  }

  // ------------------------------------------------------------ calls are runs of the machine

  /** The machine's tables are the world's. */
  predicate Mirrors(s: Sys, w: World) {
    s.rows == w.rows && s.sent == w.sent && s.nextToken == w.nextToken && s.now == w.now
  }

  /** The machine has come to mirror `w`, with these deliveries under way and no time gone by. */
  predicate Leads(s: Sys, s': Sys, w: World, deliveries: map<Token, Delivery>) {
    Mirrors(s', w) && s'.deliveries == deliveries && s'.now == s.now
  }

  lemma {:induction false} RunsJoin(s: Sys, run: seq<Action>, more: seq<Action>)
    requires ValidRun(s, run) && ValidRun(After(s, run), more)
    ensures ValidRun(s, run + more) && After(s, run + more) == After(After(s, run), more)
    decreases |run|
  {
    if run == [] {
      assert run + more == more;
    } else {
      assert (run + more)[0] == run[0] && (run + more)[1..] == run[1..] + more;
      RunsJoin(Next(s, run[0]), run[1..], more);
    }
  }

  lemma OneStep(s: Sys, a: Action)
    requires Enabled(s, a)
    ensures ValidRun(s, [a]) && After(s, [a]) == Next(s, a)
  {
    assert [a][1..] == [];
  }

  lemma TwoSteps(s: Sys, a: Action, b: Action)
    requires Enabled(s, a) && Enabled(Next(s, a), b)
    ensures ValidRun(s, [a, b]) && After(s, [a, b]) == Next(Next(s, a), b)
  {
    OneStep(s, a);
    OneStep(Next(s, a), b);
    RunsJoin(s, [a], [b]);
    assert [a] + [b] == [a, b];
  }

  /** What an attempt leaves of its delivery: nothing, its releases, or the intents behind the first. */
  function Remaining(deliveries: map<Token, Delivery>, t: Token, a: Attempt): map<Token, Delivery>
    requires t in deliveries && deliveries[t].todo != []
  {
    var d := deliveries[t];
    match a
    case Lost => deliveries - {t}
    case Caught => deliveries[t := d.(phase := Releasing)]
    case _ => if |d.todo| == 1 then deliveries - {t} else deliveries[t := d.(todo := d.todo[1..])]
  }

  predicate AtWork(s: Sys, w: World, t: Token, phase: Phase) {
    Mirrors(s, w) && InPhase(s, t, phase) && s.now < s.deliveries[t].expires
  }

  /** One attempt is a check, then a send and a resolve as far as nothing throws. */
  lemma AttemptIsRun(s: Sys, w: World, t: Token, fault: Fault) returns (run: seq<Action>)
    requires AtWork(s, w, t, Checking)
    ensures ValidRun(s, run)
    ensures var d := s.deliveries[t];
      var (w', a) := Attempted(w, d.todo[0], d.session, t, d.kind, fault);
      Leads(s, After(s, run), w', Remaining(s.deliveries, t, a))
  {
    if fault.LookupThrows? {
      run := [Vanish(t)];
      OneStep(s, Vanish(t));
    } else {
      var s1 := Next(s, Check(t));
      OneStep(s, Check(t));
      if Messages(w, s.deliveries[t].todo[0]) != [] {
        run := [Check(t), Resolve(t, fault.ResolveThrows?)];
        TwoSteps(s, Check(t), Resolve(t, fault.ResolveThrows?));
      } else {
        run := SendIsRun(s1, w, t, fault);
        RunsJoin(s, [Check(t)], run);
        run := [Check(t)] + run;
      }
    }
  }

  lemma SendIsRun(s: Sys, w: World, t: Token, fault: Fault) returns (run: seq<Action>)
    requires AtWork(s, w, t, Sending) && !fault.LookupThrows? && Messages(w, s.deliveries[t].todo[0]) == []
    ensures ValidRun(s, run)
    ensures var d := s.deliveries[t].(phase := Checking);
      var (w', a) := Attempted(w, d.todo[0], d.session, t, d.kind, fault);
      Leads(s, After(s, run), w', Remaining(s.deliveries[t := d], t, a))
  {
    if fault.SendThrows? {
      var a := if fault.appended then Send(t, true) else SendNothing(t);
      run := [a];
      OneStep(s, a);
    } else {
      run := [Send(t, false), Resolve(t, fault.ResolveThrows?)];
      TwoSteps(s, Send(t, false), Resolve(t, fault.ResolveThrows?));
    }
  }

  lemma {:induction false} ReleasesAreRun(s: Sys, w: World, t: Token, stuck: set<Id>) returns (run: seq<Action>)
    requires Mirrors(s, w) && InPhase(s, t, Releasing)
    ensures ValidRun(s, run)
    ensures var d := s.deliveries[t];
      Leads(s, After(s, run), ReleaseAll(w, d.todo, d.session, t, stuck), s.deliveries - {t})
    decreases |s.deliveries[t].todo|
  {
    var d := s.deliveries[t];
    if d.todo[0] in stuck {
      run := [Vanish(t)];
      OneStep(s, Vanish(t));
    } else {
      var s1 := Next(s, Release(t));
      var w1 := w.(rows := AfterRelease(w.rows, d.todo[0], d.session, t).0);
      OneStep(s, Release(t));
      run := [Release(t)];
      if |d.todo| > 1 {
        var rest := ReleasesAreRun(s1, w1, t, stuck);
        RunsJoin(s, run, rest);
        run := run + rest;
        assert s1.deliveries - {t} == s.deliveries - {t};
      } else {
        assert d.todo[1..] == [];
      }
    }
  }

  /** Delivering what was claimed, fallback by fallback, is a run of the machine whatever throws. */
  lemma {:induction false} DeliveryIsRun(s: Sys, w: World, t: Token, faults: Faults) returns (run: seq<Action>)
    requires AtWork(s, w, t, Checking) && s.deliveries[t].kind == Fallback
    ensures ValidRun(s, run)
    ensures var d := s.deliveries[t];
      Leads(s, After(s, run), Batch(w, d.todo, d.session, t, faults).world, s.deliveries - {t})
    decreases |s.deliveries[t].todo|
  {
    var d := s.deliveries[t];
    var fault := FaultOf(faults, d.todo[0]);
    var (w1, a) := Attempted(w, d.todo[0], d.session, t, Fallback, fault);
    run := AttemptIsRun(s, w, t, fault);
    var s1 := After(s, run);
    var rest: seq<Action> := [];
    if a.Caught? {
      rest := ReleasesAreRun(s1, w1, t, faults.stuck);
    } else if !a.Lost? && |d.todo| > 1 {
      rest := DeliveryIsRun(s1, w1, t, faults);
    } else if !a.Lost? {
      assert d.todo[1..] == [];
    }
    RunsJoin(s, run, rest);
    run := run + rest;
    assert t in s1.deliveries ==> s1.deliveries - {t} == s.deliveries - {t};
  }

  /** Every token in use was drawn before. */
  predicate TokensDrawn(s: Sys) {
    forall t <- s.deliveries :: t < s.nextToken
  }

  /** A call of `deliverFallbacks` is a run of the machine, so the machine's theorems hold of it. */
  lemma FallbacksAreRun(s: Sys, w: World, ids: seq<Id>, session: Session, lease: nat, limit: nat, faults: Faults)
    returns (run: seq<Action>)
    requires Mirrors(s, w) && TokensDrawn(s) && 0 < lease && IsBatch(w.rows, session, w.now, limit, ids)
    ensures ValidRun(s, run)
    ensures Leads(s, After(s, run), Batch(BatchClaimed(w, ids, lease), ids, session, w.nextToken, faults).world,
                  s.deliveries)
  {
    var t := s.nextToken;
    assert t !in s.deliveries;
    var w1 := BatchClaimed(w, ids, lease);
    if ids == [] {
      run := [Draw];
      OneStep(s, Draw);
      assert w1.rows == w.rows;
    } else {
      var claim := ClaimBatch(ids, session, lease, limit);
      OneStep(s, claim);
      run := DeliveryIsRun(Next(s, claim), w1, t, faults);
      RunsJoin(s, [claim], run);
      run := [claim] + run;
      assert Next(s, claim).deliveries - {t} == s.deliveries;
    }
  }

  lemma OneRelease(w: World, i: Id, session: Session, t: Token, stuck: set<Id>)
    ensures ReleaseAll(w, [i], session, t, stuck) == if i in stuck then w else ReleaseIn(w, i, session, t)
  {
    assert [i][1..] == [];
  }

  /** A natural delivery from its claim on. */
  lemma ClaimedIsRun(s: Sys, w: World, t: Token, fault: Fault, stuck: bool) returns (run: seq<Action>)
    requires AtWork(s, w, t, Checking) && |s.deliveries[t].todo| == 1
    ensures ValidRun(s, run)
    ensures var (d, i) := (s.deliveries[t], s.deliveries[t].todo[0]);
      var (w', a) := Attempted(w, i, d.session, t, d.kind, fault);
      Leads(s, After(s, run), if a == Caught && !stuck then ReleaseIn(w', i, d.session, t) else w', s.deliveries - {t})
  {
    var (d, i) := (s.deliveries[t], s.deliveries[t].todo[0]);
    var (w', a) := Attempted(w, i, d.session, t, d.kind, fault);
    run := AttemptIsRun(s, w, t, fault);
    if a == Caught {
      var none := if stuck then {i} else {};
      var s1 := After(s, run);
      var rest := ReleasesAreRun(s1, w', t, none);
      RunsJoin(s, run, rest);
      run := run + rest;
      assert d.todo == [i];
      OneRelease(w', i, d.session, t, none);
      assert s1.deliveries - {t} == s.deliveries - {t};
    }
  }

  /** And so is a natural delivery. */
  lemma NaturalIsRun(s: Sys, w: World, i: Id, n: Natural, lease: nat, fault: Fault, stuck: bool)
    returns (run: seq<Action>)
    requires Mirrors(s, w) && TokensDrawn(s) && 0 < lease
    ensures ValidRun(s, run)
    ensures Leads(s, After(s, run), NaturalOnce(w, i, n, lease, fault, stuck).0, s.deliveries)
  {
    var t := s.nextToken;
    assert t !in s.deliveries;
    var (w0, ok) := ClaimedFor(w, i, n.session, lease);
    if !ok {
      run := [Draw];
      OneStep(s, Draw);
    } else {
      var claim := ClaimOne(i, n.session, lease, n.kind);
      OneStep(s, claim);
      run := ClaimedIsRun(Next(s, claim), w0, t, fault, stuck);
      RunsJoin(s, [claim], run);
      run := [claim] + run;
      assert Next(s, claim).deliveries - {t} == s.deliveries;
    }
  }

  /** And so is a flush. */
  lemma {:induction false} FlushIsRun(s: Sys, w: World, waiting: seq<Waiting>, lease: nat, faults: Faults)
    returns (run: seq<Action>)
    requires Mirrors(s, w) && TokensDrawn(s) && 0 < lease
    ensures ValidRun(s, run)
    ensures Leads(s, After(s, run), Flush(w, waiting, lease, faults).world, s.deliveries)
    decreases |waiting|
  {
    run := [];
    if waiting != [] {
      var head := waiting[0];
      var (fault, stuck) := (FaultOf(faults, head.id), head.id in faults.stuck);
      run := NaturalIsRun(s, w, head.id, head.delivery, lease, fault, stuck);
      var (w1, a) := NaturalOnce(w, head.id, head.delivery, lease, fault, stuck);
      if a != Threw {
        var rest := FlushIsRun(After(s, run), w1, waiting[1..], lease, faults);
        RunsJoin(s, run, rest);
        run := run + rest;
      }
    }
  }
}
