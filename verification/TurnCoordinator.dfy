/**
 The outbox rows, the session branch and the coordinator as objects that are changed in
 place; every method is held to the functions of `TurnIntents` and `TurnDeliveries`.
 */
module TurnCoordinator {
  import opened Options
  import opened TurnIntents
  import opened TurnDeliveries

  const FALLBACK_LIMIT: nat := 20

  predicate Pending(rows: Rows, run: string, session: Session, i: Id) {
    i in rows && rows[i].run == run && rows[i].session == session && rows[i].resolution.None?
  }

  predicate Newer(rows: Rows, i: Id, j: Id)
    requires i in rows && j in rows
  {
    rows[j].requestedAt < rows[i].requestedAt || (rows[j].requestedAt == rows[i].requestedAt && j <= i)
  }

  ghost predicate LatestPending(rows: Rows, run: string, session: Session, found: Option<Id>) {
    && (found.None? ==> forall i :: !Pending(rows, run, session, i))
    && (found.Some? ==>
          && Pending(rows, run, session, found.value)
          && forall i :: Pending(rows, run, session, i) ==> Newer(rows, found.value, i))
  }

  class TurnIntentStore {
    var rows: Rows
    var nextToken: Token
    var now: nat

    constructor ()
      ensures rows == map[] && nextToken == 0 && now == 0
    {
      rows, nextToken, now := map[], 0, 0;
    }

    /** `randomUUID`. */
    method FreshToken() returns (t: Token)
      modifies this`nextToken
      ensures t == old(nextToken) && nextToken == t + 1
    {
      t := nextToken;
      nextToken := nextToken + 1;
    }

    method FindPendingWorkflowTurnIntent(run: string, session: Session) returns (found: Option<Id>)
      ensures LatestPending(rows, run, session, found)
    {
      found := None;
      var rest := rows.Keys;
      while rest != {}
        invariant rest <= rows.Keys
        invariant found.Some? ==> Pending(rows, run, session, found.value)
        invariant forall i :: Pending(rows, run, session, i) && i !in rest ==>
          found.Some? && Newer(rows, found.value, i)
        decreases |rest|
      {
        var i :| i in rest;
        rest := rest - {i};
        if Pending(rows, run, session, i) && (found.None? || Newer(rows, i, found.value)) {
          found := Some(i);
        }
      }
    }

    method ClaimWorkflowTurnIntent(i: Id, session: Session, t: Token, lease: nat) returns (ok: bool)
      modifies this`rows
      ensures (rows, ok) == AfterClaim(old(rows), i, session, Claim(t, now + lease), now)
      ensures ok <==>
        && i in old(rows) && old(rows)[i].session == session && old(rows)[i].resolution.None?
        && (old(rows)[i].claim.Some? ==> old(rows)[i].claim.value.expires <= now)
      ensures rows == if ok then old(rows)[i := old(rows)[i].(claim := Some(Claim(t, now + lease)))] else old(rows)
    {
      ok := i in rows && rows[i].session == session && Claimable(rows[i], now);
      if ok { rows := rows[i := rows[i].(claim := Some(Claim(t, now + lease)))]; }
    }

    /** The rows a batch claims, smallest first. */
    method SelectEligible(session: Session, limit: nat) returns (ids: seq<Id>)
      ensures IsBatch(rows, session, now, limit, ids)
    {
      var left := set i | i in rows && Eligible(rows, i, session, now);
      ids := [];
      while left != {} && |ids| < limit
        invariant forall i <- left :: Eligible(rows, i, session, now)
        invariant forall i <- ids :: Eligible(rows, i, session, now) && i !in left
        invariant forall i :: Eligible(rows, i, session, now) ==> i in left || i in ids
        invariant forall k, l :: 0 <= k < l < |ids| ==> Precedes(rows, ids[k], ids[l])
        invariant forall i <- ids, j <- left :: Precedes(rows, i, j)
        invariant |ids| <= limit
        decreases |left|
      {
        var next := First(session, left);
        left := left - {next};
        ids := ids + [next];
      }
    }

    method First(session: Session, left: set<Id>) returns (i: Id)
      requires left != {} && forall j <- left :: Eligible(rows, j, session, now)
      ensures i in left && forall j <- left :: j == i || Precedes(rows, i, j)
    {
      i :| i in left;
      var rest := left - {i};
      while rest != {}
        invariant rest <= left && i in left
        invariant forall j <- left :: j in rest || j == i || Precedes(rows, i, j)
        decreases |rest|
      {
        var j :| j in rest;
        rest := rest - {j};
        if Precedes(rows, j, i) { i := j; }
      }
    }

    method ClaimEligibleWorkflowTurnIntents(session: Session, t: Token, lease: nat, limit: nat) returns (ids: seq<Id>)
      modifies this`rows
      ensures IsBatch(old(rows), session, now, limit, ids)
      ensures rows == AfterBatch(old(rows), ids, Claim(t, now + lease))
      ensures rows.Keys == old(rows).Keys && forall i <- rows ::
        rows[i] == if i in ids then old(rows)[i].(claim := Some(Claim(t, now + lease))) else old(rows)[i]
    {
      ids := SelectEligible(session, limit);
      rows := map i | i in rows :: if i in ids then rows[i].(claim := Some(Claim(t, now + lease))) else rows[i];
    }

    method MakeWorkflowTurnIntentEligible(i: Id) returns (ok: bool)
      modifies this`rows
      ensures (rows, ok) == AfterEligible(old(rows), i, now)
      ensures ok <==> i in old(rows) && old(rows)[i].resolution.None?
      ensures rows == if ok && old(rows)[i].eligibleAt.None? then old(rows)[i := old(rows)[i].(eligibleAt := Some(now))]
        else old(rows)
    {
      ok := i in rows && rows[i].resolution.None?;
      if ok {
        rows := rows[i := rows[i].(eligibleAt := if rows[i].eligibleAt.None? then Some(now) else rows[i].eligibleAt)];
      }
    }

    method ResolveWorkflowTurnIntent(i: Id, session: Session, t: Token, r: Resolution) returns (ok: bool)
      modifies this`rows
      ensures (rows, ok) == AfterResolve(old(rows), i, session, t, r)
      ensures ok <==>
        && i in old(rows) && old(rows)[i].session == session && old(rows)[i].resolution.None?
        && old(rows)[i].claim.Some? && old(rows)[i].claim.value.token == t
      ensures rows == if ok then old(rows)[i := old(rows)[i].(resolution := Some(r), claim := None)] else old(rows)
    {
      ok := HeldBy(rows, i, session, t);
      if ok { rows := rows[i := rows[i].(resolution := Some(r), claim := None)]; }
    }

    method ReleaseWorkflowTurnIntentClaim(i: Id, session: Session, t: Token) returns (ok: bool)
      modifies this`rows
      ensures (rows, ok) == AfterRelease(old(rows), i, session, t)
      ensures ok <==>
        && i in old(rows) && old(rows)[i].session == session && old(rows)[i].resolution.None?
        && old(rows)[i].claim.Some? && old(rows)[i].claim.value.token == t
      ensures rows == if ok then old(rows)[i := old(rows)[i].(claim := None)] else old(rows)
    {
      ok := HeldBy(rows, i, session, t);
      if ok { rows := rows[i := rows[i].(claim := None)]; }
    }
  }

  /** The session branch that messages are appended to and looked up in. */
  class Branch {
    var sent: map<Id, seq<Resolution>>
    var unnamed: nat

    constructor ()
      ensures sent == map[] && unnamed == 0
    {
      sent, unnamed := map[], 0;
    }

    method Append(i: Id, kind: Resolution)
      modifies this`sent
      ensures sent == old(sent)[i := (if i in old(sent) then old(sent)[i] else []) + [kind]]
    {
      sent := sent[i := (if i in sent then sent[i] else []) + [kind]];
    }
  }

  class DeferredTurnCoordinator {
    const store: TurnIntentStore
    const branch: Branch
    const lease: nat
    var deferredNatural: seq<Waiting>

    constructor (store: TurnIntentStore, branch: Branch, lease: nat)
      ensures this.store == store && this.branch == branch && this.lease == lease && deferredNatural == []
    {
      this.store, this.branch, this.lease := store, branch, lease;
      deferredNatural := [];
    }

    ghost function View(): World
      reads store, branch
    {
      World(store.rows, branch.sent, branch.unnamed, store.nextToken, store.now)
    }

    /** Look the branch up, send if nothing is there, resolve. */
    method Deliver(i: Id, session: Session, t: Token, kind: Resolution, fault: Fault) returns (a: Attempt)
      modifies store`rows, branch`sent
      ensures (View(), a) == Attempted(old(View()), i, session, t, kind, fault)
    {
      if fault.LookupThrows? { return Lost; }
      if i in branch.sent && branch.sent[i] != [] {
        if fault.ResolveThrows? { return Lost; }
        var _ := store.ResolveWorkflowTurnIntent(i, session, t, branch.sent[i][0]);
        return Found;
      }
      if fault.SendThrows? {
        if fault.appended { branch.Append(i, kind); }
        return Caught;
      }
      branch.Append(i, kind);
      if fault.ResolveThrows? { return Caught; }
      var _ := store.ResolveWorkflowTurnIntent(i, session, t, kind);
      return Done;
    }

    method DeliverNatural(i: Id, n: Natural, fault: Fault, stuck: bool) returns (a: Answer)
      modifies store`rows, store`nextToken, branch`sent
      ensures (View(), a) == NaturalOnce(old(View()), i, n, lease, fault, stuck)
    {
      var t := store.FreshToken();
      var ok := store.ClaimWorkflowTurnIntent(i, n.session, t, lease);
      if !ok {
        return if i in store.rows && store.rows[i].resolution.None? then Deferred else Suppressed;
      }
      var attempt := Deliver(i, n.session, t, n.kind, fault);
      match attempt {
        case Found => return Suppressed;
        case Done => return Delivered;
        case Lost => return Threw;
        case Caught =>
          if !stuck { var _ := store.ReleaseWorkflowTurnIntentClaim(i, n.session, t); }
          return Threw;
      }
    }

    /** `Map.set`: a key that is there keeps its place. */
    method Defer(i: Id, n: Natural)
      modifies this`deferredNatural
      ensures Waiting(i, n) in deferredNatural
      ensures forall x <- deferredNatural :: x == Waiting(i, n) || (x in old(deferredNatural) && x.id != i)
      ensures forall x <- old(deferredNatural) :: x.id != i ==> x in deferredNatural
    {
      var before := deferredNatural;
      var k := 0;
      while k < |before|
        invariant 0 <= k <= |before|
        invariant deferredNatural == before
        invariant forall x <- before[..k] :: x.id != i
      {
        if before[k].id == i { break; }
        k := k + 1;
      }
      if k < |before| {
        deferredNatural := Replaced(before, i, n);
      } else {
        assert before[..k] == before;
        deferredNatural := before + [Waiting(i, n)];
      }
    }

    method SendNatural(n: Natural, idle: bool, fault: Fault, stuck: bool) returns (a: Answer, intent: Option<Id>)
      modifies this`deferredNatural, store`rows, store`nextToken, branch
      ensures LatestPending(old(store.rows), n.run, n.session, intent)
      ensures intent.None? ==>
        && View() == old(View()).(unnamed := old(branch.unnamed) + 1) && a == Delivered
        && deferredNatural == old(deferredNatural)
      ensures intent.Some? && !idle ==> View() == old(View()) && a == Deferred
      ensures intent.Some? && idle ==> (View(), a) == NaturalOnce(old(View()), intent.value, n, lease, fault, stuck)
      ensures intent.Some? && a == Deferred ==> Waiting(intent.value, n) in deferredNatural
      ensures a != Deferred ==> deferredNatural == old(deferredNatural)
    {
      intent := store.FindPendingWorkflowTurnIntent(n.run, n.session);
      if intent.None? {
        branch.unnamed := branch.unnamed + 1;
        return Delivered, None;
      }
      if !idle {
        Defer(intent.value, n);
        return Deferred, intent;
      }
      a := DeliverNatural(intent.value, n, fault, stuck);
      if a == Deferred { Defer(intent.value, n); }
    }

    /** One entry of the map: what is kept and counted so far goes on, or the exception ends it. */
    method FlushOne(entries: seq<Waiting>, k: nat, kept: seq<Waiting>, sent: nat, faults: Faults,
                    ghost all: FlushResult)
      returns (threw: bool, kept': seq<Waiting>, sent': nat)
      requires k < |entries| && ComesTo(all, View(), entries, k, lease, faults, kept, sent)
      modifies store`rows, store`nextToken, branch`sent
      ensures threw ==> all == FlushResult(View(), kept + entries[k..], sent, true)
      ensures !threw ==> ComesTo(all, View(), entries, k + 1, lease, faults, kept', sent')
    {
      ghost var w := View();
      var head := entries[k];
      var a := DeliverNatural(head.id, head.delivery, FaultOf(faults, head.id), head.id in faults.stuck);
      threw := a == Threw;
      kept' := kept + if a == Deferred then [head] else [];
      sent' := sent + if a == Delivered then 1 else 0;
      FlushNext(all, w, entries, k, lease, faults, kept, sent, View(), a);
    }

    method FlushNatural(idle: bool, faults: Faults) returns (sent: nat, threw: bool)
      modifies this`deferredNatural, store`rows, store`nextToken, branch`sent
      ensures !idle ==> sent == 0 && !threw && View() == old(View()) && deferredNatural == old(deferredNatural)
      ensures idle ==>
        Flushed(Flush(old(View()), old(deferredNatural), lease, faults), View(), deferredNatural, sent, threw)
    {
      sent, threw := 0, false;
      if idle {
        ghost var all := Flush(View(), deferredNatural, lease, faults);
        FlushStarts(View(), deferredNatural, lease, faults);
        sent, threw := FlushEntries(deferredNatural, faults, all);
      }
    }

    method FlushEntries(entries: seq<Waiting>, faults: Faults, ghost all: FlushResult) returns (sent: nat, threw: bool)
      requires entries == deferredNatural && ComesTo(all, View(), entries, 0, lease, faults, [], 0)
      modifies this`deferredNatural, store`rows, store`nextToken, branch`sent
      ensures Flushed(all, View(), deferredNatural, sent, threw)
    {
      sent, threw := 0, false;
      var kept: seq<Waiting> := [];
      var k := 0;
      while k < |entries|
        invariant 0 <= k <= |entries|
        invariant deferredNatural == kept + entries[k..]
        invariant ComesTo(all, View(), entries, k, lease, faults, kept, sent)
        modifies this`deferredNatural, store`rows, store`nextToken, branch`sent
      {
        threw, kept, sent := FlushOne(entries, k, kept, sent, faults, all);
        if threw { return; }
        k := k + 1;
        deferredNatural := kept + entries[k..];
      }
      FlushEnds(all, View(), entries, lease, faults, kept, sent);
    }

    /** The releases of the `catch`; the first that throws ends them. */
    method ReleaseClaims(ids: seq<Id>, session: Session, t: Token, stuck: set<Id>)
      modifies store`rows
      ensures View() == ReleaseAll(old(View()), ids, session, t, stuck)
    {
      ghost var all := ReleaseAll(View(), ids, session, t, stuck);
      var k := 0;
      while k < |ids|
        invariant 0 <= k <= |ids|
        invariant all == ReleaseAll(View(), ids[k..], session, t, stuck)
        modifies store`rows
      {
        assert ids[k..][0] == ids[k] && ids[k..][1..] == ids[k + 1..];
        if ids[k] in stuck { return; }
        var _ := store.ReleaseWorkflowTurnIntentClaim(ids[k], session, t);
        k := k + 1;
      }
    }

    /** The claimed batch, one by one; the claims of a caught exception are released from that intent on. */
    method DeliverClaimed(ids: seq<Id>, session: Session, t: Token, faults: Faults) returns (sent: nat, threw: bool)
      modifies store`rows, branch`sent
      ensures Ended(Batch(old(View()), ids, session, t, faults), View(), sent, threw)
    {
      ghost var all := Batch(View(), ids, session, t, faults);
      sent, threw := 0, false;
      var k := 0;
      while k < |ids|
        invariant 0 <= k <= |ids|
        invariant var rest := Batch(View(), ids[k..], session, t, faults);
          all.world == rest.world && all.threw == rest.threw && all.sent == sent + rest.sent
        modifies store`rows, branch`sent
      {
        assert ids[k..][0] == ids[k] && ids[k..][1..] == ids[k + 1..];
        var attempt := Deliver(ids[k], session, t, Fallback, FaultOf(faults, ids[k]));
        if attempt == Caught {
          ReleaseClaims(ids[k..], session, t, faults.stuck);
          return sent, true;
        }
        if attempt == Lost { return sent, true; }
        if attempt == Done { sent := sent + 1; }
        k := k + 1;
      }
    }

    method DeliverFallbacks(session: Session, idle: bool, faults: Faults) returns (sent: nat, threw: bool, ids: seq<Id>)
      modifies store`rows, store`nextToken, branch`sent
      ensures !idle ==> sent == 0 && !threw && View() == old(View())
      ensures idle ==> IsBatch(old(store.rows), session, store.now, FALLBACK_LIMIT, ids)
      ensures idle ==>
        Ended(Batch(BatchClaimed(old(View()), ids, lease), ids, session, old(store.nextToken), faults), View(), sent,
              threw)
    {
      if !idle { return 0, false, []; }
      ghost var w := View();
      var t := store.FreshToken();
      ids := store.ClaimEligibleWorkflowTurnIntents(session, t, lease, FALLBACK_LIMIT);
      assert View() == BatchClaimed(w, ids, lease);
      sent, threw := DeliverClaimed(ids, session, t, faults);
    }

    method ClearDeferred()
      modifies this`deferredNatural
      ensures deferredNatural == []
    {
      deferredNatural := [];
    }
  }

  predicate Ended(r: BatchResult, w: World, sent: nat, threw: bool) {
    w == r.world && threw == r.threw && (!threw ==> sent == r.sent)
  }

  predicate Flushed(r: FlushResult, w: World, left: seq<Waiting>, sent: nat, threw: bool) {
    w == r.world && left == r.left && threw == r.threw && (!threw ==> sent == r.sent)
  }

  /** A flush that had already kept `kept` and sent `sent`. */
  function Resumed(r: FlushResult, kept: seq<Waiting>, sent: nat): FlushResult {
    FlushResult(r.world, kept + r.left, sent + r.sent, r.threw)
  }

  /** What is left to flush, after `kept` and `sent`, comes to `all`. */
  ghost predicate ComesTo(all: FlushResult, w: World, entries: seq<Waiting>, k: nat, lease: nat, faults: Faults,
                          kept: seq<Waiting>, sent: nat)
  {
    k <= |entries| && all == Resumed(Flush(w, entries[k..], lease, faults), kept, sent)
  }

  lemma FlushStarts(w: World, entries: seq<Waiting>, lease: nat, faults: Faults)
    ensures ComesTo(Flush(w, entries, lease, faults), w, entries, 0, lease, faults, [], 0)
  {
    assert entries[0..] == entries;
    assert [] + Flush(w, entries, lease, faults).left == Flush(w, entries, lease, faults).left;
  }

  lemma FlushEnds(all: FlushResult, w: World, entries: seq<Waiting>, lease: nat, faults: Faults, kept: seq<Waiting>,
                  sent: nat)
    requires ComesTo(all, w, entries, |entries|, lease, faults, kept, sent)
    ensures kept + entries[|entries|..] == kept
    ensures all == FlushResult(w, kept, sent, false)
  {
  }

  lemma FlushHead(w: World, entries: seq<Waiting>, k: nat, lease: nat, faults: Faults, w': World, a: Answer)
    requires k < |entries|
    requires (w', a) == NaturalOnce(w, entries[k].id, entries[k].delivery, lease, FaultOf(faults, entries[k].id),
                                    entries[k].id in faults.stuck)
    ensures Flush(w, entries[k..], lease, faults)
      == if a == Threw then FlushResult(w', entries[k..], 0, true)
         else Resumed(Flush(w', entries[k + 1..], lease, faults), if a == Deferred then [entries[k]] else [],
                      if a == Delivered then 1 else 0)
  {
    assert entries[k..][0] == entries[k] && entries[k..][1..] == entries[k + 1..];
  }

  lemma ResumedTwice(r: FlushResult, kept: seq<Waiting>, more: seq<Waiting>, sent: nat, n: nat)
    ensures Resumed(Resumed(r, more, n), kept, sent) == Resumed(r, kept + more, sent + n)
  {
    assert kept + (more + r.left) == (kept + more) + r.left;
  }

  lemma FlushNext(all: FlushResult, w: World, entries: seq<Waiting>, k: nat, lease: nat, faults: Faults,
                  kept: seq<Waiting>, sent: nat, w': World, a: Answer)
    requires k < |entries| && ComesTo(all, w, entries, k, lease, faults, kept, sent)
    requires (w', a) == NaturalOnce(w, entries[k].id, entries[k].delivery, lease, FaultOf(faults, entries[k].id),
                                    entries[k].id in faults.stuck)
    ensures a == Threw ==> all == FlushResult(w', kept + entries[k..], sent, true)
    ensures a != Threw ==>
      ComesTo(all, w', entries, k + 1, lease, faults, kept + (if a == Deferred then [entries[k]] else []),
              sent + if a == Delivered then 1 else 0)
  {
    FlushHead(w, entries, k, lease, faults, w', a);
    if a != Threw {
      ResumedTwice(Flush(w', entries[k + 1..], lease, faults), kept, if a == Deferred then [entries[k]] else [],
                   sent, if a == Delivered then 1 else 0);
    }
  }

  function Replaced(before: seq<Waiting>, i: Id, n: Natural): (r: seq<Waiting>)
    ensures |r| == |before|
    ensures forall k :: 0 <= k < |r| ==> r[k] == if before[k].id == i then Waiting(i, n) else before[k]
  {
    seq(|before|, k requires 0 <= k < |before| => if before[k].id == i then Waiting(i, n) else before[k])
  }

  /** Due, unresolved, and not under a live claim. */
  predicate Waits(r: Intent, session: Session, now: nat) {
    && r.session == session && r.resolution.None? && r.eligibleAt.Some? && r.eligibleAt.value <= now
    && (r.claim.None? || r.claim.value.expires <= now)
  }

  /**
   A batch takes a session's waiting intents and no others, and leaves one behind only when it is full of intents that
   became eligible no later.
   */
  lemma BatchTakesWaiting(rows: Rows, session: Session, now: nat, limit: nat, ids: seq<Id>, j: Id)
    requires IsBatch(rows, session, now, limit, ids)
    ensures |ids| <= limit && (j in ids ==> j in rows && Waits(rows[j], session, now))
    ensures j in rows && Waits(rows[j], session, now) && j !in ids ==>
      && |ids| == limit
      && forall i <- ids ::
           && i in rows && Waits(rows[i], session, now) && rows[i].eligibleAt.value <= rows[j].eligibleAt.value
           && (rows[i].eligibleAt == rows[j].eligibleAt ==> i < j)
  {
    if j in rows && Waits(rows[j], session, now) && j !in ids {
      assert Eligible(rows, j, session, now);
      forall i <- ids ensures Eligible(rows, i, session, now) && Precedes(rows, i, j) { }
    }
    if j in ids { assert Eligible(rows, j, session, now); }
  }

  /** And in order. */
  lemma BatchIsOrdered(rows: Rows, session: Session, now: nat, limit: nat, ids: seq<Id>, k: nat, l: nat)
    requires IsBatch(rows, session, now, limit, ids) && k < l < |ids|
    ensures ids[k] in rows && ids[l] in rows && rows[ids[k]].eligibleAt.Some? && rows[ids[l]].eligibleAt.Some?
    ensures rows[ids[k]].eligibleAt.value <= rows[ids[l]].eligibleAt.value
    ensures rows[ids[k]].eligibleAt == rows[ids[l]].eligibleAt ==> ids[k] < ids[l]
  {
    assert Precedes(rows, ids[k], ids[l]);
  }

  /** A claimed batch is distinct and held, which is what the batch theorems ask for. */
  lemma BatchIsClaimed(rows: Rows, session: Session, now: nat, lease: nat, limit: nat, ids: seq<Id>, t: Token)
    requires IsBatch(rows, session, now, limit, ids)
    ensures DistinctIds(ids) && Claimed(AfterBatch(rows, ids, Claim(t, now + lease)), ids, session, t)
  {
    forall k, l | 0 <= k < l < |ids| ensures ids[k] != ids[l] { assert Precedes(rows, ids[k], ids[l]); }
    forall i <- ids ensures HeldBy(AfterBatch(rows, ids, Claim(t, now + lease)), i, session, t) {
      assert Eligible(rows, i, session, now);
    }
  }
}
