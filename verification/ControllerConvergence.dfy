/**
 "Queue empty means converged": a resource without a queue row carries a status
 that some reconcile computed from exactly its current incarnation, generation
 and spec. On every run the claim holds of a key exactly when the status was
 computed from the incarnation that now stands under it, and that is so unless a
 stale worker wrote onto it from an earlier one.
 */
module ControllerConvergence {
  import opened Options
  import opened ControllerStore
  import opened StringOrder
  import opened ControllerMachine

  /** The stored status was computed from the resource as it stands. */
  ghost predicate Converged(s: Sys, ref: Ref) {
    && ref in s.db.resources && ref in s.source
    && var r := s.db.resources[ref];
       s.source[ref] == Source(r.uid, r.generation, r.spec) && r.status.observedGeneration == r.generation
  }

  ghost predicate Quiescent(s: Sys, ref: Ref) {
    ref in s.db.resources && ref !in s.db.queue
  }

  /** No event reached the key since the worker's claim, and it still holds the claim. */
  ghost predicate SettlesAway(s: Sys, g: Grant) {
    Holds(s.db, g.ref, g.token) && s.db.queue[g.ref].version == s.db.queue[g.ref].claim.value.version
  }

  /** Some reconcile computed the status; and if it read this incarnation, it read it as it stands. */
  ghost predicate Answered(s: Sys, ref: Ref) {
    && ref in s.db.resources && ref in s.source
    && (s.source[ref].uid == s.db.resources[ref].uid ==> Converged(s, ref))
  }

  ghost predicate ConvInv(s: Sys) {
    && (forall ref | Quiescent(s, ref) :: Answered(s, ref))
    && (forall w | w in s.workers && s.workers[w].Settling? && SettlesAway(s, s.workers[w].grant) ::
        Answered(s, s.workers[w].grant.ref))
  }

  /**
   The caller-checkable condition on a status write: the resource under this key
   is still the incarnation the worker read, or the write is refused anyway.
   */
  ghost predicate SameIncarnation(s: Sys, a: Action) {
    a.Update? && a.w in s.workers && s.workers[a.w].Updating? ==>
      var p := s.workers[a.w];
      p.grant.ref in s.db.resources && s.db.resources[p.grant.ref].version == p.snap.version ==>
        s.db.resources[p.grant.ref].uid == p.snap.uid
  }

  /** A status write that passes the version check converges exactly when it stays in one incarnation. */
  lemma UpdateConvergesIff(s: Sys, w: nat)
    requires Inv(s) && Enabled(s, Update(w))
    requires s.workers[w].grant.ref in s.db.resources
    requires s.db.resources[s.workers[w].grant.ref].version == s.workers[w].snap.version
    ensures Converged(NextUpdate(s, w), s.workers[w].grant.ref) <==> SameIncarnation(s, Update(w))
  {
    var p := s.workers[w];
    var r := s.db.resources[p.grant.ref];
    if r.uid == p.snap.uid {
      assert p.snap == r;
    }
  }

  /** What keeps convergence: the resource's content, status and source do not move. */
  ghost predicate Untouched(s: Sys, s': Sys, ref: Ref) {
    && ref in s.db.resources && ref in s'.db.resources
    && s'.db.resources[ref].uid == s.db.resources[ref].uid
    && s'.db.resources[ref].generation == s.db.resources[ref].generation
    && s'.db.resources[ref].spec == s.db.resources[ref].spec
    && s'.db.resources[ref].status == s.db.resources[ref].status
    && (ref in s.source ==> ref in s'.source && s'.source[ref] == s.source[ref])
  }

  lemma PutConv(s: Sys, a: Action)
    requires Inv(s) && ConvInv(s) && Enabled(s, a) && a.Put?
    ensures ConvInv(Next(s, a))
  {
    var s' := Next(s, a);
    forall ref | ref in s.db.resources && ref != a.ref ensures Untouched(s, s', ref) {
    }
    assert forall ref | ref != a.ref :: Quiescent(s', ref) ==> Quiescent(s, ref);
  }

  lemma RequestConv(s: Sys, a: Action)
    requires Inv(s) && ConvInv(s) && Enabled(s, a) && (a.RequestDeletion? || a.Enqueue?)
    ensures ConvInv(Next(s, a))
  {
    var s' := Next(s, a);
    forall ref | ref in s.db.resources ensures Untouched(s, s', ref) {
    }
    assert forall ref :: Quiescent(s', ref) ==> Quiescent(s, ref);
  }

  lemma CallerConv(s: Sys, a: Action)
    requires Inv(s) && ConvInv(s) && Enabled(s, a) && (a.Tick? || a.SetFinalizers?)
    ensures ConvInv(Next(s, a))
  {
    var s' := Next(s, a);
    forall ref | ref in s.db.resources ensures Untouched(s, s', ref) {
    }
    assert forall ref :: Quiescent(s', ref) ==> Quiescent(s, ref);
  }

  lemma PassConv(s: Sys, a: Action)
    requires Inv(s) && ConvInv(s) && Enabled(s, a) && (ByPass(a) || a.CheckDelete?)
    ensures ConvInv(Next(s, a))
  {
    var s' := Next(s, a);
    assert s'.db == s.db && s'.source == s.source;
    assert forall ref :: Quiescent(s', ref) ==> Quiescent(s, ref);
  }

  lemma ClaimConv(s: Sys, a: Action)
    requires Inv(s) && ConvInv(s) && Enabled(s, a) && (a.ClaimNext? || a.Renew?)
    ensures ConvInv(Next(s, a))
  {
    var s' := Next(s, a);
    assert s'.db.queue.Keys == s.db.queue.Keys && s'.db.resources == s.db.resources;
    assert forall ref :: Quiescent(s', ref) ==> Quiescent(s, ref);
  }

  lemma UpdateConv(s: Sys, w: nat)
    requires Inv(s) && ConvInv(s) && Enabled(s, Update(w))
    ensures ConvInv(NextUpdate(s, w))
  {
    var ref := s.workers[w].grant.ref;
    if ref in s.db.resources && s.db.resources[ref].version == s.workers[w].snap.version {
      WriteConv(s, w);
    } else {
      var s' := NextUpdate(s, w);
      assert s'.db == s.db && s'.source == s.source;
      assert forall other :: Quiescent(s', other) ==> Quiescent(s, other);
    }
  }

  lemma WriteConv(s: Sys, w: nat)
    requires Inv(s) && ConvInv(s) && Enabled(s, Update(w))
    requires s.workers[w].grant.ref in s.db.resources
    requires s.db.resources[s.workers[w].grant.ref].version == s.workers[w].snap.version
    ensures ConvInv(NextUpdate(s, w))
  {
    var s', ref := NextUpdate(s, w), s.workers[w].grant.ref;
    UpdateConvergesIff(s, w);
    forall other | Quiescent(s', other) ensures Answered(s', other) {
      assert Quiescent(s, other);
      if other != ref { assert Untouched(s, s', other); }
    }
  }

  lemma DeleteConv(s: Sys, w: nat)
    requires Inv(s) && ConvInv(s) && Enabled(s, Delete(w))
    ensures ConvInv(NextDelete(s, w))
  {
    assert forall ref :: Quiescent(NextDelete(s, w), ref) ==> Quiescent(s, ref);
  }

  lemma CompleteConv(s: Sys, w: nat)
    requires Inv(s) && ConvInv(s) && w in s.workers && (s.workers[w].Settling? || s.workers[w].Requeueing?)
    ensures ConvInv(NextComplete(s, w))
  {
    var s' := NextComplete(s, w);
    assert s'.db.resources == s.db.resources && s'.source == s.source;
    forall ref | Quiescent(s', ref) ensures Answered(s', ref) {
      if ref == s.workers[w].grant.ref && ref in s.db.queue {
        assert SettlesAway(s, s.workers[w].grant);
      } else {
        assert Quiescent(s, ref);
      }
    }
  }

  lemma NextConv(s: Sys, a: Action)
    requires Inv(s) && ConvInv(s) && Enabled(s, a)
    ensures ConvInv(Next(s, a))
  {
    match a
    case Put(_, _, _, _) => PutConv(s, a);
    case ClaimNext(_, _, _, _, _) => ClaimConv(s, a);
    case Renew(_, _) => ClaimConv(s, a);
    case Update(w) => UpdateConv(s, w);
    case Delete(w) => DeleteConv(s, w);
    case Settle(w) => CompleteConv(s, w);
    case Requeue(w) => CompleteConv(s, w);
    case CheckDelete(_) => PassConv(s, a);
    case Read(_) => PassConv(s, a);
    case Finish(_, _) => PassConv(s, a);
    case Fail(_, _) => PassConv(s, a);
    case Crash(_) => PassConv(s, a);
    case RequestDeletion(_) => RequestConv(s, a);
    case Enqueue(_, _) => RequestConv(s, a);
    case _ => CallerConv(s, a);
  }

  lemma {:induction false} RunConv(s: Sys, run: seq<Action>)
    requires Inv(s) && ConvInv(s) && ValidRun(s, run)
    ensures ConvInv(After(s, run))
    decreases |run|
  {
    if run != [] {
      NextInv(s, run[0]);
      NextConv(s, run[0]);
      RunConv(Next(s, run[0]), run[1..]);
    }
  }

  /** Main result: in every reachable state, a resource with no queue row has converged if its status is its own. */
  lemma QuiescenceMeansConvergence(run: seq<Action>, ref: Ref)
    requires ValidRun(Init, run) && Quiescent(After(Init, run), ref)
    ensures var s := After(Init, run);
      ref in s.source && (Converged(s, ref) <==> s.source[ref].uid == s.db.resources[ref].uid)
  {
    RunConv(Init, run);
  }

  // -------------------------------------------------- when a status is a resource's own

  /** A status write onto the incarnation `uid` of this key that was computed from another one. */
  ghost predicate Crosses(s: Sys, a: Action, ref: Ref, uid: Uid) {
    && a.Update? && a.w in s.workers && s.workers[a.w].Updating?
    && s.workers[a.w].grant.ref == ref && ref in s.db.resources && s.db.resources[ref].uid == uid
    && !SameIncarnation(s, a)
  }

  ghost predicate Crossed(s: Sys, run: seq<Action>, ref: Ref, uid: Uid)
    requires ValidRun(s, run)
    decreases |run|
  {
    run != [] && (Crosses(s, run[0], ref, uid) || Crossed(Next(s, run[0]), run[1..], ref, uid))
  }

  /** While `uid` stands under the key, its status is its own. */
  ghost predicate Owned(s: Sys, ref: Ref, uid: Uid) {
    ref in s.db.resources && s.db.resources[ref].uid == uid && ref in s.source ==> s.source[ref].uid == uid
  }

  lemma NextOwned(s: Sys, a: Action, ref: Ref, uid: Uid)
    requires Inv(s) && Enabled(s, a) && Owned(s, ref, uid) && !Crosses(s, a, ref, uid)
    ensures Owned(Next(s, a), ref, uid)
  {
  }

  lemma {:induction false} RunOwned(s: Sys, run: seq<Action>, ref: Ref, uid: Uid)
    requires Inv(s) && ValidRun(s, run) && Owned(s, ref, uid) && !Crossed(s, run, ref, uid)
    ensures Owned(After(s, run), ref, uid)
    decreases |run|
  {
    if run != [] {
      NextInv(s, run[0]);
      NextOwned(s, run[0], ref, uid);
      RunOwned(Next(s, run[0]), run[1..], ref, uid);
    }
  }

  /** So within one incarnation, whatever happened on other keys and before it, quiescence means convergence. */
  lemma UncrossedConverges(run: seq<Action>, ref: Ref)
    requires ValidRun(Init, run) && Quiescent(After(Init, run), ref)
    requires !Crossed(Init, run, ref, After(Init, run).db.resources[ref].uid)
    ensures Converged(After(Init, run), ref)
  {
    QuiescenceMeansConvergence(run, ref);
    RunOwned(Init, run, ref, After(Init, run).db.resources[ref].uid);
  }

  // ------------------------------------------------------- the failing family

  const KEY := Ref("c", "k")
  const DONE := Outcome(true, 0, "x", None)

  /** A fresh worker claims the only queued key, reads the resource and finishes its reconcile. */
  lemma Pass(run: seq<Action>, s: Sys, w: nat, token: Token) returns (run': seq<Action>, s': Sys)
    requires ValidRun(Init, run) && s == After(Init, run)
    requires s.db.queue.Keys == {KEY} && KEY in s.db.resources && Claimable(s.db.queue[KEY], s.clock)
    requires w !in s.workers && token !in s.leases
    ensures ValidRun(Init, run') && s' == After(Init, run')
    ensures s'.db == AfterClaim(s.db, KEY, token, s.clock, 1)
    ensures s'.workers == s.workers[w := Updating(Grant(KEY, token, s.db.queue[KEY].errors), s.db.resources[KEY], DONE)]
    ensures s'.leases.Keys == s.leases.Keys + {token}
    ensures s'.clock == s.clock && s'.source == s.source && s'.uids == s.uids
  {
    StringLeTotal("k", "k");
    assert IsFirst(s.db, Candidates(s.db, {"c"}, s.clock), KEY);
    var s1, s2: Sys;
    run', s1 := Step(Init, run, ClaimNext(w, {"c"}, KEY, 1, token));
    run', s2 := Step(Init, run', Read(w));
    run', s' := Step(Init, run', Finish(w, DONE));
  }

  /** The pass above, with its status written: nothing intervened, so the write succeeds. */
  lemma PassAndUpdate(run: seq<Action>, s: Sys, w: nat, token: Token) returns (run': seq<Action>, s': Sys)
    requires ValidRun(Init, run) && s == After(Init, run)
    requires s.db.queue.Keys == {KEY} && KEY in s.db.resources && Claimable(s.db.queue[KEY], s.clock)
    requires w !in s.workers && token !in s.leases && s.db.resources[KEY].status == Status(0, "")
    ensures ValidRun(Init, run') && s' == After(Init, run')
    ensures s'.db.queue == AfterClaim(s.db, KEY, token, s.clock, 1).queue
    ensures var r := s.db.resources[KEY];
      s'.db.resources == s.db.resources[KEY := r.(version := r.version + 1, status := Status(r.generation, "x"))]
    ensures var g := Grant(KEY, token, s.db.queue[KEY].errors);
      var r := s'.db.resources[KEY];
      var next := if r.deleting && r.finalizers == [] then CheckingDeletion(g, r.version) else Settling(g);
      s'.workers == s.workers[w := next]
    ensures s'.leases.Keys == s.leases.Keys + {token} && s'.clock == s.clock && s'.uids == s.uids
  {
    var s1: Sys;
    run', s1 := Pass(run, s, w, token);
    run', s' := Step(Init, run', Update(w));
  }

  const FIRST := Resource(1, 2, 2, "b", Status(0, ""), false, [])
  const STALE := Updating(Grant(KEY, 0, 0), FIRST, DONE)

  lemma TwoPuts() returns (run: seq<Action>, s: Sys)
    ensures ValidRun(Init, run) && s == After(Init, run)
    ensures s.db == Db(map[KEY := FIRST], map[KEY := QueueRow(0, 2, 0, None)])
    ensures s.clock == 0 && s.source == map[] && s.leases == map[] && s.uids == {1, 2} && s.workers == map[]
  {
    run, s := Step(Init, [], Put(KEY, "a", "", 1));
    run, s := Step(Init, run, Put(KEY, "b", "", 2));
  }

  /** A worker reads version 2 of the first incarnation, which is then marked for deletion. */
  lemma StaleReader() returns (run: seq<Action>, s: Sys)
    ensures ValidRun(Init, run) && s == After(Init, run)
    ensures s.db.resources == map[KEY := FIRST.(deleting := true, version := 3)]
    ensures s.db.queue == map[KEY := QueueRow(0, 3, 0, Some(Claim(0, 2, 1)))]
    ensures s.clock == 10 && s.leases.Keys == {0} && s.uids == {1, 2} && s.workers == map[0 := STALE]
  {
    run, s := TwoPuts();
    run, s := Pass(run, s, 0, 0);
    run, s := Step(Init, run, RequestDeletion(KEY));
    run, s := Step(Init, run, Tick(10));
  }

  /** A second worker takes the expired claim and deletes the first incarnation. */
  lemma FirstDeleted() returns (run: seq<Action>, s: Sys)
    ensures ValidRun(Init, run) && s == After(Init, run)
    ensures s.db == Db(map[], map[]) && s.clock == 10
    ensures s.leases.Keys == {0, 1} && s.uids == {1, 2} && s.workers == map[0 := STALE]
  {
    run, s := StaleReader();
    run, s := PassAndUpdate(run, s, 1, 1);
    run, s := Step(Init, run, CheckDelete(1));
    run, s := Step(Init, run, Delete(1));
  }

  /** The second incarnation reconciles to quiescence at version 2, generation 1. */
  lemma SecondSettled() returns (run: seq<Action>, s: Sys)
    ensures ValidRun(Init, run) && s == After(Init, run)
    ensures s.db.resources == map[KEY := Resource(3, 2, 1, "c", Status(1, "x"), false, [])]
    ensures s.db.queue == map[] && 0 in s.workers && s.workers[0] == STALE
  {
    run, s := FirstDeleted();
    run, s := Step(Init, run, Put(KEY, "c", "", 3));
    assert s.db.queue == map[KEY := QueueRow(10, 1, 0, None)];
    run, s := PassAndUpdate(run, s, 1, 2);
    run, s := Step(Init, run, Settle(1));
  }

  /** Without the condition the main result fails: the stale worker's write lands on the next incarnation. */
  lemma CrossIncarnationBreaksConvergence() returns (run: seq<Action>)
    ensures ValidRun(Init, run)
    ensures Quiescent(After(Init, run), KEY) && !Converged(After(Init, run), KEY)
  {
    var s: Sys;
    run, s := SecondSettled();
    run, s := Step(Init, run, Update(0));
  }
}
