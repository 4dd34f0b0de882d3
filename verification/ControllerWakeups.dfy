/**
 No lost wakeup and lease fencing, on every run of the machine: stale, expired
 and crashed workers, deletions and re-creations included.
 */
module ControllerWakeups {
  import opened Options
  import opened ControllerStore
  import opened ControllerMachine

  // --------------------------------------------------------------- lost wakeups

  /** Some claim granted after event `i` has completed (settled or requeued). */
  ghost predicate Covered(log: seq<Event>, i: nat)
    requires i < |log|
  {
    exists j, k | i < j < k < |log| ::
      log[j].Granted? && log[j].ref == log[i].ref && log[k] == Completed(log[i].ref, log[j].token)
  }

  /** An enqueue on a still-existing resource that no completed later claim has covered. */
  ghost predicate Outstanding(log: seq<Event>, i: nat) {
    && i < |log| && log[i].Requested?
    && (forall j | i < j < |log| :: log[j] != Removed(log[i].ref))
    && !Covered(log, i)
  }

  ghost predicate Awake(s: Sys, i: nat)
    requires i < |s.log|
  {
    s.log[i].Requested? ==>
      s.log[i].ref in s.db.queue && s.db.queue[s.log[i].ref].availableAt <= s.log[i].at
  }

  /** The holder's grant is event `p`; an unchanged version means nothing was requested since. */
  ghost predicate GrantedAt(s: Sys, ref: Ref, p: nat)
    requires ref in s.db.queue && s.db.queue[ref].claim.Some?
  {
    && p < |s.log| && s.log[p] == Granted(ref, s.db.queue[ref].claim.value.token)
    && (s.db.queue[ref].version == s.db.queue[ref].claim.value.version ==>
        forall i | p < i < |s.log| :: s.log[i].Requested? ==> s.log[i].ref != ref)
  }

  ghost predicate WakeInv(s: Sys) {
    && (forall i: nat | Outstanding(s.log, i) :: Awake(s, i))
    && (forall ref | ref in s.db.queue && s.db.queue[ref].claim.Some? :: exists p: nat :: GrantedAt(s, ref, p))
  }

  lemma CoveredStays(log: seq<Event>, e: Event, i: nat)
    requires i < |log| && Covered(log, i)
    ensures Covered(log + [e], i)
  {
    var log' := log + [e];
    var j, k :| i < j < k < |log| &&
      log[j].Granted? && log[j].ref == log[i].ref && log[k] == Completed(log[i].ref, log[j].token);
    assert log'[i] == log[i] && log'[j] == log[j] && log'[k] == log[k];
  }

  lemma OutstandingBefore(log: seq<Event>, e: Event, i: nat)
    requires Outstanding(log + [e], i) && i < |log|
    ensures Outstanding(log, i)
    ensures e != Removed(log[i].ref)
  {
    var log' := log + [e];
    assert log'[i] == log[i] && log'[|log|] == e;
    if Covered(log, i) { CoveredStays(log, e, i); }
    forall j | i < j < |log| ensures log[j] != Removed(log[i].ref) {
      assert log'[j] == log[j];
    }
  }

  /** Rows stay, their availability only moves down, and no grant is forgotten. */
  ghost predicate QueueKept(s: Sys, s': Sys) {
    && s.db.queue.Keys <= s'.db.queue.Keys
    && (forall ref | ref in s.db.queue :: s'.db.queue[ref].availableAt <= s.db.queue[ref].availableAt)
    && (forall ref | ref in s'.db.queue && s'.db.queue[ref].claim.Some? ::
        && ref in s.db.queue && s.db.queue[ref].claim.Some?
        && s'.db.queue[ref].claim.value.token == s.db.queue[ref].claim.value.token
        && s'.db.queue[ref].claim.value.version == s.db.queue[ref].claim.value.version
        && s.db.queue[ref].version <= s'.db.queue[ref].version)
  }

  lemma KeptQuiet(s: Sys, s': Sys)
    requires WakeInv(s) && QueueKept(s, s') && s'.log == s.log
    requires TablesOk(s)
    ensures WakeInv(s')
  {
    forall i: nat | Outstanding(s'.log, i) ensures Awake(s', i) {
      assert Awake(s, i);
    }
    forall ref | ref in s'.db.queue && s'.db.queue[ref].claim.Some? ensures exists p: nat :: GrantedAt(s', ref, p) {
      var p: nat :| GrantedAt(s, ref, p);
      assert GrantedAt(s', ref, p);
    }
  }

  lemma KeptRequest(s: Sys, s': Sys, ref: Ref, at: int)
    requires WakeInv(s) && TablesOk(s) && QueueKept(s, s') && s'.log == s.log + [Requested(ref, at)]
    requires ref in s'.db.queue && s'.db.queue[ref].availableAt <= at
    requires ref in s.db.queue ==> s.db.queue[ref].version < s'.db.queue[ref].version
    ensures WakeInv(s')
  {
    forall i: nat | Outstanding(s'.log, i) ensures Awake(s', i) {
      if i < |s.log| {
        OutstandingBefore(s.log, Requested(ref, at), i);
        assert Awake(s, i);
      }
    }
    forall r | r in s'.db.queue && s'.db.queue[r].claim.Some? ensures exists p: nat :: GrantedAt(s', r, p) {
      var p: nat :| GrantedAt(s, r, p);
      assert GrantedAt(s', r, p);
    }
  }

  lemma EnqueueKeeps(s: Sys, ref: Ref, at: int)
    requires ref in s.db.resources
    ensures QueueKept(s, Next(s, Enqueue(ref, at)))
  {
  }

  lemma PutKeeps(s: Sys, a: Action)
    requires Enabled(s, a) && a.Put?
    ensures QueueKept(s, Next(s, a))
  {
  }

  lemma CallerKeeps(s: Sys, a: Action)
    requires Enabled(s, a) && ByCaller(a)
    ensures QueueKept(s, Next(s, a))
  {
    if a.Put? {
      PutKeeps(s, a);
    } else if a.Enqueue? && a.ref in s.db.resources {
      EnqueueKeeps(s, a.ref, a.at);
    }
  }

  lemma CallerLogs(s: Sys, a: Action)
    requires Enabled(s, a) && ByCaller(a)
    ensures var s' := Next(s, a);
      s'.log == s.log ||
      exists ref, at ::
        s'.log == s.log + [Requested(ref, at)] && ref in s'.db.queue && s'.db.queue[ref].availableAt <= at &&
        (ref in s.db.queue ==> s.db.queue[ref].version < s'.db.queue[ref].version)
  {
  }

  lemma CallerWakes(s: Sys, a: Action)
    requires Inv(s) && WakeInv(s) && Enabled(s, a) && ByCaller(a)
    ensures WakeInv(Next(s, a))
  {
    var s' := Next(s, a);
    CallerKeeps(s, a);
    CallerLogs(s, a);
    if s'.log == s.log {
      KeptQuiet(s, s');
    } else {
      var e := s'.log[|s.log|];
      KeptRequest(s, s', e.ref, e.at);
    }
  }

  lemma PassWakes(s: Sys, a: Action)
    requires Inv(s) && WakeInv(s) && Enabled(s, a) && (ByPass(a) || a.CheckDelete?)
    ensures WakeInv(Next(s, a))
  {
    assert Next(s, a).log == s.log && Next(s, a).db == s.db;
    KeptQuiet(s, Next(s, a));
  }

  lemma RenewWakes(s: Sys, a: Action)
    requires Inv(s) && WakeInv(s) && Enabled(s, a) && a.Renew?
    ensures WakeInv(Next(s, a))
  {
    KeptQuiet(s, Next(s, a));
  }

  lemma UpdateWakes(s: Sys, w: nat)
    requires Inv(s) && WakeInv(s) && Enabled(s, Update(w))
    ensures WakeInv(NextUpdate(s, w))
  {
    assert NextUpdate(s, w).db.queue == s.db.queue && NextUpdate(s, w).log == s.log;
    KeptQuiet(s, NextUpdate(s, w));
  }

  lemma ClaimWakes(s: Sys, a: Action)
    requires Inv(s) && WakeInv(s) && Enabled(s, a) && a.ClaimNext?
    ensures WakeInv(Next(s, a))
  {
    var s' := Next(s, a);
    var e := Granted(a.pick, a.token);
    forall i: nat | Outstanding(s'.log, i) ensures Awake(s', i) {
      OutstandingBefore(s.log, e, i);
      assert Awake(s, i);
    }
    forall ref | ref in s'.db.queue && s'.db.queue[ref].claim.Some? ensures exists p: nat :: GrantedAt(s', ref, p) {
      if ref == a.pick {
        assert GrantedAt(s', ref, |s.log|);
      } else {
        var p: nat :| GrantedAt(s, ref, p);
        assert GrantedAt(s', ref, p);
      }
    }
  }

  lemma DeleteWakes(s: Sys, w: nat)
    requires Inv(s) && WakeInv(s) && Enabled(s, Delete(w))
    ensures WakeInv(NextDelete(s, w))
  {
    var s' := NextDelete(s, w);
    var ref := s.workers[w].grant.ref;
    if s'.log == s.log {
      KeptQuiet(s, s');
    } else {
      forall i: nat | Outstanding(s'.log, i) ensures Awake(s', i) {
        OutstandingBefore(s.log, Removed(ref), i);
        assert Awake(s, i);
      }
      forall r | r in s'.db.queue && s'.db.queue[r].claim.Some? ensures exists p: nat :: GrantedAt(s', r, p) {
        var p: nat :| GrantedAt(s, r, p);
        assert GrantedAt(s', r, p);
      }
    }
  }

  /** Completing a claim at an unchanged version covers every request on the key. */
  lemma CompletionCovers(s: Sys, ref: Ref, i: nat)
    requires WakeInv(s) && ref in s.db.queue && s.db.queue[ref].claim.Some?
    requires s.db.queue[ref].version == s.db.queue[ref].claim.value.version
    requires i < |s.log| && s.log[i].Requested? && s.log[i].ref == ref
    ensures Covered(s.log + [Completed(ref, s.db.queue[ref].claim.value.token)], i)
  {
    var p: nat :| GrantedAt(s, ref, p);
    var log' := s.log + [Completed(ref, s.db.queue[ref].claim.value.token)];
    assert i < p < |s.log| && log'[p] == s.log[p] && log'[i] == s.log[i];
    assert log'[|s.log|] == Completed(ref, log'[p].token);
  }

  lemma CompleteWakes(s: Sys, w: nat)
    requires Inv(s) && WakeInv(s) && w in s.workers && (s.workers[w].Settling? || s.workers[w].Requeueing?)
    ensures WakeInv(NextComplete(s, w))
  {
    var s' := NextComplete(s, w);
    var ref := s.workers[w].grant.ref;
    if s'.log == s.log {
      KeptQuiet(s, s');
    } else {
      forall i: nat | Outstanding(s'.log, i) ensures Awake(s', i) {
        OutstandingBefore(s.log, Completed(ref, s.workers[w].grant.token), i);
        assert Awake(s, i);
        if s.log[i].ref == ref && s.db.queue[ref].version == s.db.queue[ref].claim.value.version {
          CompletionCovers(s, ref, i);
        }
      }
      forall r | r in s'.db.queue && s'.db.queue[r].claim.Some? ensures exists p: nat :: GrantedAt(s', r, p) {
        var p: nat :| GrantedAt(s, r, p);
        assert GrantedAt(s', r, p);
      }
    }
  }

  lemma NextWakes(s: Sys, a: Action)
    requires Inv(s) && WakeInv(s) && Enabled(s, a)
    ensures WakeInv(Next(s, a))
  {
    match a
    case ClaimNext(_, _, _, _, _) => ClaimWakes(s, a);
    case Update(w) => UpdateWakes(s, w);
    case Delete(w) => DeleteWakes(s, w);
    case Settle(w) => CompleteWakes(s, w);
    case Requeue(w) => CompleteWakes(s, w);
    case Renew(_, _) => RenewWakes(s, a);
    case CheckDelete(_) => PassWakes(s, a);
    case Read(_) => PassWakes(s, a);
    case Finish(_, _) => PassWakes(s, a);
    case Fail(_, _) => PassWakes(s, a);
    case Crash(_) => PassWakes(s, a);
    case _ => CallerWakes(s, a);
  }

  lemma {:induction false} RunWakes(s: Sys, run: seq<Action>)
    requires Inv(s) && WakeInv(s) && ValidRun(s, run)
    ensures WakeInv(After(s, run))
    decreases |run|
  {
    if run != [] {
      NextInv(s, run[0]);
      NextWakes(s, run[0]);
      RunWakes(Next(s, run[0]), run[1..]);
    }
  }

  /** Main result: an outstanding request's row is present and ready no later than it asked for. */
  lemma NoLostWakeup(run: seq<Action>, i: nat)
    requires ValidRun(Init, run) && Outstanding(After(Init, run).log, i)
    ensures var s := After(Init, run);
      var ref := s.log[i].ref;
      ref in s.db.queue && s.db.queue[ref].availableAt <= s.log[i].at
  {
    RunWakes(Init, run);
    assert Awake(After(Init, run), i);
  }

  // ------------------------------------------------------------- requeues wait

  ghost predicate RequestedSince(log: seq<Event>, n: nat, ref: Ref) {
    exists i | n <= i < |log| :: log[i].Requested? && log[i].ref == ref
  }

  /** The key's row, if it has one, is free and not due before `at`. */
  predicate WaitsUntil(s: Sys, ref: Ref, at: int) {
    ref in s.db.queue ==> s.db.queue[ref].claim.None? && at <= s.db.queue[ref].availableAt
  }

  ghost predicate StillWaits(s: Sys, ref: Ref, at: int, n: nat) {
    at <= s.clock || RequestedSince(s.log, n, ref) || WaitsUntil(s, ref, at)
  }

  lemma RequestedStays(log: seq<Event>, log': seq<Event>, n: nat, ref: Ref)
    requires log <= log' && RequestedSince(log, n, ref)
    ensures RequestedSince(log', n, ref)
  {
    var i :| n <= i < |log| && log[i].Requested? && log[i].ref == ref;
    assert log'[i] == log[i];
  }

  lemma LogGrows(s: Sys, a: Action)
    requires Enabled(s, a)
    ensures s.log <= Next(s, a).log && s.clock <= Next(s, a).clock
  {
  }

  lemma CallerWaits(s: Sys, a: Action, ref: Ref, at: int)
    requires Enabled(s, a) && ByCaller(a) && WaitsUntil(s, ref, at)
    ensures WaitsUntil(Next(s, a), ref, at) || Next(s, a).log[|s.log|..] == [Requested(ref, Requester(s, a))]
  {
  }

  function Requester(s: Sys, a: Action): int { if a.Enqueue? then a.at else s.clock }

  lemma WorkerWaits(s: Sys, a: Action, ref: Ref, at: int)
    requires Enabled(s, a) && !ByCaller(a) && WaitsUntil(s, ref, at) && s.clock < at
    ensures WaitsUntil(Next(s, a), ref, at)
  {
  }

  lemma NextWaits(s: Sys, a: Action, ref: Ref, at: int, n: nat)
    requires Enabled(s, a) && StillWaits(s, ref, at, n) && n <= |s.log|
    ensures StillWaits(Next(s, a), ref, at, n) && n <= |Next(s, a).log|
  {
    LogGrows(s, a);
    if RequestedSince(s.log, n, ref) {
      RequestedStays(s.log, Next(s, a).log, n, ref);
    } else if s.clock < at {
      if ByCaller(a) {
        CallerWaits(s, a, ref, at);
        if !WaitsUntil(Next(s, a), ref, at) {
          assert Next(s, a).log[|s.log|] == Next(s, a).log[|s.log|..][0];
        }
      } else {
        WorkerWaits(s, a, ref, at);
      }
    }
  }

  lemma {:induction false} RunWaits(s: Sys, run: seq<Action>, ref: Ref, at: int, n: nat)
    requires ValidRun(s, run) && StillWaits(s, ref, at, n) && n <= |s.log|
    ensures StillWaits(After(s, run), ref, at, n)
    decreases |run|
  {
    if run != [] {
      NextWaits(s, run[0], ref, at, n);
      RunWaits(Next(s, run[0]), run[1..], ref, at, n);
    }
  }

  /**
   Main result: a requeue waits. Once a worker has requeued its claim with no event in between, the key is not
   granted again before the asked time, the backoff of a failure included, unless something requests it.
   */
  lemma RequeueWaits(s: Sys, w: nat, rest: seq<Action>, grant: Action)
    requires Enabled(s, Requeue(w)) && Holds(s.db, s.workers[w].grant.ref, s.workers[w].grant.token)
    requires var row := s.db.queue[s.workers[w].grant.ref]; row.version == row.claim.value.version
    requires ValidRun(Next(s, Requeue(w)), rest)
    requires grant.ClaimNext? && Enabled(After(Next(s, Requeue(w)), rest), grant)
    requires grant.pick == s.workers[w].grant.ref
    ensures var t := After(Next(s, Requeue(w)), rest);
      s.workers[w].availableAt <= t.clock || RequestedSince(t.log, |s.log| + 1, grant.pick)
  {
    var p, s1 := s.workers[w], Next(s, Requeue(w));
    RunWaits(s1, rest, p.grant.ref, p.availableAt, |s1.log|);
  }

  /** And it counts: one error more after a failure, none after a pass that asked for the requeue itself. */
  lemma RequeueCounts(s: Sys, w: nat)
    requires Enabled(s, Requeue(w)) && Holds(s.db, s.workers[w].grant.ref, s.workers[w].grant.token)
    ensures var (ref, s') := (s.workers[w].grant.ref, Next(s, Requeue(w)));
      && ref in s'.db.queue && s'.db.queue[ref].version == s.db.queue[ref].version
      && s'.db.queue[ref].errors == (if s.workers[w].failed then s.db.queue[ref].errors + 1 else 0)
      && s'.log == s.log + [Completed(ref, s.workers[w].grant.token)]
  {
  }

  // -------------------------------------------------------------------- fencing

  /** `t` was granted for its key, and the key's row is not held by it. */
  ghost predicate Displaced(s: Sys, t: Token) {
    t in s.leases && !Holds(s.db, s.leases[t].ref, t)
  }

  /** Main result: at any time at most one token of a key is unreleased and unexpired. */
  lemma OneLiveLease(run: seq<Action>, t: Token, u: Token)
    requires ValidRun(Init, run)
    requires var s := After(Init, run);
      t in s.leases && u in s.leases && s.leases[t].ref == s.leases[u].ref &&
      !s.leases[t].released && !s.leases[u].released &&
      s.clock < s.leases[t].expiresAt && s.clock < s.leases[u].expiresAt
    ensures t == u
  {
    RunInv(Init, run);
  }

  /** A worker whose token is displaced cannot change the queue: all three operations return false. */
  lemma DisplacedIsInert(s: Sys, t: Token, leaseMs: nat, at: int, failed: bool)
    requires Displaced(s, t)
    ensures var ref := s.leases[t].ref;
      && AfterRenew(s.db, ref, t, leaseMs, s.clock) == (s.db, false)
      && AfterSettle(s.db, ref, t, s.clock) == (s.db, false)
      && AfterRequeue(s.db, ref, t, at, failed) == (s.db, false)
  {
  }

  lemma CallerStaysDisplaced(s: Sys, a: Action, t: Token)
    requires Inv(s) && Enabled(s, a) && Displaced(s, t) && (ByCaller(a) || ByPass(a) || a.CheckDelete?)
    ensures Displaced(Next(s, a), t) && Next(s, a).leases[t].ref == s.leases[t].ref
  {
  }

  lemma UpdateStaysDisplaced(s: Sys, w: nat, t: Token)
    requires Inv(s) && Enabled(s, Update(w)) && Displaced(s, t)
    ensures Displaced(NextUpdate(s, w), t) && NextUpdate(s, w).leases[t].ref == s.leases[t].ref
  {
  }

  lemma DeleteStaysDisplaced(s: Sys, w: nat, t: Token)
    requires Inv(s) && Enabled(s, Delete(w)) && Displaced(s, t)
    ensures Displaced(NextDelete(s, w), t) && NextDelete(s, w).leases[t].ref == s.leases[t].ref
  {
  }

  lemma CompleteStaysDisplaced(s: Sys, w: nat, t: Token)
    requires Inv(s) && w in s.workers && (s.workers[w].Settling? || s.workers[w].Requeueing?) && Displaced(s, t)
    ensures Displaced(NextComplete(s, w), t) && NextComplete(s, w).leases[t].ref == s.leases[t].ref
  {
  }

  lemma GrantStaysDisplaced(s: Sys, a: Action, t: Token)
    requires Inv(s) && Enabled(s, a) && Displaced(s, t) && (a.ClaimNext? || a.Renew?)
    ensures Displaced(Next(s, a), t) && Next(s, a).leases[t].ref == s.leases[t].ref
  {
  }

  lemma NextStaysDisplaced(s: Sys, a: Action, t: Token)
    requires Inv(s) && Enabled(s, a) && Displaced(s, t)
    ensures Displaced(Next(s, a), t) && Next(s, a).leases[t].ref == s.leases[t].ref
  {
    match a
    case ClaimNext(_, _, _, _, _) => GrantStaysDisplaced(s, a, t);
    case Renew(_, _) => GrantStaysDisplaced(s, a, t);
    case Update(w) => UpdateStaysDisplaced(s, w, t);
    case Delete(w) => DeleteStaysDisplaced(s, w, t);
    case Settle(w) => CompleteStaysDisplaced(s, w, t);
    case Requeue(w) => CompleteStaysDisplaced(s, w, t);
    case _ => CallerStaysDisplaced(s, a, t);
  }

  lemma {:induction false} RunStaysDisplaced(s: Sys, run: seq<Action>, t: Token)
    requires Inv(s) && ValidRun(s, run) && Displaced(s, t)
    ensures Displaced(After(s, run), t) && After(s, run).leases[t].ref == s.leases[t].ref
    decreases |run|
  {
    if run != [] {
      NextInv(s, run[0]);
      NextStaysDisplaced(s, run[0], t);
      RunStaysDisplaced(Next(s, run[0]), run[1..], t);
    }
  }

  /**
   Main result: once another token is granted for the key, the old token is
   fenced for good: after any further run it renews, settles and requeues nothing.
   */
  lemma FencedForGood(before: seq<Action>, grant: Action, rest: seq<Action>, t: Token, leaseMs: nat, at: int,
                      failed: bool)
    requires ValidRun(Init, before) && Enabled(After(Init, before), grant) && grant.ClaimNext?
    requires t in After(Init, before).leases && After(Init, before).leases[t].ref == grant.pick
    requires ValidRun(Next(After(Init, before), grant), rest)
    ensures var s := After(Next(After(Init, before), grant), rest);
      && AfterRenew(s.db, grant.pick, t, leaseMs, s.clock) == (s.db, false)
      && AfterSettle(s.db, grant.pick, t, s.clock) == (s.db, false)
      && AfterRequeue(s.db, grant.pick, t, at, failed) == (s.db, false)
  {
    var s := After(Init, before);
    RunInv(Init, before);
    NextInv(s, grant);
    RunStaysDisplaced(Next(s, grant), rest, t);
    DisplacedIsInert(After(Next(s, grant), rest), t, leaseMs, at, failed);
  }
}
