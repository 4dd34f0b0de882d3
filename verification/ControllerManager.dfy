/**
 `ControllerManager` over the store object: one claim processed start to finish.
 Its effect on the store is that of a run of the machine's worker, so the
 machine's results cover it and every point at which it may be interrupted.
 */
module ControllerManager {
  import opened Options
  import opened ControllerStore
  import opened ControllerMachine

  // ------------------------------------- what one uninterrupted pass leaves in the tables

  function Deleted(db: Db, g: Grant, version: nat, now: int, delayMs: nat): Db {
    match CheckDeletion(db, g.ref)
    case Absent => db
    case NotReady => AfterRequeue(db, g.ref, g.token, now + delayMs, true).0
    case Ready =>
      var (db', deleted) := AfterDelete(db, g.ref, version);
      if deleted then db' else AfterRequeue(db, g.ref, g.token, now, false).0
  }

  function Succeeded(db: Db, g: Grant, snap: Resource, outcome: Outcome, now: int, delayMs: nat): Db {
    var (db', result) :=
      AfterUpdateStatus(db, g.ref, snap.version, Status(snap.generation, outcome.value), outcome.finalizers);
    match result
    case NotFound => AfterRequeue(db', g.ref, g.token, now + delayMs, true).0
    case Conflict => AfterRequeue(db', g.ref, g.token, now, false).0
    case Updated(r) =>
      if outcome.settled && r.deleting && r.finalizers == [] then Deleted(db', g, r.version, now, delayMs)
      else if outcome.settled then AfterSettle(db', g.ref, g.token, now).0
      else AfterRequeue(db', g.ref, g.token, now + outcome.afterMs, false).0
  }

  function Processed(db: Db, g: Grant, attempt: Option<Outcome>, now: int, delayMs: nat): Db {
    if g.ref !in db.resources then AfterSettle(db, g.ref, g.token, now).0
    else if attempt.None? then AfterRequeue(db, g.ref, g.token, now + delayMs, true).0
    else Succeeded(db, g, db.resources[g.ref], attempt.value, now, delayMs)
  }

  /** The finalizers after a pass: what the reconcile returned, or those there were. */
  function Kept(r: Resource, outcome: Outcome): seq<string> {
    if outcome.finalizers.Some? then outcome.finalizers.value else r.finalizers
  }

  /** The same tables but for this key. */
  ghost predicate Elsewhere(db: Db, db': Db, ref: Ref) {
    && (forall other | other != ref :: other in db'.resources <==> other in db.resources)
    && (forall other | other != ref && other in db.resources :: db'.resources[other] == db.resources[other])
    && (forall other | other != ref :: other in db'.queue <==> other in db.queue)
    && (forall other | other != ref && other in db.queue :: db'.queue[other] == db.queue[other])
  }

  /** A failed pass touches no resource, and its key is due after the backoff with one more error. */
  lemma FailedPass(db: Db, g: Grant, now: int, delayMs: nat)
    requires g.ref in db.resources && Holds(db, g.ref, g.token)
    ensures var (db', row) := (Processed(db, g, None, now, delayMs), db.queue[g.ref]);
      && db'.resources == db.resources && Elsewhere(db, db', g.ref)
      && g.ref in db'.queue && db'.queue[g.ref].claim.None? && db'.queue[g.ref].errors == row.errors + 1
      && (row.version == row.claim.value.version ==> db'.queue[g.ref].availableAt == now + delayMs)
  {
  }

  /**
   A successful pass stores the status for the generation it read, and the finalizers. Then a settled key under
   deletion without finalizers is gone with its row, another settled key has its row removed unless an event came
   in between, and a key that is not settled is due after the time it asked for, with no errors.
   */
  lemma SuccessfulPass(db: Db, g: Grant, outcome: Outcome, now: int, delayMs: nat)
    requires g.ref in db.resources && Holds(db, g.ref, g.token)
    ensures var (db', row, r) := (Processed(db, g, Some(outcome), now, delayMs), db.queue[g.ref], db.resources[g.ref]);
      && Elsewhere(db, db', g.ref)
      && (outcome.settled && r.deleting && Kept(r, outcome) == [] <==> g.ref !in db'.resources)
      && (g.ref !in db'.resources ==> g.ref !in db'.queue)
      && (g.ref in db'.resources ==>
            db'.resources[g.ref] == r.(status := Status(r.generation, outcome.value), finalizers := Kept(r, outcome),
                                       version := db'.resources[g.ref].version))
      && (g.ref in db'.resources ==>
            (g.ref !in db'.queue <==> outcome.settled && row.version == row.claim.value.version))
      && (g.ref in db'.queue ==> db'.queue[g.ref].claim.None? && db'.queue[g.ref].errors == 0)
      && (g.ref in db'.queue && row.version == row.claim.value.version ==>
            db'.queue[g.ref].availableAt == now + outcome.afterMs)
      && (g.ref in db'.queue && outcome.settled ==> db'.queue[g.ref].availableAt <= now)
  {
  }

  /** A status write that comes too late leaves the status alone, is no error, and has the key tried again at once. */
  lemma LateWrite(db: Db, g: Grant, snap: Resource, outcome: Outcome, now: int, delayMs: nat)
    requires Holds(db, g.ref, g.token) && g.ref in db.resources && db.resources[g.ref].version != snap.version
    ensures var (db', row) := (Succeeded(db, g, snap, outcome, now, delayMs), db.queue[g.ref]);
      && db'.resources == db.resources && g.ref in db'.queue && db'.queue[g.ref].errors == 0
      && db'.queue[g.ref].claim.None? && db'.queue[g.ref].availableAt <= now
      && (row.version == row.claim.value.version ==> db'.queue[g.ref].availableAt == now)
  {
  }

  // ------------------------------------------------------------ steps of one worker

  /** Worker `w` stands at phase `p` over the tables `db` at time `clock`. */
  ghost predicate At(t: Sys, db: Db, clock: int, w: nat, p: Phase) {
    t.db == db && t.clock == clock && w in t.workers && t.workers[w] == p
  }

  lemma StepRead(s: Sys, run: seq<Action>, w: nat, g: Grant) returns (run': seq<Action>)
    requires ValidRun(s, run) && At(After(s, run), After(s, run).db, After(s, run).clock, w, Claimed(g))
    ensures ValidRun(s, run') && At(After(s, run'), After(s, run).db, After(s, run).clock, w,
      if g.ref in After(s, run).db.resources then Reconciling(g, After(s, run).db.resources[g.ref]) else Settling(g))
  {
    var t: Sys;
    run', t := Step(s, run, Read(w));
  }

  lemma StepFinish(s: Sys, run: seq<Action>, w: nat, g: Grant, snap: Resource, outcome: Outcome)
    returns (run': seq<Action>)
    requires ValidRun(s, run) && At(After(s, run), After(s, run).db, After(s, run).clock, w, Reconciling(g, snap))
    ensures ValidRun(s, run')
    ensures At(After(s, run'), After(s, run).db, After(s, run).clock, w, Updating(g, snap, outcome))
  {
    var t: Sys;
    run', t := Step(s, run, Finish(w, outcome));
  }

  lemma StepFail(s: Sys, run: seq<Action>, w: nat, p: Phase, delayMs: nat) returns (run': seq<Action>)
    requires ValidRun(s, run) && At(After(s, run), After(s, run).db, After(s, run).clock, w, p) && !p.Claimed?
    ensures ValidRun(s, run')
    ensures At(After(s, run'), After(s, run).db, After(s, run).clock, w,
      Requeueing(p.grant, After(s, run).clock + delayMs, true))
  {
    var t: Sys;
    run', t := Step(s, run, Fail(w, delayMs));
  }

  lemma StepUpdate(s: Sys, run: seq<Action>, w: nat, p: Phase) returns (run': seq<Action>)
    requires ValidRun(s, run) && At(After(s, run), After(s, run).db, After(s, run).clock, w, p) && p.Updating?
    ensures ValidRun(s, run')
    ensures var t := After(s, run);
      var (db', result) := AfterUpdateStatus(t.db, p.grant.ref, p.snap.version,
        Status(p.snap.generation, p.outcome.value), p.outcome.finalizers);
      At(After(s, run'), db', t.clock, w,
        match result
        case Updated(r) =>
          if p.outcome.settled && r.deleting && r.finalizers == [] then CheckingDeletion(p.grant, r.version)
          else if p.outcome.settled then Settling(p.grant)
          else Requeueing(p.grant, t.clock + p.outcome.afterMs, false)
        case Conflict => Requeueing(p.grant, t.clock, false)
        case NotFound => Requeueing(p.grant, t.clock, true))
  {
    var t: Sys;
    run', t := Step(s, run, Update(w));
  }

  lemma StepComplete(s: Sys, run: seq<Action>, w: nat, p: Phase) returns (run': seq<Action>)
    requires ValidRun(s, run) && At(After(s, run), After(s, run).db, After(s, run).clock, w, p)
    requires p.Settling? || p.Requeueing?
    ensures ValidRun(s, run') && w !in After(s, run').workers
    ensures var t := After(s, run);
      After(s, run').db ==
        if p.Settling? then AfterSettle(t.db, p.grant.ref, p.grant.token, t.clock).0
        else AfterRequeue(t.db, p.grant.ref, p.grant.token, p.availableAt, p.failed).0
  {
    var t: Sys;
    run', t := Step(s, run, if p.Settling? then Settle(w) else Requeue(w));
  }

  lemma StepCheckDelete(s: Sys, run: seq<Action>, w: nat, g: Grant, version: nat) returns (run': seq<Action>)
    requires ValidRun(s, run)
    requires At(After(s, run), After(s, run).db, After(s, run).clock, w, CheckingDeletion(g, version))
    ensures ValidRun(s, run')
    ensures var (t, t') := (After(s, run), After(s, run'));
      match CheckDeletion(t.db, g.ref)
      case Absent => t'.db == t.db && w !in t'.workers
      case NotReady => At(t', t.db, t.clock, w, Requeueing(g, t.clock, true))
      case Ready => At(t', t.db, t.clock, w, Deleting(g, version))
  {
    var t: Sys;
    run', t := Step(s, run, CheckDelete(w));
  }

  lemma StepDelete(s: Sys, run: seq<Action>, w: nat, g: Grant, version: nat) returns (run': seq<Action>)
    requires ValidRun(s, run) && At(After(s, run), After(s, run).db, After(s, run).clock, w, Deleting(g, version))
    ensures ValidRun(s, run')
    ensures var (t, t') := (After(s, run), After(s, run'));
      var (db', deleted) := AfterDelete(t.db, g.ref, version);
      if deleted then t'.db == db' && w !in t'.workers
      else At(t', t.db, t.clock, w, Requeueing(g, t.clock, false))
  {
    var t: Sys;
    run', t := Step(s, run, Delete(w));
  }

  class Manager {
    const store: SqliteControllerStore
    const limits: map<string, nat>
    const maxConcurrent: nat
    const leaseMs: nat
    var activeByController: map<string, nat>

    constructor (store: SqliteControllerStore, limits: map<string, nat>, maxConcurrent: nat, leaseMs: nat)
      ensures this.store == store && activeByController == map[]
    {
      this.store, this.limits, this.maxConcurrent, this.leaseMs := store, limits, maxConcurrent, leaseMs;
      activeByController := map[];
    }

    function Active(name: string): nat
      reads this
    {
      if name in activeByController then activeByController[name] else 0
    }

    function Limit(name: string): nat {
      if name in limits then limits[name] else maxConcurrent
    }

    /** Counts are kept only while positive, and stay within each controller's limit. */
    ghost predicate Valid()
      reads this
    {
      forall name | name in activeByController :: 0 < activeByController[name] <= Limit(name)
    }

    function EligibleControllers(definitions: set<string>): set<string>
      reads this
    {
      set name | name in definitions && Active(name) < Limit(name)
    }

    /** Claims the first ready row of a controller under its limit, if there is one, and counts the claim at once. */
    method Begin(definitions: set<string>, now: int, token: Token) returns (grant: Option<Grant>)
      requires Valid()
      modifies this`activeByController, store`queue
      ensures Valid()
      ensures grant.None? <==> Candidates(old(store.View()), old(EligibleControllers(definitions)), now) == {}
      ensures grant.None? ==> activeByController == old(activeByController) && store.View() == old(store.View())
      ensures grant.Some? ==>
        var name := grant.value.ref.controller;
        name in definitions && old(Active(name)) < Limit(name) &&
        activeByController == old(activeByController)[name := old(Active(name)) + 1] &&
        IsFirst(old(store.View()), Candidates(old(store.View()), old(EligibleControllers(definitions)), now),
                grant.value.ref) &&
        store.View() == AfterClaim(old(store.View()), grant.value.ref, token, now, leaseMs)
    {
      grant := store.ClaimNext(EligibleControllers(definitions), leaseMs, now, token);
      if grant.Some? {
        var name := grant.value.ref.controller;
        activeByController := activeByController[name := Active(name) + 1];
      }
    }

    /** The `finally` of processClaim: it takes back exactly what Begin counted. */
    method End(name: string)
      requires Valid() && name in activeByController
      modifies this`activeByController
      ensures Valid()
      ensures forall other | other != name ::
        (other in activeByController <==> other in old(activeByController)) &&
        (other in activeByController ==> activeByController[other] == old(activeByController)[other])
      ensures Active(name) == old(Active(name)) - 1
    {
      var active := activeByController[name] - 1;
      if active == 0 {
        activeByController := activeByController - {name};
      } else {
        activeByController := activeByController[name := active];
      }
    }

    /**
     `attempt` is what the reconciler returned, or None when it threw or aborted.
     `s` is any machine state over these tables in which worker `w` holds the claim.
     */
    method ReconcileClaim(grant: Grant, attempt: Option<Outcome>, now: int, delayMs: nat, ghost s: Sys, ghost w: nat)
      returns (ghost run: seq<Action>)
      requires At(s, store.View(), now, w, Claimed(grant))
      modifies store
      ensures store.View() == Processed(old(store.View()), grant, attempt, now, delayMs)
      ensures ValidRun(s, run) && After(s, run).db == store.View() && w !in After(s, run).workers
    {
      run := StepRead(s, [], w, grant);
      if grant.ref !in store.resources {
        var _ := store.SettleClaim(grant.ref, grant.token, now);
        run := StepComplete(s, run, w, Settling(grant));
        return;
      }
      var resource := store.resources[grant.ref];
      if attempt.None? {
        run := StepFail(s, run, w, Reconciling(grant, resource), delayMs);
        run := FinishFailedClaim(grant, now, delayMs, s, run, w);
      } else {
        run := StepFinish(s, run, w, grant, resource, attempt.value);
        run := FinishSuccessfulClaim(grant, resource, attempt.value, now, delayMs, s, run, w);
      }
    }

    method FinishFailedClaim(grant: Grant, now: int, delayMs: nat, ghost s: Sys, ghost before: seq<Action>,
                             ghost w: nat)
      returns (ghost run: seq<Action>)
      requires ValidRun(s, before)
      requires At(After(s, before), store.View(), now, w, Requeueing(grant, now + delayMs, true))
      modifies store
      ensures store.View() == AfterRequeue(old(store.View()), grant.ref, grant.token, now + delayMs, true).0
      ensures store.resources == old(store.resources)
      ensures old(Holds(store.View(), grant.ref, grant.token)) ==>
        && grant.ref in store.queue && store.queue[grant.ref].claim.None?
        && store.queue[grant.ref].errors == old(store.queue)[grant.ref].errors + 1
        && (old(store.queue)[grant.ref].version == old(store.queue)[grant.ref].claim.value.version ==>
              store.queue[grant.ref].availableAt == now + delayMs)
      ensures ValidRun(s, run) && After(s, run).db == store.View() && w !in After(s, run).workers
    {
      run := StepComplete(s, before, w, Requeueing(grant, now + delayMs, true));
      var _ := store.RequeueClaim(grant.ref, grant.token, now + delayMs, true);
    }

    method FinishSuccessfulClaim(grant: Grant, resource: Resource, outcome: Outcome, now: int, delayMs: nat,
        ghost s: Sys, ghost before: seq<Action>, ghost w: nat)
      returns (ghost run: seq<Action>)
      requires ValidRun(s, before)
      requires At(After(s, before), store.View(), now, w, Updating(grant, resource, outcome))
      modifies store
      ensures store.View() == Succeeded(old(store.View()), grant, resource, outcome, now, delayMs)
      ensures ValidRun(s, run) && After(s, run).db == store.View() && w !in After(s, run).workers
    {
      run := StepUpdate(s, before, w, Updating(grant, resource, outcome));
      var status := Status(resource.generation, outcome.value);
      var result := store.UpdateStatus(grant.ref, resource.version, status, outcome.finalizers);
      match result {
        case NotFound =>
          run := StepFail(s, run, w, Requeueing(grant, now, true), delayMs);
          run := FinishFailedClaim(grant, now, delayMs, s, run, w);
        case Conflict =>
          var _ := store.RequeueClaim(grant.ref, grant.token, now, false);
          run := StepComplete(s, run, w, Requeueing(grant, now, false));
        case Updated(updated) =>
          if outcome.settled && updated.deleting && updated.finalizers == [] {
            run := FinishDeletion(grant, updated.version, now, delayMs, s, run, w);
          } else if outcome.settled {
            var _ := store.SettleClaim(grant.ref, grant.token, now);
            run := StepComplete(s, run, w, Settling(grant));
          } else {
            var _ := store.RequeueClaim(grant.ref, grant.token, now + outcome.afterMs, false);
            run := StepComplete(s, run, w, Requeueing(grant, now + outcome.afterMs, false));
          }
      }
    }

    method FinishDeletion(grant: Grant, version: nat, now: int, delayMs: nat,
        ghost s: Sys, ghost before: seq<Action>, ghost w: nat)
      returns (ghost run: seq<Action>)
      requires ValidRun(s, before)
      requires At(After(s, before), store.View(), now, w, CheckingDeletion(grant, version))
      modifies store
      ensures store.View() == Deleted(old(store.View()), grant, version, now, delayMs)
      ensures ValidRun(s, run) && After(s, run).db == store.View() && w !in After(s, run).workers
    {
      run := StepCheckDelete(s, before, w, grant, version);
      var check, deleted := store.DeleteResource(grant.ref, version);
      if check == Ready {
        run := StepDelete(s, run, w, grant, version);
        if !deleted {
          var _ := store.RequeueClaim(grant.ref, grant.token, now, false);
          run := StepComplete(s, run, w, Requeueing(grant, now, false));
        }
      } else if check == NotReady {
        run := StepFail(s, run, w, Requeueing(grant, now, true), delayMs);
        run := FinishFailedClaim(grant, now, delayMs, s, run, w);
      }
    }
  }
}
