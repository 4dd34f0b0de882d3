/**
 Any number of reconcilers over one controller store (`src/controllers/manager.ts`).

 A worker runs the phases of `reconcileClaim`, `finishSuccessfulClaim` and
 `finishFailedClaim`; between any two of its store operations other workers,
 callers and the clock may act, leases may expire, and the worker may crash.
 Each store operation is one step, as its transaction or statement is.

 `log`, `source` and `leases` are history: the program never reads them.
 */
module ControllerMachine {
  import opened Options
  import opened ControllerStore

  /** What a reconcile returned; `value` is the status it computed. */
  datatype Outcome = Outcome(settled: bool, afterMs: nat, value: string, finalizers: Option<seq<string>>)

  datatype Phase =
    | Claimed(grant: Grant)
    | Reconciling(grant: Grant, snap: Resource)
    | Updating(grant: Grant, snap: Resource, outcome: Outcome)
    | CheckingDeletion(grant: Grant, version: nat)
    | Deleting(grant: Grant, version: nat)
    | Settling(grant: Grant)
    | Requeueing(grant: Grant, availableAt: int, failed: bool)

  /** Queue history of one resource key. `Removed` is the cascade of a deletion. */
  datatype Event =
    | Requested(ref: Ref, at: int)
    | Granted(ref: Ref, token: Token)
    | Completed(ref: Ref, token: Token)
    | Removed(ref: Ref)

  datatype Lease = Lease(ref: Ref, expiresAt: int, released: bool)

  /** The resource a reconcile was given when it computed the stored status. */
  datatype Source = Source(uid: Uid, generation: nat, spec: string)

  datatype Sys = Sys(
    db: Db, clock: int, workers: map<nat, Phase>,
    log: seq<Event>, leases: map<Token, Lease>, source: map<Ref, Source>, uids: set<Uid>)

  datatype Action =
    | Tick(now: int)
    | Put(ref: Ref, spec: string, initial: string, uid: Uid)
    | RequestDeletion(ref: Ref)
    | SetFinalizers(ref: Ref, expected: nat, finalizers: seq<string>)
    | Enqueue(ref: Ref, at: int)
    | ClaimNext(w: nat, controllers: set<string>, pick: Ref, leaseMs: nat, token: Token)
    | Renew(w: nat, leaseMs: nat)
    | Read(w: nat)
    | Finish(w: nat, outcome: Outcome)
    | Fail(w: nat, delayMs: nat)
    | Update(w: nat)
    | CheckDelete(w: nat)
    | Delete(w: nat)
    | Settle(w: nat)
    | Requeue(w: nat)
    | Crash(w: nat)

  const Init := Sys(Db(map[], map[]), 0, map[], [], map[], map[], {})

  ghost predicate Enabled(s: Sys, a: Action) {
    match a
    case Tick(now) => s.clock <= now
    case Put(_, _, _, uid) => uid !in s.uids
    case RequestDeletion(_) | SetFinalizers(_, _, _) | Enqueue(_, _) => true
    case ClaimNext(w, controllers, pick, leaseMs, token) =>
      w !in s.workers && token !in s.leases && 0 < leaseMs &&
      IsFirst(s.db, Candidates(s.db, controllers, s.clock), pick)
    case Renew(w, leaseMs) => w in s.workers && 0 < leaseMs
    case Read(w) => w in s.workers && s.workers[w].Claimed?
    case Finish(w, _) => w in s.workers && s.workers[w].Reconciling?
    // An exception or an abort can end a pass anywhere before its last operation.
    case Fail(w, _) => w in s.workers && !s.workers[w].Claimed?
    case Update(w) => w in s.workers && s.workers[w].Updating?
    case CheckDelete(w) => w in s.workers && s.workers[w].CheckingDeletion?
    case Delete(w) => w in s.workers && s.workers[w].Deleting?
    case Settle(w) => w in s.workers && s.workers[w].Settling?
    case Requeue(w) => w in s.workers && s.workers[w].Requeueing?
    case Crash(w) => w in s.workers
  }

  function Release(leases: map<Token, Lease>, token: Token): map<Token, Lease> {
    if token in leases then leases[token := leases[token].(released := true)] else leases
  }

  function ReleaseHolder(leases: map<Token, Lease>, db: Db, ref: Ref): map<Token, Lease> {
    if ref in db.queue && db.queue[ref].claim.Some? then Release(leases, db.queue[ref].claim.value.token) else leases
  }

  /** `updateStatus`, then the branches of finishSuccessfulClaim that follow it. */
  function NextUpdate(s: Sys, w: nat): Sys
    requires w in s.workers && s.workers[w].Updating?
  {
    var Updating(grant, snap, outcome) := s.workers[w];
    var status := Status(snap.generation, outcome.value);
    var (db', result) := AfterUpdateStatus(s.db, grant.ref, snap.version, status, outcome.finalizers);
    match result
    case Updated(r) =>
      var next :=
        if outcome.settled && r.deleting && r.finalizers == [] then CheckingDeletion(grant, r.version)
        else if outcome.settled then Settling(grant)
        else Requeueing(grant, s.clock + outcome.afterMs, false);
      s.(db := db', workers := s.workers[w := next],
         source := s.source[grant.ref := Source(snap.uid, snap.generation, snap.spec)])
    case Conflict => s.(workers := s.workers[w := Requeueing(grant, s.clock, false)])
    case NotFound => s.(workers := s.workers[w := Requeueing(grant, s.clock, true)])
  }

  function NextDelete(s: Sys, w: nat): Sys
    requires w in s.workers && s.workers[w].Deleting?
  {
    var Deleting(grant, version) := s.workers[w];
    var (db', deleted) := AfterDelete(s.db, grant.ref, version);
    if deleted then
      s.(db := db', workers := s.workers - {w}, log := s.log + [Removed(grant.ref)],
         leases := ReleaseHolder(s.leases, s.db, grant.ref), source := s.source - {grant.ref})
    else s.(workers := s.workers[w := Requeueing(grant, s.clock, false)])
  }

  function NextComplete(s: Sys, w: nat): Sys
    requires w in s.workers && (s.workers[w].Settling? || s.workers[w].Requeueing?)
  {
    var p := s.workers[w];
    var (ref, token) := (p.grant.ref, p.grant.token);
    var (db', done) :=
      if p.Settling? then AfterSettle(s.db, ref, token, s.clock)
      else AfterRequeue(s.db, ref, token, p.availableAt, p.failed);
    if done then
      s.(db := db', workers := s.workers - {w}, log := s.log + [Completed(ref, token)],
         leases := Release(s.leases, token))
    else s.(workers := s.workers - {w})
  }

  ghost function Next(s: Sys, a: Action): Sys
    requires Enabled(s, a)
  {
    match a
    case Tick(now) => s.(clock := now)
    case Put(ref, spec, initial, uid) =>
      if !PutChanges(s.db, ref, spec) then s
      else
        s.(db := AfterPut(s.db, ref, spec, initial, uid, s.clock), log := s.log + [Requested(ref, s.clock)],
           source := if ref in s.db.resources then s.source else s.source - {ref},
           uids := s.uids + {uid})
    case RequestDeletion(ref) =>
      if ref !in s.db.resources then s
      else s.(db := AfterRequestDeletion(s.db, ref, s.clock).0, log := s.log + [Requested(ref, s.clock)])
    case SetFinalizers(ref, expected, finalizers) =>
      s.(db := AfterUpdateFinalizers(s.db, ref, expected, finalizers).0)
    case Enqueue(ref, at) =>
      if ref !in s.db.resources then s
      else s.(db := AfterEnqueue(s.db, ref, at).0, log := s.log + [Requested(ref, at)])
    case ClaimNext(w, _, pick, leaseMs, token) =>
      s.(db := AfterClaim(s.db, pick, token, s.clock, leaseMs),
         workers := s.workers[w := Claimed(Grant(pick, token, s.db.queue[pick].errors))],
         log := s.log + [Granted(pick, token)],
         leases := s.leases[token := Lease(pick, s.clock + leaseMs, false)])
    case Renew(w, leaseMs) =>
      var g := s.workers[w].grant;
      var (db', renewed) := AfterRenew(s.db, g.ref, g.token, leaseMs, s.clock);
      if renewed then s.(db := db', leases := s.leases[g.token := Lease(g.ref, s.clock + leaseMs, false)])
      else s
    case Read(w) =>
      var g := s.workers[w].grant;
      s.(workers := s.workers[w :=
        if g.ref in s.db.resources then Reconciling(g, s.db.resources[g.ref]) else Settling(g)])
    case Finish(w, outcome) =>
      s.(workers := s.workers[w := Updating(s.workers[w].grant, s.workers[w].snap, outcome)])
    case Fail(w, delayMs) =>
      s.(workers := s.workers[w := Requeueing(s.workers[w].grant, s.clock + delayMs, true)])
    case Update(w) => NextUpdate(s, w)
    case CheckDelete(w) =>
      var CheckingDeletion(g, version) := s.workers[w];
      (match CheckDeletion(s.db, g.ref)
       case Absent => s.(workers := s.workers - {w})
       case NotReady => s.(workers := s.workers[w := Requeueing(g, s.clock, true)])
       case Ready => s.(workers := s.workers[w := Deleting(g, version)]))
    case Delete(w) => NextDelete(s, w)
    case Settle(w) => NextComplete(s, w)
    case Requeue(w) => NextComplete(s, w)
    case Crash(w) => s.(workers := s.workers - {w})
  }

  ghost predicate ValidRun(s: Sys, run: seq<Action>)
    decreases |run|
  {
    run == [] || (Enabled(s, run[0]) && ValidRun(Next(s, run[0]), run[1..]))
  }

  ghost function After(s: Sys, run: seq<Action>): Sys
    requires ValidRun(s, run)
    decreases |run|
  {
    if run == [] then s else After(Next(s, run[0]), run[1..])
  }

  // ---------------------------------------------------------------- invariants

  /** Queue rows belong to resources; a claim is a live lease no newer than its row. */
  ghost predicate TablesOk(s: Sys) {
    && s.db.queue.Keys <= s.db.resources.Keys
    && (forall ref | ref in s.db.resources :: s.db.resources[ref].uid in s.uids)
    && (forall ref | ref in s.db.queue && s.db.queue[ref].claim.Some? ::
        var c := s.db.queue[ref].claim.value;
        && c.token in s.leases && s.leases[c.token] == Lease(ref, c.expiresAt, false)
        && c.version <= s.db.queue[ref].version)
  }

  /** An unreleased lease that no longer holds its row has expired. */
  ghost predicate LeasesOk(s: Sys) {
    forall t | t in s.leases && !s.leases[t].released ::
      Holds(s.db, s.leases[t].ref, t) || s.leases[t].expiresAt <= s.clock
  }

  /** A snapshot of the same incarnation is older than the resource or equal to it. */
  ghost predicate WorkersOk(s: Sys) {
    forall w | w in s.workers ::
      var p := s.workers[w];
      && p.grant.token in s.leases && s.leases[p.grant.token].ref == p.grant.ref
      && (p.Reconciling? || p.Updating? ==>
          && p.snap.uid in s.uids
          && (p.grant.ref in s.db.resources && s.db.resources[p.grant.ref].uid == p.snap.uid ==>
              var r := s.db.resources[p.grant.ref];
              p.snap.version <= r.version && (p.snap.version == r.version ==> p.snap == r)))
  }

  ghost predicate Inv(s: Sys) {
    TablesOk(s) && LeasesOk(s) && WorkersOk(s)
  }

  predicate ByCaller(a: Action) {
    a.Tick? || a.Put? || a.RequestDeletion? || a.SetFinalizers? || a.Enqueue?
  }

  predicate ByPass(a: Action) {
    a.Read? || a.Finish? || a.Fail? || a.Crash?
  }

  /** Resources only grow: a version goes up, or a new incarnation takes a fresh uid. */
  ghost predicate ResourcesGrow(s: Sys, s': Sys) {
    && s.uids <= s'.uids
    && forall ref | ref in s'.db.resources ::
      || s'.db.resources[ref].uid !in s.uids
      || (ref in s.db.resources &&
          (s'.db.resources[ref] == s.db.resources[ref] ||
           (s'.db.resources[ref].uid == s.db.resources[ref].uid &&
            s.db.resources[ref].version < s'.db.resources[ref].version)))
  }

  /** No worker takes a new snapshot, and every lease keeps its key. */
  ghost predicate NoNewSnapshot(s: Sys, s': Sys) {
    && (forall w | w in s'.workers ::
        w in s.workers && s'.workers[w].grant == s.workers[w].grant &&
        (s'.workers[w].Reconciling? || s'.workers[w].Updating? ==> s'.workers[w] == s.workers[w]))
    && (forall t | t in s.leases :: t in s'.leases && s'.leases[t].ref == s.leases[t].ref)
  }

  lemma SnapshotsAge(s: Sys, s': Sys)
    requires WorkersOk(s) && ResourcesGrow(s, s') && NoNewSnapshot(s, s')
    ensures WorkersOk(s')
  {
  }

  lemma CallerTables(s: Sys, a: Action)
    requires Inv(s) && Enabled(s, a) && ByCaller(a)
    ensures TablesOk(Next(s, a))
  {
  }

  lemma CallerGrows(s: Sys, a: Action)
    requires Enabled(s, a) && ByCaller(a)
    ensures ResourcesGrow(s, Next(s, a))
    ensures Next(s, a).workers == s.workers && Next(s, a).leases == s.leases
  {
  }

  lemma CallerWorkers(s: Sys, a: Action)
    requires Inv(s) && Enabled(s, a) && ByCaller(a)
    ensures LeasesOk(Next(s, a)) && WorkersOk(Next(s, a))
  {
    CallerGrows(s, a);
    SnapshotsAge(s, Next(s, a));
  }

  lemma PassInv(s: Sys, a: Action)
    requires Inv(s) && Enabled(s, a) && ByPass(a)
    ensures Inv(Next(s, a))
  {
  }

  lemma ClaimTables(s: Sys, a: Action)
    requires Inv(s) && Enabled(s, a) && (a.ClaimNext? || a.Renew?)
    ensures TablesOk(Next(s, a))
  {
  }

  lemma ClaimLeases(s: Sys, a: Action)
    requires Inv(s) && Enabled(s, a) && (a.ClaimNext? || a.Renew?)
    ensures LeasesOk(Next(s, a)) && WorkersOk(Next(s, a))
  {
  }

  lemma UpdateTables(s: Sys, w: nat)
    requires Inv(s) && Enabled(s, Update(w))
    ensures TablesOk(NextUpdate(s, w)) && LeasesOk(NextUpdate(s, w))
  {
  }

  lemma UpdateGrows(s: Sys, w: nat)
    requires Enabled(s, Update(w))
    ensures ResourcesGrow(s, NextUpdate(s, w))
  {
  }

  lemma UpdateSnaps(s: Sys, w: nat)
    requires Enabled(s, Update(w))
    ensures NoNewSnapshot(s, NextUpdate(s, w))
  {
  }

  lemma UpdateWorkers(s: Sys, w: nat)
    requires Inv(s) && Enabled(s, Update(w))
    ensures WorkersOk(NextUpdate(s, w))
  {
    UpdateGrows(s, w);
    UpdateSnaps(s, w);
    SnapshotsAge(s, NextUpdate(s, w));
  }

  lemma CheckDeleteKeeps(s: Sys, w: nat)
    requires Enabled(s, CheckDelete(w))
    ensures var s' := Next(s, CheckDelete(w));
      s'.db == s.db && s'.leases == s.leases && s'.clock == s.clock && s'.uids == s.uids && NoNewSnapshot(s, s')
  {
  }

  lemma CheckDeleteInv(s: Sys, w: nat)
    requires Inv(s) && Enabled(s, CheckDelete(w))
    ensures Inv(Next(s, CheckDelete(w)))
  {
    var s' := Next(s, CheckDelete(w));
    CheckDeleteKeeps(s, w);
    SnapshotsAge(s, s');
  }

  lemma DeleteTables(s: Sys, w: nat)
    requires Inv(s) && Enabled(s, Delete(w))
    ensures TablesOk(NextDelete(s, w)) && LeasesOk(NextDelete(s, w))
  {
  }

  lemma DeleteWorkers(s: Sys, w: nat)
    requires Inv(s) && Enabled(s, Delete(w))
    ensures WorkersOk(NextDelete(s, w))
  {
    SnapshotsAge(s, NextDelete(s, w));
  }

  lemma CompleteTables(s: Sys, w: nat)
    requires Inv(s) && w in s.workers && (s.workers[w].Settling? || s.workers[w].Requeueing?)
    ensures TablesOk(NextComplete(s, w))
  {
  }

  lemma CompleteLeases(s: Sys, w: nat)
    requires Inv(s) && w in s.workers && (s.workers[w].Settling? || s.workers[w].Requeueing?)
    ensures LeasesOk(NextComplete(s, w)) && WorkersOk(NextComplete(s, w))
  {
    SnapshotsAge(s, NextComplete(s, w));
  }

  lemma NextInv(s: Sys, a: Action)
    requires Inv(s) && Enabled(s, a)
    ensures Inv(Next(s, a))
  {
    match a
    case ClaimNext(_, _, _, _, _) => ClaimTables(s, a); ClaimLeases(s, a);
    case Renew(_, _) => ClaimTables(s, a); ClaimLeases(s, a);
    case Update(w) => UpdateTables(s, w); UpdateWorkers(s, w);
    case CheckDelete(w) => CheckDeleteInv(s, w);
    case Delete(w) => DeleteTables(s, w); DeleteWorkers(s, w);
    case Settle(w) => CompleteTables(s, w); CompleteLeases(s, w);
    case Requeue(w) => CompleteTables(s, w); CompleteLeases(s, w);
    case Read(_) => PassInv(s, a);
    case Finish(_, _) => PassInv(s, a);
    case Fail(_, _) => PassInv(s, a);
    case Crash(_) => PassInv(s, a);
    case _ => CallerTables(s, a); CallerWorkers(s, a);
  }

  lemma {:induction false} RunInv(s: Sys, run: seq<Action>)
    requires Inv(s) && ValidRun(s, run)
    ensures Inv(After(s, run))
    decreases |run|
  {
    if run != [] {
      NextInv(s, run[0]);
      RunInv(Next(s, run[0]), run[1..]);
    }
  }

  lemma {:induction false} RunExtend(s: Sys, run: seq<Action>, a: Action)
    requires ValidRun(s, run) && Enabled(After(s, run), a)
    ensures ValidRun(s, run + [a]) && After(s, run + [a]) == Next(After(s, run), a)
    decreases |run|
  {
    if run == [] {
      assert run + [a] == [a];
      assert ValidRun(Next(s, a), [][..]);
    } else {
      RunExtend(Next(s, run[0]), run[1..], a);
      assert (run + [a])[1..] == run[1..] + [a];
    }
  }

  lemma Step(s: Sys, run: seq<Action>, a: Action) returns (run': seq<Action>, s': Sys)
    requires ValidRun(s, run) && Enabled(After(s, run), a)
    ensures ValidRun(s, run') && s' == After(s, run') == Next(After(s, run), a)
  {
    RunExtend(s, run, a);
    run' := run + [a];
    s' := Next(After(s, run), a);
  }
}
