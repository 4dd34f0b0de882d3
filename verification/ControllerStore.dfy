/**
 The controller tables of `src/controllers/sqlite.ts`: resources and the
 level-triggered queue. Each transaction or single statement of the store is
 one function from tables to tables; the class below performs the same
 operation in place and is proved equal to its function.

 A row's foreign key (queue row -> resource) and its ON DELETE CASCADE are part
 of the functions. `randomUUID` is a parameter; callers supply fresh values.
 */
module ControllerStore {
  import opened Options
  import opened StringOrder

  type Token = nat
  type Uid = nat

  datatype Ref = Ref(controller: string, key: string)

  /** `value` stands for the conditions, controllerStatus and workflowRun JSON. */
  datatype Status = Status(observedGeneration: nat, value: string)

  datatype Resource = Resource(
    uid: Uid, version: nat, generation: nat, spec: string, status: Status,
    deleting: bool, finalizers: seq<string>)

  datatype Claim = Claim(token: Token, version: nat, expiresAt: int)

  datatype QueueRow = QueueRow(availableAt: int, version: nat, errors: nat, claim: Option<Claim>)

  datatype Db = Db(resources: map<Ref, Resource>, queue: map<Ref, QueueRow>)

  datatype Grant = Grant(ref: Ref, token: Token, errors: nat)

  datatype UpdateResult = Updated(resource: Resource) | NotFound | Conflict

  datatype DeletionCheck = Absent | NotReady | Ready

  // ---------------------------------------------------------------- resources

  function Enqueued(queue: map<Ref, QueueRow>, ref: Ref, at: int): map<Ref, QueueRow> {
    queue[ref :=
      if ref in queue then
        queue[ref].(availableAt := Min(queue[ref].availableAt, at), version := queue[ref].version + 1)
      else QueueRow(at, 1, 0, None)]
  }

  predicate PutChanges(db: Db, ref: Ref, spec: string) {
    ref !in db.resources || db.resources[ref].spec != spec
  }

  function AfterPut(db: Db, ref: Ref, spec: string, initial: string, uid: Uid, now: int): Db {
    if ref !in db.resources then
      Db(db.resources[ref := Resource(uid, 1, 1, spec, Status(0, initial), false, [])],
         Enqueued(db.queue, ref, now))
    else if db.resources[ref].spec != spec then
      var r := db.resources[ref];
      Db(db.resources[ref := r.(spec := spec, version := r.version + 1, generation := r.generation + 1)],
         Enqueued(db.queue, ref, now))
    else
      db
  }

  function AfterUpdateStatus(db: Db, ref: Ref, expected: nat, status: Status, finalizers: Option<seq<string>>):
    (Db, UpdateResult)
  {
    if ref !in db.resources then (db, NotFound)
    else
      var r := db.resources[ref];
      if r.version != expected then (db, Conflict)
      else
        var f := if finalizers.None? then r.finalizers else finalizers.value;
        if r.status == status && r.finalizers == f then (db, Updated(r))
        else
          var r' := r.(status := status, finalizers := f, version := r.version + 1);
          (db.(resources := db.resources[ref := r']), Updated(r'))
  }

  function AfterRequestDeletion(db: Db, ref: Ref, now: int): (Db, UpdateResult) {
    if ref !in db.resources then (db, NotFound)
    else
      var r := db.resources[ref];
      var r' := if r.deleting then r else r.(deleting := true, version := r.version + 1);
      (Db(db.resources[ref := r'], Enqueued(db.queue, ref, now)), Updated(r'))
  }

  function AfterUpdateFinalizers(db: Db, ref: Ref, expected: nat, finalizers: seq<string>): (Db, UpdateResult) {
    if ref !in db.resources then (db, NotFound)
    else if db.resources[ref].version != expected then (db, Conflict)
    else
      var r := db.resources[ref];
      var r' := r.(finalizers := finalizers, version := r.version + 1);
      (db.(resources := db.resources[ref := r']), Updated(r'))
  }

  /** The read half of `deleteResource`. */
  function CheckDeletion(db: Db, ref: Ref): DeletionCheck {
    if ref !in db.resources then Absent
    else if !db.resources[ref].deleting || db.resources[ref].finalizers != [] then NotReady
    else Ready
  }

  /** The DELETE half of `deleteResource`, with the cascade to the queue. */
  function AfterDelete(db: Db, ref: Ref, expected: nat): (Db, bool) {
    if ref in db.resources && db.resources[ref].version == expected then
      (Db(db.resources - {ref}, db.queue - {ref}), true)
    else (db, false)
  }

  function AfterEnqueue(db: Db, ref: Ref, at: int): (Db, bool) {
    if ref in db.resources then (db.(queue := Enqueued(db.queue, ref, at)), true) else (db, false)
  }

  // -------------------------------------------------------------------- queue

  predicate Claimable(row: QueueRow, now: int) {
    row.availableAt <= now && (row.claim.None? || row.claim.value.expiresAt <= now)
  }

  function Candidates(db: Db, controllers: set<string>, now: int): set<Ref> {
    set ref | ref in db.queue && ref.controller in controllers && Claimable(db.queue[ref], now)
  }

  /** The claim order: available_at, then controller, then resource_key. */
  predicate ClaimsBefore(db: Db, a: Ref, b: Ref)
    requires a in db.queue && b in db.queue
  {
    var x, y := db.queue[a].availableAt, db.queue[b].availableAt;
    x < y || (x == y &&
      (if a.controller == b.controller then StringLe(a.key, b.key) else StringLe(a.controller, b.controller)))
  }

  predicate IsFirst(db: Db, refs: set<Ref>, pick: Ref)
    requires forall r | r in refs :: r in db.queue
  {
    pick in refs && forall r | r in refs :: ClaimsBefore(db, pick, r)
  }

  function AfterClaim(db: Db, pick: Ref, token: Token, now: int, leaseMs: nat): Db
    requires pick in db.queue
  {
    var row := db.queue[pick];
    db.(queue := db.queue[pick := row.(claim := Some(Claim(token, row.version, now + leaseMs)))])
  }

  predicate Holds(db: Db, ref: Ref, token: Token) {
    ref in db.queue && db.queue[ref].claim.Some? && db.queue[ref].claim.value.token == token
  }

  function AfterRenew(db: Db, ref: Ref, token: Token, leaseMs: nat, now: int): (Db, bool) {
    if Holds(db, ref, token) && db.queue[ref].claim.value.expiresAt > now then
      var row := db.queue[ref];
      (db.(queue := db.queue[ref := row.(claim := Some(row.claim.value.(expiresAt := now + leaseMs)))]), true)
    else (db, false)
  }

  /** `settleClaim`: it checks the token, not the expiry. */
  function AfterSettle(db: Db, ref: Ref, token: Token, now: int): (Db, bool) {
    if !Holds(db, ref, token) then (db, false)
    else
      var row := db.queue[ref];
      if row.version == row.claim.value.version then
        (db.(queue := db.queue - {ref}), true)
      else
        (db.(queue := db.queue[ref := QueueRow(Min(row.availableAt, now), row.version, 0, None)]), true)
  }

  /** `requeueClaim`: `failed` says whether an error message was given. */
  function AfterRequeue(db: Db, ref: Ref, token: Token, availableAt: int, failed: bool): (Db, bool) {
    if !Holds(db, ref, token) then (db, false)
    else
      var row := db.queue[ref];
      var at := if row.version != row.claim.value.version then Min(row.availableAt, availableAt) else availableAt;
      (db.(queue := db.queue[ref := QueueRow(at, row.version, if failed then row.errors + 1 else 0, None)]), true)
  }

  // ------------------------------------------------ the claim order is a total order

  lemma ClaimOrderTransitive(db: Db, a: Ref, b: Ref, c: Ref)
    requires a in db.queue && b in db.queue && c in db.queue
    requires ClaimsBefore(db, a, b) && ClaimsBefore(db, b, c)
    ensures ClaimsBefore(db, a, c)
  {
    StringLeTotal(a.controller, b.controller);
    StringLeTotal(b.controller, c.controller);
    if StringLe(a.controller, b.controller) && StringLe(b.controller, c.controller) {
      StringLeTransitive(a.controller, b.controller, c.controller);
    }
    if StringLe(a.key, b.key) && StringLe(b.key, c.key) {
      StringLeTransitive(a.key, b.key, c.key);
    }
  }

  /** Exactly one candidate comes first, so `ORDER BY ... LIMIT 1` picks one row. */
  lemma {:induction false} FirstCandidateExists(db: Db, refs: set<Ref>) returns (first: Ref)
    requires refs != {}
    requires forall r | r in refs :: r in db.queue
    ensures IsFirst(db, refs, first)
    ensures forall other | IsFirst(db, refs, other) :: other == first
  {
    var x :| x in refs;
    StringLeTotal(x.controller, x.controller);
    StringLeTotal(x.key, x.key);
    if refs == {x} {
      first := x;
    } else {
      var rest := refs - {x};
      var f := FirstCandidateExists(db, rest);
      StringLeTotal(x.controller, f.controller);
      StringLeTotal(x.key, f.key);
      if ClaimsBefore(db, x, f) {
        first := x;
        forall r | r in refs ensures ClaimsBefore(db, x, r) {
          if r != x { ClaimOrderTransitive(db, x, f, r); }
        }
      } else {
        first := f;
        assert refs == rest + {x};
      }
    }
    forall other | IsFirst(db, refs, other) ensures other == first {
      StringLeTotal(other.controller, first.controller);
      StringLeTotal(other.key, first.key);
    }
  }

  /** What comes first is due the longest, and among equals has the least controller and then the least key. */
  lemma FirstIsEarliest(db: Db, refs: set<Ref>, pick: Ref, other: Ref)
    requires (forall r | r in refs :: r in db.queue) && IsFirst(db, refs, pick) && other in refs
    ensures db.queue[pick].availableAt <= db.queue[other].availableAt
    ensures db.queue[pick].availableAt == db.queue[other].availableAt ==> StringLe(pick.controller, other.controller)
    ensures db.queue[pick].availableAt == db.queue[other].availableAt && pick.controller == other.controller ==>
      StringLe(pick.key, other.key)
  {
    StringLeTotal(pick.controller, other.controller);
  }

  // --------------------------------------------------------------------- class

  class SqliteControllerStore {
    var resources: map<Ref, Resource>
    var queue: map<Ref, QueueRow>

    ghost function View(): Db
      reads this
    {
      Db(resources, queue)
    }

    constructor ()
      ensures View() == Db(map[], map[])
    {
      resources, queue := map[], map[];
    }

    method EnqueueRow(ref: Ref, at: int)
      modifies this`queue
      ensures queue == Enqueued(old(queue), ref, at)
      ensures queue == old(queue)[ref :=
        if ref !in old(queue) then QueueRow(at, 1, 0, None)
        else QueueRow(if at < old(queue)[ref].availableAt then at else old(queue)[ref].availableAt,
                      old(queue)[ref].version + 1, old(queue)[ref].errors, old(queue)[ref].claim)]
    {
      if ref in queue {
        var row := queue[ref];
        if at < row.availableAt {
          row := row.(availableAt := at);
        }
        queue := queue[ref := row.(version := row.version + 1)];
      } else {
        queue := queue[ref := QueueRow(at, 1, 0, None)];
      }
    }

    method PutResource(ref: Ref, spec: string, initial: string, uid: Uid, now: int) returns (r: Resource)
      modifies this
      ensures View() == AfterPut(old(View()), ref, spec, initial, uid, now)
      ensures ref in resources && r == resources[ref] && r.spec == spec
      ensures ref !in old(resources) ==> r == Resource(uid, 1, 1, spec, Status(0, initial), false, [])
      ensures ref in old(resources) && old(resources)[ref].spec == spec ==> View() == old(View())
      ensures ref in old(resources) && old(resources)[ref].spec != spec ==>
        r == old(resources)[ref].(spec := spec, version := old(resources)[ref].version + 1,
                                  generation := old(resources)[ref].generation + 1)
      ensures resources == old(resources)[ref := r]
      ensures resources != old(resources) ==> queue == Enqueued(old(queue), ref, now)
    {
      if ref !in resources {
        resources := resources[ref := Resource(uid, 1, 1, spec, Status(0, initial), false, [])];
        EnqueueRow(ref, now);
      } else if resources[ref].spec != spec {
        var existing := resources[ref];
        resources := resources[ref :=
          existing.(spec := spec, version := existing.version + 1, generation := existing.generation + 1)];
        EnqueueRow(ref, now);
      }
      r := resources[ref];
    }

    method UpdateStatus(ref: Ref, expected: nat, status: Status, finalizers: Option<seq<string>>)
      returns (result: UpdateResult)
      modifies this`resources
      ensures (View(), result) == AfterUpdateStatus(old(View()), ref, expected, status, finalizers)
      ensures result.NotFound? <==> ref !in old(resources)
      ensures result.Conflict? <==> ref in old(resources) && old(resources)[ref].version != expected
      ensures !result.Updated? ==> resources == old(resources)
      ensures result.Updated? ==>
        var (before, r) := (old(resources)[ref], result.resource);
        && resources == old(resources)[ref := r]
        && r.status == status && r.finalizers == (if finalizers.Some? then finalizers.value else before.finalizers)
        && r == before.(status := r.status, finalizers := r.finalizers, version := r.version)
        && r.version ==
           if r.status == before.status && r.finalizers == before.finalizers then expected else expected + 1
    {
      if ref !in resources { return NotFound; }
      var current := resources[ref];
      if current.version != expected { return Conflict; }
      var next := current.(status := status);
      if finalizers.Some? {
        next := next.(finalizers := finalizers.value);
      }
      if next == current { return Updated(current); }
      next := next.(version := current.version + 1);
      resources := resources[ref := next];
      return Updated(next);
    }

    method RequestDeletion(ref: Ref, now: int) returns (result: UpdateResult)
      modifies this
      ensures (View(), result) == AfterRequestDeletion(old(View()), ref, now)
      ensures ref !in old(resources) ==> result == NotFound && View() == old(View())
      ensures ref in old(resources) ==>
        var before := old(resources)[ref];
        && result == Updated(before.(deleting := true,
                                     version := if before.deleting then before.version else before.version + 1))
        && resources == old(resources)[ref := result.resource] && queue == Enqueued(old(queue), ref, now)
    {
      if ref !in resources { return NotFound; }
      var row := resources[ref];
      if !row.deleting {
        resources := resources[ref := row.(deleting := true, version := row.version + 1)];
      } else {
        assert resources == resources[ref := row];
      }
      EnqueueRow(ref, now);
      return Updated(resources[ref]);
    }

    method UpdateFinalizers(ref: Ref, expected: nat, finalizers: seq<string>) returns (result: UpdateResult)
      modifies this`resources
      ensures (View(), result) == AfterUpdateFinalizers(old(View()), ref, expected, finalizers)
      ensures result.NotFound? <==> ref !in old(resources)
      ensures result.Conflict? <==> ref in old(resources) && old(resources)[ref].version != expected
      ensures !result.Updated? ==> resources == old(resources)
      ensures result.Updated? ==>
        && result.resource == old(resources)[ref].(finalizers := finalizers, version := expected + 1)
        && resources == old(resources)[ref := result.resource]
    {
      if ref !in resources { return NotFound; }
      if resources[ref].version != expected { return Conflict; }
      var row := resources[ref];
      resources := resources[ref := row.(finalizers := finalizers, version := row.version + 1)];
      return Updated(resources[ref]);
    }

    /** Both halves run back to back here; the machine below interleaves them. */
    method DeleteResource(ref: Ref, expected: nat) returns (check: DeletionCheck, deleted: bool)
      modifies this
      ensures check == CheckDeletion(old(View()), ref)
      ensures check == Ready ==> (View(), deleted) == AfterDelete(old(View()), ref, expected)
      ensures check != Ready ==> !deleted && View() == old(View())
      ensures check.Absent? <==> ref !in old(resources)
      ensures check.Ready? <==>
        ref in old(resources) && old(resources)[ref].deleting && old(resources)[ref].finalizers == []
      ensures deleted <==> check.Ready? && old(resources)[ref].version == expected
      ensures deleted ==> resources == old(resources) - {ref} && queue == old(queue) - {ref}
      ensures !deleted ==> View() == old(View())
    {
      deleted := false;
      if ref !in resources { return Absent, false; }
      if !resources[ref].deleting || resources[ref].finalizers != [] { return NotReady, false; }
      check := Ready;
      if resources[ref].version == expected {
        resources, queue := resources - {ref}, queue - {ref};
        deleted := true;
      }
    }

    method Enqueue(ref: Ref, at: int) returns (found: bool)
      modifies this`queue
      ensures (View(), found) == AfterEnqueue(old(View()), ref, at)
      ensures found == (ref in resources)
      ensures queue == if found then Enqueued(old(queue), ref, at) else old(queue)
    {
      found := ref in resources;
      if found {
        EnqueueRow(ref, at);
      }
    }

    /** Claims the first ready row, or nothing exactly when no row is ready. */
    method ClaimNext(controllers: set<string>, leaseMs: nat, now: int, token: Token) returns (grant: Option<Grant>)
      modifies this`queue
      ensures grant.None? <==> Candidates(old(View()), controllers, now) == {}
      ensures grant.None? ==> View() == old(View())
      ensures grant.None? <==> forall ref | ref in old(queue) && ref.controller in controllers ::
        || now < old(queue)[ref].availableAt
        || (old(queue)[ref].claim.Some? && now < old(queue)[ref].claim.value.expiresAt)
      ensures grant.Some? ==>
        IsFirst(old(View()), Candidates(old(View()), controllers, now), grant.value.ref)
      ensures grant.Some? ==>
        View() == AfterClaim(old(View()), grant.value.ref, token, now, leaseMs) &&
        grant.value == Grant(grant.value.ref, token, old(queue)[grant.value.ref].errors) &&
        queue == old(queue)[grant.value.ref := old(queue)[grant.value.ref].(
          claim := Some(Claim(token, old(queue)[grant.value.ref].version, now + leaseMs)))]
    {
      var db := Db(resources, queue);
      var candidates := Candidates(db, controllers, now);
      if candidates == {} {
        forall ref | ref in queue && ref.controller in controllers ensures !Claimable(queue[ref], now) {
          assert ref !in candidates;
        }
        return None;
      }
      ghost var first := FirstCandidateExists(db, candidates);
      var pick: Ref :| pick in candidates && forall r | r in candidates :: ClaimsBefore(db, pick, r);
      var row := queue[pick];
      queue := queue[pick := row.(claim := Some(Claim(token, row.version, now + leaseMs)))];
      return Some(Grant(pick, token, row.errors));
    }

    method RenewClaim(ref: Ref, token: Token, leaseMs: nat, now: int) returns (renewed: bool)
      modifies this`queue
      ensures (View(), renewed) == AfterRenew(old(View()), ref, token, leaseMs, now)
      ensures renewed <==> Holds(old(View()), ref, token) && now < old(queue)[ref].claim.value.expiresAt
      ensures queue == if !renewed then old(queue)
        else old(queue)[ref := old(queue)[ref].(
          claim := Some(Claim(token, old(queue)[ref].claim.value.version, now + leaseMs)))]
    {
      renewed := false;
      if ref in queue && queue[ref].claim.Some? {
        var claim := queue[ref].claim.value;
        if claim.token == token && claim.expiresAt > now {
          queue := queue[ref := queue[ref].(claim := Some(claim.(expiresAt := now + leaseMs)))];
          renewed := true;
        }
      }
    }

    method SettleClaim(ref: Ref, token: Token, now: int) returns (settled: bool)
      modifies this`queue
      ensures (View(), settled) == AfterSettle(old(View()), ref, token, now)
      ensures settled <==> Holds(old(View()), ref, token)
      ensures queue == if !settled then old(queue)
        else if old(queue)[ref].version == old(queue)[ref].claim.value.version then old(queue) - {ref}
        else old(queue)[ref := QueueRow(if now < old(queue)[ref].availableAt then now else old(queue)[ref].availableAt,
                                        old(queue)[ref].version, 0, None)]
    {
      if ref !in queue || queue[ref].claim.None? || queue[ref].claim.value.token != token { return false; }
      var row := queue[ref];
      if row.version == row.claim.value.version {
        queue := queue - {ref};
      } else {
        queue := queue[ref := QueueRow(Min(row.availableAt, now), row.version, 0, None)];
      }
      return true;
    }

    method RequeueClaim(ref: Ref, token: Token, availableAt: int, failed: bool) returns (requeued: bool)
      modifies this`queue
      ensures (View(), requeued) == AfterRequeue(old(View()), ref, token, availableAt, failed)
      ensures requeued <==> Holds(old(View()), ref, token)
      ensures queue.Keys == old(queue).Keys && forall other | other in queue && other != ref ::
        queue[other] == old(queue)[other]
      ensures !requeued ==> queue == old(queue)
      ensures requeued ==>
        && queue[ref].claim.None? && queue[ref].version == old(queue)[ref].version
        && queue[ref].errors == (if failed then old(queue)[ref].errors + 1 else 0)
        && (old(queue)[ref].version == old(queue)[ref].claim.value.version ==> queue[ref].availableAt == availableAt)
        && (old(queue)[ref].version != old(queue)[ref].claim.value.version ==>
              && queue[ref].availableAt <= availableAt && queue[ref].availableAt <= old(queue)[ref].availableAt
              && (queue[ref].availableAt == availableAt || queue[ref].availableAt == old(queue)[ref].availableAt))
    {
      if ref !in queue || queue[ref].claim.None? || queue[ref].claim.value.token != token { return false; }
      var row := queue[ref];
      var at := availableAt;
      if row.version != row.claim.value.version && row.availableAt < at {
        at := row.availableAt;
      }
      queue := queue[ref := QueueRow(at, row.version, if failed then row.errors + 1 else 0, None)];
      return true;
    }
  }
}
