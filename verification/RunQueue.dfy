/**
 The workflow-run queue of `src/controllers/sqlite.ts`: seven states, leased
 claims and two partial unique indexes. Every operation is one SQL statement or
 one transaction, so one step; `Rewrite` gives the row that the statement's SET
 clause makes, or None when its WHERE clause does not match.
 */
module RunQueue {
  import opened Options

  type Token = nat
  type RunId = string

  datatype Status = Queued | Starting | Running | Parked | Done | Failed | Cancelled

  datatype Row = Row(
    status: Status, runner: Option<string>, token: Option<Token>, expiresAt: Option<int>,
    affinity: string, session: Option<string>, parent: Option<RunId>,
    name: string, source: string, input: string, launch: string, error: Option<string>,
    createdAt: int, startedAt: Option<int>, finishedAt: Option<int>)

  type Rows = map<RunId, Row>

  datatype Op =
    | Reserve(id: RunId, name: string, source: string, input: string, launch: string,
              runner: string, owner: string, parent: Option<RunId>)
    | Insert(id: RunId, name: string, source: string, input: string, launch: string,
             runner: string, token: Token, leaseMs: nat, affinity: string,
             session: Option<string>, parent: Option<RunId>)
    | Claim(id: RunId, runner: string, token: Token, leaseMs: nat)
    | ClaimNext(id: RunId, runner: string, token: Token, leaseMs: nat, excluded: set<RunId>, session: Option<string>)
    | MarkRunning(id: RunId, token: Token)
    | Renew(id: RunId, token: Token, leaseMs: nat)
    | Park(id: RunId, token: Token)
    | Fail(id: RunId, holder: Option<Token>, code: string)
    | Cancel(id: RunId, holder: Option<Token>)
    | Complete(id: RunId, token: Token)
    | Delete(id: RunId, token: Token)
    | Repair(id: RunId, name: string, source: string, runner: string, token: Token, leaseMs: nat)
    | ClaimLegacy(id: RunId, name: string, oldSource: string, source: string, runner: string, token: Token,
        leaseMs: nat)
    | SetOrigin(id: RunId, owner: string)
    | ClearOrigin(owner: string)

  /** NoMatch is `changes === 0`; Violation is a thrown key or index constraint. */
  datatype Result = Changed | NoMatch | Violation

  predicate Active(s: Status) { s.Queued? || s.Starting? || s.Running? }
  predicate Leased(s: Status) { s.Starting? || s.Running? }
  predicate Terminal(s: Status) { s.Done? || s.Failed? || s.Cancelled? }

  predicate Expired(row: Row, now: int) {
    row.expiresAt.Some? && row.expiresAt.value <= now
  }

  function Claimed(row: Row, runner: string, token: Token, expiresAt: int, now: int): Row {
    row.(status := Starting, runner := Some(runner), token := Some(token), expiresAt := Some(expiresAt),
         startedAt := if row.startedAt.Some? then row.startedAt else Some(now))
  }

  function Unleased(row: Row, status: Status): Row {
    row.(status := status, runner := None, token := None, expiresAt := None)
  }

  function Finished(row: Row, status: Status, now: int): Row {
    Unleased(row, status).(input := "null", launch := "{}", finishedAt := Some(now))
  }

  predicate NextClaimable(row: Row, now: int) {
    row.status.Queued? || row.status.Parked? || (Leased(row.status) && Expired(row, now))
  }

  /** The session filter: a detached host (no session) and an interactive session differ. */
  predicate Visible(row: Row, session: Option<string>) {
    match session
    case None => !row.status.Queued? && (row.status.Starting? ==> row.session.None?)
    case Some(owner) => row.session.None? || row.session == Some(owner)
  }

  predicate Candidate(rows: Rows, id: RunId, excluded: set<RunId>, session: Option<string>, now: int) {
    id in rows && id !in excluded && NextClaimable(rows[id], now) && Visible(rows[id], session)
  }

  function Rank(row: Row, runner: string): nat {
    if row.affinity == runner then 0 else 1
  }

  /** ORDER BY affinity, created_at; equal keys leave the choice to SQLite. */
  predicate Precedes(a: Row, b: Row, runner: string) {
    Rank(a, runner) < Rank(b, runner) || (Rank(a, runner) == Rank(b, runner) && a.createdAt <= b.createdAt)
  }

  ghost predicate NextPick(rows: Rows, op: Op, now: int)
    requires op.ClaimNext?
  {
    && Candidate(rows, op.id, op.excluded, op.session, now)
    && forall other | Candidate(rows, other, op.excluded, op.session, now) ::
        Precedes(rows[op.id], rows[other], op.runner)
  }

  /** The reclaim rule shared by both source repairs. */
  predicate Reclaimable(row: Row, token: Token, now: int) {
    || row.status.Parked?
    || (row.status.Starting? && row.token == Some(token) && row.expiresAt.Some? && now < row.expiresAt.value)
    || (row.status.Starting? && Expired(row, now))
  }

  predicate HeldBy(row: Row, holder: Option<Token>) {
    holder.None? || row.token == holder
  }

  function Rewrite(row: Row, op: Op, now: int): Option<Row> {
    match op
    case Claim(_, runner, token, leaseMs) =>
      if row.status.Queued? || row.status.Parked? || (row.status.Starting? && Expired(row, now))
      then Some(Claimed(row, runner, token, now + leaseMs, now)) else None
    case ClaimNext(_, runner, token, leaseMs, _, _) =>
      if NextClaimable(row, now) then Some(Claimed(row, runner, token, now + leaseMs, now)) else None
    case MarkRunning(_, token) =>
      if row.token == Some(token) && row.status.Starting? then Some(row.(status := Running)) else None
    case Renew(_, token, leaseMs) =>
      if row.token == Some(token) && Leased(row.status) && row.expiresAt.Some? && now < row.expiresAt.value
      then Some(row.(expiresAt := Some(now + leaseMs))) else None
    case Park(_, token) =>
      if row.token == Some(token) && Leased(row.status) then Some(Unleased(row, Parked)) else None
    case Fail(_, holder, code) =>
      if Active(row.status) && HeldBy(row, holder)
      then Some(Finished(row, Failed, now).(parent := None, error := Some(code))) else None
    case Cancel(_, holder) =>
      if (row.status.Queued? || row.status.Starting?) && HeldBy(row, holder)
      then Some(Finished(row, Cancelled, now)) else None
    case Complete(_, token) =>
      if row.token == Some(token) && Leased(row.status) then Some(Finished(row, Done, now)) else None
    case Repair(_, name, source, runner, token, leaseMs) =>
      if !Terminal(row.status) && !(row.source == source && row.status.Parked?) && Reclaimable(row, token, now)
      then
        var claimed := Claimed(row, runner, token, now + leaseMs, now);
        Some(claimed.(startedAt := row.startedAt, name := name, source := source))
      else None
    case ClaimLegacy(_, name, oldSource, source, runner, token, leaseMs) =>
      if !Terminal(row.status) && (row.source == oldSource || row.source == source) && Reclaimable(row, token, now)
      then
        var claimed := Claimed(row, runner, token, now + leaseMs, now);
        Some(claimed.(startedAt := row.startedAt, name := name, source := source))
      else None
    case SetOrigin(_, owner) =>
      if row.session.None? then Some(row.(session := Some(owner))) else None
    case _ => None
  }

  /** What the two unique indexes refuse. */
  predicate Conflicts(rows: Rows, id: RunId, row: Row) {
    || (row.session.Some? && Active(row.status) &&
        exists other | other in rows :: other != id && rows[other].session == row.session && Active(rows[other].status))
    || (row.parent.Some? && exists other | other in rows :: other != id && rows[other].parent == row.parent)
  }

  function Inserted(op: Op, now: int): Row
    requires op.Reserve? || op.Insert?
  {
    match op
    case Reserve(_, name, source, input, launch, runner, owner, parent) =>
      Row(Queued, None, None, None, runner, Some(owner), parent, name, source, input, launch, None, now, None, None)
    case Insert(_, name, source, input, launch, runner, token, leaseMs, affinity, session, parent) =>
      Row(Starting, Some(runner), Some(token), Some(now + leaseMs), affinity, session, parent,
          name, source, input, launch, None, now, Some(now), None)
  }

  function Apply(rows: Rows, op: Op, now: int): (Rows, Result) {
    if op.ClearOrigin? then
      (map id | id in rows ::
        (if rows[id].session == Some(op.owner) && rows[id].status.Done? then rows[id].(session := None)
         else rows[id]), Changed)
    else if op.Delete? then
      if op.id in rows && rows[op.id].token == Some(op.token) then (rows - {op.id}, Changed) else (rows, NoMatch)
    else if op.Reserve? || op.Insert? then
      if op.id in rows then (rows, Violation) else Written(rows, op.id, Inserted(op, now))
    else if op.id !in rows || Rewrite(rows[op.id], op, now).None? then (rows, NoMatch)
    else Written(rows, op.id, Rewrite(rows[op.id], op, now).value)
  }

  function Written(rows: Rows, id: RunId, row: Row): (Rows, Result) {
    if Conflicts(rows, id, row) then (rows, Violation) else (rows[id := row], Changed)
  }

  // ------------------------------------------------------------------- machine

  datatype Lease = Lease(id: RunId, expiresAt: int, released: bool)

  /** `leases` is the history of granted tokens. */
  datatype Sys = Sys(rows: Rows, clock: int, leases: map<Token, Lease>)

  const Init := Sys(map[], 0, map[])

  predicate Grants(op: Op) {
    op.Insert? || op.Claim? || op.ClaimNext? || op.Repair? || op.ClaimLegacy?
  }

  /** A granting caller brings a fresh token; the repairs may also name the token they already hold. */
  ghost predicate Enabled(s: Sys, op: Op) {
    && (Grants(op) && op.token in s.leases ==>
        (op.Repair? || op.ClaimLegacy?) && op.id in s.rows && s.rows[op.id].token == Some(op.token))
    && (op.ClaimNext? ==> NextPick(s.rows, op, s.clock))
  }

  function Relet(leases: map<Token, Lease>, id: RunId, before: Option<Token>, after: Option<Row>): map<Token, Lease> {
    if after.Some? && after.value.token.Some? && after.value.expiresAt.Some? then
      leases[after.value.token.value := Lease(id, after.value.expiresAt.value, false)]
    else if before.Some? && before.value in leases then
      leases[before.value := leases[before.value].(released := true)]
    else leases
  }

  ghost function Next(s: Sys, op: Op): Sys
    requires Enabled(s, op)
  {
    var (rows', result) := Apply(s.rows, op, s.clock);
    if op.ClearOrigin? || !result.Changed? then s.(rows := rows')
    else
      s.(rows := rows', leases := Relet(s.leases, op.id,
        if op.id in s.rows then s.rows[op.id].token else None,
        if op.id in rows' then Some(rows'[op.id]) else None))
  }

  /** Operations and, between them, a clock that never goes back. */
  datatype Action = Do(op: Op) | Tick(now: int)

  ghost predicate Allowed(s: Sys, a: Action) {
    match a
    case Do(op) => Enabled(s, op)
    case Tick(now) => s.clock <= now
  }

  ghost function Act(s: Sys, a: Action): Sys
    requires Allowed(s, a)
  {
    match a
    case Do(op) => Next(s, op)
    case Tick(now) => s.(clock := now)
  }

  ghost predicate ValidRun(s: Sys, run: seq<Action>)
    decreases |run|
  {
    run == [] || (Allowed(s, run[0]) && ValidRun(Act(s, run[0]), run[1..]))
  }

  ghost function After(s: Sys, run: seq<Action>): Sys
    requires ValidRun(s, run)
    decreases |run|
  {
    if run == [] then s else After(Act(s, run[0]), run[1..])
  }

  // ---------------------------------------------------------------- invariants

  predicate RowOk(row: Row) {
    && (row.runner.Some? <==> Leased(row.status))
    && (row.token.Some? <==> Leased(row.status))
    && (row.expiresAt.Some? <==> Leased(row.status))
    && (Terminal(row.status) <==> row.finishedAt.Some?)
    && (Terminal(row.status) ==> row.input == "null" && row.launch == "{}")
  }

  ghost predicate UniqueOk(rows: Rows) {
    && (forall a, b | a in rows && b in rows && a != b && Active(rows[a].status) && Active(rows[b].status) &&
          rows[a].session.Some? :: rows[a].session != rows[b].session)
    && (forall a, b | a in rows && b in rows && a != b && rows[a].parent.Some? :: rows[a].parent != rows[b].parent)
  }

  ghost predicate RowsOk(rows: Rows) {
    (forall id | id in rows :: RowOk(rows[id])) && UniqueOk(rows)
  }

  predicate Holds(s: Sys, t: Token) {
    t in s.leases && s.leases[t].id in s.rows && s.rows[s.leases[t].id].token == Some(t)
  }

  ghost predicate LeasesOk(s: Sys) {
    && (forall id | id in s.rows && s.rows[id].token.Some? && s.rows[id].expiresAt.Some? ::
          var t := s.rows[id].token.value;
          t in s.leases && s.leases[t] == Lease(id, s.rows[id].expiresAt.value, false))
    && (forall t | t in s.leases && !s.leases[t].released :: Holds(s, t) || s.leases[t].expiresAt <= s.clock)
  }

  ghost predicate Inv(s: Sys) {
    RowsOk(s.rows) && LeasesOk(s)
  }

  lemma WrittenRowsOk(rows: Rows, id: RunId, row: Row)
    requires RowsOk(rows) && RowOk(row)
    ensures RowsOk(Written(rows, id, row).0)
  {
  }

  /** What any statement may do to a row: keep it well formed, and replace a token only once it expired. */
  lemma RewriteOk(row: Row, op: Op, now: int)
    requires RowOk(row) && Rewrite(row, op, now).Some?
    ensures var row' := Rewrite(row, op, now).value;
      && RowOk(row')
      && (row'.token.None? || (Grants(op) && row'.token == Some(op.token)) || row'.token == row.token)
      && (row.token.Some? && row'.token.Some? && row.token != row'.token ==> Expired(row, now))
  {
  }

  lemma ApplyRowsOk(rows: Rows, op: Op, now: int)
    requires RowsOk(rows)
    ensures RowsOk(Apply(rows, op, now).0)
  {
    if op.ClearOrigin? || op.Delete? {
    } else if op.Reserve? || op.Insert? {
      WrittenRowsOk(rows, op.id, Inserted(op, now));
    } else if op.id in rows && Rewrite(rows[op.id], op, now).Some? {
      RewriteOk(rows[op.id], op, now);
      WrittenRowsOk(rows, op.id, Rewrite(rows[op.id], op, now).value);
    }
  }

  /** Writing one row whose token is fresh, kept, dropped, or taken over after expiry. */
  ghost predicate TokenStep(s: Sys, id: RunId, before: Option<Token>, after: Row) {
    && RowOk(after)
    && (id in s.rows ==> before == s.rows[id].token)
    && (id !in s.rows ==> before == None)
    && (after.token.Some? ==> after.token == before || after.token.value !in s.leases)
    && (before.Some? && after.token.Some? && before != after.token ==> id in s.rows && Expired(s.rows[id], s.clock))
  }

  lemma WriteLeases(s: Sys, id: RunId, before: Option<Token>, row: Row)
    requires Inv(s) && TokenStep(s, id, before, row)
    ensures LeasesOk(s.(rows := s.rows[id := row], leases := Relet(s.leases, id, before, Some(row))))
  {
  }

  lemma NextLeases(s: Sys, op: Op)
    requires Inv(s) && Enabled(s, op)
    ensures LeasesOk(Next(s, op))
  {
    var (rows', result) := Apply(s.rows, op, s.clock);
    if op.ClearOrigin? || op.Delete? || !result.Changed? {
    } else if op.Reserve? || op.Insert? {
      WriteLeases(s, op.id, None, Inserted(op, s.clock));
    } else {
      var row := Rewrite(s.rows[op.id], op, s.clock).value;
      RewriteOk(s.rows[op.id], op, s.clock);
      WriteLeases(s, op.id, s.rows[op.id].token, row);
    }
  }

  lemma ActInv(s: Sys, a: Action)
    requires Inv(s) && Allowed(s, a)
    ensures Inv(Act(s, a))
  {
    if a.Do? {
      ApplyRowsOk(s.rows, a.op, s.clock);
      NextLeases(s, a.op);
    }
  }

  lemma {:induction false} RunInv(s: Sys, run: seq<Action>)
    requires Inv(s) && ValidRun(s, run)
    ensures Inv(After(s, run))
    decreases |run|
  {
    if run != [] {
      ActInv(s, run[0]);
      RunInv(Act(s, run[0]), run[1..]);
    }
  }

  /** Main result: the state machine's invariant in every reachable state. */
  lemma ReachableRows(run: seq<Action>, id: RunId)
    requires ValidRun(Init, run) && id in After(Init, run).rows
    ensures var row := After(Init, run).rows[id];
      && (row.runner.Some? <==> Leased(row.status))
      && (row.token.Some? <==> Leased(row.status))
      && (row.expiresAt.Some? <==> Leased(row.status))
      && (Terminal(row.status) ==> row.input == "null" && row.launch == "{}" && row.finishedAt.Some?)
  {
    RunInv(Init, run);
  }

  /** Main result: at most one active run per session, and one row per parent slot. */
  lemma OneActiveRunPerSession(run: seq<Action>, a: RunId, b: RunId)
    requires ValidRun(Init, run) && a in After(Init, run).rows && b in After(Init, run).rows && a != b
    ensures var (x, y) := (After(Init, run).rows[a], After(Init, run).rows[b]);
      && (Active(x.status) && Active(y.status) && x.session.Some? ==> x.session != y.session)
      && (x.parent.Some? ==> x.parent != y.parent)
  {
    RunInv(Init, run);
  }

  // ------------------------------------------------------------------ absorbing

  /** A finished row: everything but the delivery session is frozen. */
  ghost predicate Frozen(rows: Rows, rows': Rows, id: RunId) {
    id in rows && id in rows' && rows'[id] == rows[id].(session := rows'[id].session)
  }

  lemma ApplyFreezes(rows: Rows, op: Op, now: int, id: RunId)
    requires RowsOk(rows) && id in rows && Terminal(rows[id].status)
    ensures Frozen(rows, Apply(rows, op, now).0, id)
  {
  }

  /** Main result: done, failed and cancelled are absorbing; no later operation changes or deletes the row. */
  lemma {:induction false} TerminalIsAbsorbing(s: Sys, run: seq<Action>, id: RunId)
    requires Inv(s) && ValidRun(s, run) && id in s.rows && Terminal(s.rows[id].status)
    ensures Frozen(s.rows, After(s, run).rows, id)
    decreases |run|
  {
    if run != [] {
      ActInv(s, run[0]);
      if run[0].Do? { ApplyFreezes(s.rows, run[0].op, s.clock, id); }
      TerminalIsAbsorbing(Act(s, run[0]), run[1..], id);
    }
  }

  // -------------------------------------------------------------------- fencing

  lemma OneLiveLease(run: seq<Action>, t: Token, u: Token)
    requires ValidRun(Init, run)
    requires var s := After(Init, run);
      t in s.leases && u in s.leases && s.leases[t].id == s.leases[u].id &&
      !s.leases[t].released && !s.leases[u].released &&
      s.clock < s.leases[t].expiresAt && s.clock < s.leases[u].expiresAt
    ensures t == u
  {
    RunInv(Init, run);
  }

  predicate UsesToken(op: Op, t: Token) {
    match op
    case MarkRunning(_, token) => token == t
    case Renew(_, token, _) => token == t
    case Park(_, token) => token == t
    case Complete(_, token) => token == t
    case Delete(_, token) => token == t
    case Fail(_, holder, _) => holder == Some(t)
    case Cancel(_, holder) => holder == Some(t)
    case _ => false
  }

  /** `verifyWorkflowRunClaim`. */
  predicate Verified(rows: Rows, id: RunId, token: Token, now: int) {
    id in rows && rows[id].token == Some(token) && Leased(rows[id].status) &&
    rows[id].expiresAt.Some? && now < rows[id].expiresAt.value
  }

  /** A displaced token's operations match no row and its fence check is false. */
  lemma DisplacedIsInert(s: Sys, op: Op, t: Token)
    requires t in s.leases && !Holds(s, t) && UsesToken(op, t) && op.id == s.leases[t].id
    ensures Apply(s.rows, op, s.clock) == (s.rows, NoMatch)
    ensures !Verified(s.rows, op.id, t, s.clock)
  {
  }

  lemma WriteStaysDisplaced(s: Sys, id: RunId, before: Option<Token>, row: Row, t: Token)
    requires Inv(s) && TokenStep(s, id, before, row) && t in s.leases && !Holds(s, t)
    ensures var s' := s.(rows := s.rows[id := row], leases := Relet(s.leases, id, before, Some(row)));
      t in s'.leases && !Holds(s', t) && s'.leases[t].id == s.leases[t].id
  {
  }

  lemma ActStaysDisplaced(s: Sys, a: Action, t: Token)
    requires Inv(s) && Allowed(s, a) && t in s.leases && !Holds(s, t)
    ensures t in Act(s, a).leases && !Holds(Act(s, a), t) && Act(s, a).leases[t].id == s.leases[t].id
  {
    if a.Do? {
      var op := a.op;
      var (rows', result) := Apply(s.rows, op, s.clock);
      if op.ClearOrigin? || op.Delete? || !result.Changed? {
      } else if op.Reserve? || op.Insert? {
        WriteStaysDisplaced(s, op.id, None, Inserted(op, s.clock), t);
      } else {
        RewriteOk(s.rows[op.id], op, s.clock);
        WriteStaysDisplaced(s, op.id, s.rows[op.id].token, Rewrite(s.rows[op.id], op, s.clock).value, t);
      }
    }
  }

  lemma {:induction false} RunStaysDisplaced(s: Sys, run: seq<Action>, t: Token)
    requires Inv(s) && ValidRun(s, run) && t in s.leases && !Holds(s, t)
    ensures var s' := After(s, run);
      t in s'.leases && !Holds(s', t) && s'.leases[t].id == s.leases[t].id
    decreases |run|
  {
    if run != [] {
      ActInv(s, run[0]);
      ActStaysDisplaced(s, run[0], t);
      RunStaysDisplaced(Act(s, run[0]), run[1..], t);
    }
  }

  /**
   Main result: once the run's row carries another token, every later operation
   of the old one - mark running, renew, park, complete, delete, fail, cancel -
   matches nothing, and its verification is false.
   */
  lemma FencedForGood(before: seq<Action>, rest: seq<Action>, t: Token, op: Op)
    requires ValidRun(Init, before) && ValidRun(After(Init, before), rest)
    requires var s := After(Init, before);
      t in s.leases && s.leases[t].id in s.rows && s.rows[s.leases[t].id].token.Some? &&
      s.rows[s.leases[t].id].token.value != t && UsesToken(op, t) && op.id == s.leases[t].id
    ensures var s' := After(After(Init, before), rest);
      Apply(s'.rows, op, s'.clock) == (s'.rows, NoMatch) && !Verified(s'.rows, op.id, t, s'.clock)
  {
    RunInv(Init, before);
    RunStaysDisplaced(After(Init, before), rest, t);
    DisplacedIsInert(After(After(Init, before), rest), op, t);
  }

  // -------------------------------------------------- which call leads to which state

  /** What it takes to turn a row into this state: the operation, and the state and holder it finds. */
  predicate LeadsTo(row: Row, op: Op, status: Status) {
    match status
    case Queued => false
    case Starting => op.Claim? || op.ClaimNext? || op.Repair? || op.ClaimLegacy?
    case Running => op.MarkRunning? && row.status.Starting? && row.token == Some(op.token)
    case Parked => op.Park? && Leased(row.status) && row.token == Some(op.token)
    case Done => op.Complete? && Leased(row.status) && row.token == Some(op.token)
    case Failed => op.Fail? && Active(row.status) && (op.holder.Some? ==> row.token == op.holder)
    case Cancelled =>
      op.Cancel? && (row.status.Queued? || row.status.Starting?) && (op.holder.Some? ==> row.token == op.holder)
  }

  /** The state that a call which changes its row leaves it in. */
  function Destination(op: Op, before: Option<Status>): Option<Status> {
    match op
    case Reserve(_, _, _, _, _, _, _, _) => Some(Queued)
    case MarkRunning(_, _) => Some(Running)
    case Park(_, _) => Some(Parked)
    case Complete(_, _) => Some(Done)
    case Fail(_, _, _) => Some(Failed)
    case Cancel(_, _) => Some(Cancelled)
    case Delete(_, _) => None
    case Renew(_, _, _) => before
    case SetOrigin(_, _) => before
    case ClearOrigin(_) => before
    case _ => Some(Starting)
  }

  function StatusOf(rows: Rows, id: RunId): Option<Status> {
    if id in rows then Some(rows[id].status) else None
  }

  /**
   Main result: in any run a row turns done only by a completion of its holder, failed only by a failure,
   cancelled only by a cancellation, parked and running only by its holder's own call, and starting only by a
   claim or repair; it never turns queued again, and no step turns another row than the one it names.
   */
  lemma WhoTurnsRows(run: seq<Action>, a: Action, id: RunId)
    requires ValidRun(Init, run) && Allowed(After(Init, run), a)
    requires id in After(Init, run).rows && id in Act(After(Init, run), a).rows
    requires Act(After(Init, run), a).rows[id].status != After(Init, run).rows[id].status
    ensures a.Do? && !a.op.ClearOrigin? && a.op.id == id
    ensures LeadsTo(After(Init, run).rows[id], a.op, Act(After(Init, run), a).rows[id].status)
  {
  }

  /** The step puts the row into this state: it adds it so, or turns it. */
  ghost predicate Turns(s: Sys, a: Action, id: RunId, status: Status) {
    && a.Do? && !a.op.ClearOrigin? && a.op.id == id
    && if id in s.rows then LeadsTo(s.rows[id], a.op, status)
       else (a.op.Reserve? && status == Queued) || (a.op.Insert? && status == Starting)
  }

  /** Some step of the run does. */
  ghost predicate Caused(s: Sys, run: seq<Action>, id: RunId, status: Status)
    requires ValidRun(s, run)
    decreases |run|
  {
    run != [] && (Turns(s, run[0], id, status) || Caused(Act(s, run[0]), run[1..], id, status))
  }

  lemma OneTurn(s: Sys, a: Action, id: RunId)
    requires Allowed(s, a) && id in Act(s, a).rows
    ensures var status := Act(s, a).rows[id].status;
      (id in s.rows && s.rows[id].status == status) || Turns(s, a, id, status)
  {
  }

  lemma {:induction false} CausedOrKept(s: Sys, run: seq<Action>, id: RunId)
    requires ValidRun(s, run) && id in After(s, run).rows
    ensures var status := After(s, run).rows[id].status;
      (id in s.rows && s.rows[id].status == status) || Caused(s, run, id, status)
    decreases |run|
  {
    if run != [] {
      CausedOrKept(Act(s, run[0]), run[1..], id);
      if id in Act(s, run[0]).rows { OneTurn(s, run[0], id); }
    }
  }

  /**
   Main result: whatever state a row is in, a call for exactly that state put it there: in every reachable
   state a row is done only if its holder completed it, failed only if it was failed, and so on for all seven.
   */
  lemma EveryStateHasItsCall(run: seq<Action>, id: RunId)
    requires ValidRun(Init, run) && id in After(Init, run).rows
    ensures Caused(Init, run, id, After(Init, run).rows[id].status)
  {
    CausedOrKept(Init, run, id);
  }

  /** And the other way round: a call that answers "changed" has led its row to its own state. */
  lemma ChangedArrives(rows: Rows, op: Op, now: int)
    requires Apply(rows, op, now).1 == Changed && !op.ClearOrigin?
    ensures StatusOf(Apply(rows, op, now).0, op.id) == Destination(op, StatusOf(rows, op.id))
    ensures forall other | other != op.id ::
      (other in Apply(rows, op, now).0 <==> other in rows) &&
      (other in rows ==> Apply(rows, op, now).0[other] == rows[other])
  {
  }

  /** A new row is reserved as queued or inserted as starting, and a row goes only by its holder's deletion. */
  lemma WhoAddsAndRemovesRows(rows: Rows, op: Op, now: int, id: RunId)
    ensures var rows' := Apply(rows, op, now).0;
      id !in rows && id in rows' ==>
        || (op.Reserve? && rows'[id].status == Queued)
        || (op.Insert? && rows'[id].status == Starting && rows'[id].token == Some(op.token))
    ensures id in rows && id !in Apply(rows, op, now).0 ==>
      op.Delete? && op.id == id && rows[id].token == Some(op.token)
  {
  }

  /** A session that ends lets go of its done runs, and of nothing else. */
  lemma OriginClearedExactly(rows: Rows, owner: string, now: int, id: RunId)
    requires id in rows
    ensures var rows' := Apply(rows, ClearOrigin(owner), now).0;
      && rows'.Keys == rows.Keys && rows'[id] == rows[id].(session := rows'[id].session)
      && rows'[id].session ==
         if rows[id].session == Some(owner) && rows[id].status == Done then None else rows[id].session
  {
  }

  // ------------------------------------------------------------- detached hosts

  /** The step gives this run a token it did not hold before. */
  ghost predicate Seizes(s: Sys, a: Action, id: RunId)
    requires Allowed(s, a)
  {
    && id in s.rows && id in Act(s, a).rows
    && Act(s, a).rows[id].token.Some? && Act(s, a).rows[id].token != s.rows[id].token
  }

  /**
   Main result: whatever step of whatever run gives an existing row a new token, it is a claim of that row;
   a queued row goes only to a claim by name or to a session host that may see it, and a detached host gets
   parked rows, expired running rows, and expired starting rows that belong to no session.
   */
  lemma WhoSeizesWhat(run: seq<Action>, a: Action, id: RunId)
    requires ValidRun(Init, run) && Allowed(After(Init, run), a) && Seizes(After(Init, run), a, id)
    ensures var (s, row) := (After(Init, run), After(Init, run).rows[id]);
      && a.Do? && Grants(a.op) && !a.op.Insert? && a.op.id == id
      && (row.token.Some? ==> Expired(row, s.clock))
      && (row.status.Queued? ==>
            || a.op.Claim?
            || (a.op.ClaimNext? && a.op.session.Some? && (row.session.None? || row.session == a.op.session)))
      && (a.op.ClaimNext? && a.op.session.None? ==>
            || row.status.Parked?
            || (row.status.Running? && Expired(row, s.clock))
            || (row.status.Starting? && row.session.None? && Expired(row, s.clock)))
  {
    var s := After(Init, run);
    RunInv(Init, run);
    if a.Do? && !a.op.ClearOrigin? && !a.op.Delete? && !a.op.Reserve? && !a.op.Insert? && a.op.id == id {
      if Rewrite(s.rows[id], a.op, s.clock).Some? { RewriteOk(s.rows[id], a.op, s.clock); }
    }
  }

  /** Nobody claims this run by its name, and no host of this session claims its next run. */
  ghost predicate Unasked(run: seq<Action>, id: RunId, owner: string) {
    forall a <- run :: a.Do? ==> !(a.op.Claim? && a.op.id == id) && !(a.op.ClaimNext? && a.op.session == Some(owner))
  }

  /** Still waiting for its session, or ended without having run. */
  predicate NeverStarted(rows: Rows, id: RunId, owner: string) {
    && id in rows && rows[id].token.None?
    && (|| (rows[id].status.Queued? && rows[id].session == Some(owner))
        || rows[id].status.Failed? || rows[id].status.Cancelled?)
  }

  lemma UnaskedStep(rows: Rows, op: Op, now: int, id: RunId, owner: string)
    requires RowsOk(rows) && NeverStarted(rows, id, owner)
    requires op.ClaimNext? ==> Candidate(rows, op.id, op.excluded, op.session, now)
    requires !(op.Claim? && op.id == id) && !(op.ClaimNext? && op.session == Some(owner))
    ensures NeverStarted(Apply(rows, op, now).0, id, owner)
  {
  }

  /**
   Main result: a queued run of a session stays queued, or is failed or cancelled, for as long as neither its
   own session's host nor a claim by name asks for it, whatever detached hosts and other sessions do.
   */
  lemma {:induction false} OnlyItsSessionStarts(s: Sys, run: seq<Action>, id: RunId, owner: string)
    requires Inv(s) && ValidRun(s, run) && NeverStarted(s.rows, id, owner) && Unasked(run, id, owner)
    ensures NeverStarted(After(s, run).rows, id, owner)
    decreases |run|
  {
    if run != [] {
      ActInv(s, run[0]);
      assert run[0] in run;
      if run[0].Do? { UnaskedStep(s.rows, run[0].op, s.clock, id, owner); }
      OnlyItsSessionStarts(Act(s, run[0]), run[1..], id, owner);
    }
  }

  // ------------------------------------------------------------------ what is claimable

  /** What a detached host and what the host of a session may claim, state by state. */
  lemma CandidatesExactly(rows: Rows, id: RunId, excluded: set<RunId>, session: Option<string>, now: int)
    requires id in rows && id !in excluded
    ensures session.None? ==>
      (Candidate(rows, id, excluded, session, now) <==>
        match rows[id].status
        case Parked => true
        case Running => Expired(rows[id], now)
        case Starting => Expired(rows[id], now) && rows[id].session.None?
        case _ => false)
    ensures session.Some? ==>
      (Candidate(rows, id, excluded, session, now) <==>
        && (rows[id].session.Some? ==> rows[id].session == session)
        && match rows[id].status
           case Queued => true
           case Parked => true
           case Starting => Expired(rows[id], now)
           case Running => Expired(rows[id], now)
           case _ => false)
  {
  }

  /** The claimed run has affinity to the host if any candidate has, and is the oldest among its equals. */
  lemma PickIsBest(rows: Rows, op: Op, now: int, other: RunId)
    requires op.ClaimNext? && NextPick(rows, op, now) && Candidate(rows, other, op.excluded, op.session, now)
    ensures rows[other].affinity == op.runner ==> rows[op.id].affinity == op.runner
    ensures (rows[other].affinity == op.runner <==> rows[op.id].affinity == op.runner) ==>
      rows[op.id].createdAt <= rows[other].createdAt
  {
  }

  /** A leased run is at every moment either its holder's or up for claiming: never both, and never neither. */
  lemma LeaseOrClaimable(run: seq<Action>, id: RunId, owner: string)
    requires ValidRun(Init, run) && id in After(Init, run).rows && Leased(After(Init, run).rows[id].status)
    requires After(Init, run).rows[id].session.Some? ==> After(Init, run).rows[id].session == Some(owner)
    ensures var s := After(Init, run);
      s.rows[id].token.Some? &&
      (Verified(s.rows, id, s.rows[id].token.value, s.clock) <==> !Candidate(s.rows, id, {}, Some(owner), s.clock))
  {
    RunInv(Init, run);
  }

  // --------------------------------------------------------------------- class

  /** Some candidate precedes the others, so `ORDER BY ... LIMIT 1` finds one exactly when there is one. */
  lemma {:induction false} FirstExists(rows: Rows, ids: set<RunId>, runner: string) returns (first: RunId)
    requires ids != {} && forall id | id in ids :: id in rows
    ensures first in ids && forall id | id in ids :: Precedes(rows[first], rows[id], runner)
  {
    var x :| x in ids;
    if ids == {x} {
      first := x;
    } else {
      var f := FirstExists(rows, ids - {x}, runner);
      first := if Precedes(rows[x], rows[f], runner) then x else f;
      assert forall id | id in ids :: id == x || id in ids - {x};
    }
  }

  class WorkflowRunStore {
    var rows: Rows

    constructor ()
      ensures rows == map[]
    {
      rows := map[];
    }

    method Write(id: RunId, row: Row) returns (result: Result)
      modifies this
      ensures (rows, result) == Written(old(rows), id, row)
      ensures result == if row.session.Some? && Active(row.status) && (exists other | other in old(rows) ::
          other != id && old(rows)[other].session == row.session && Active(old(rows)[other].status)) then Violation
        else if row.parent.Some? && (exists other | other in old(rows) ::
          other != id && old(rows)[other].parent == row.parent) then Violation
        else Changed
      ensures rows == if result == Changed then old(rows)[id := row] else old(rows)
    {
      var sameSession :=
        set other | other in rows && other != id && rows[other].session == row.session && Active(rows[other].status);
      var sameParent := set other | other in rows && other != id && rows[other].parent == row.parent;
      assert forall other | other in rows && other != id ::
        (rows[other].session == row.session && Active(rows[other].status) ==> other in sameSession) &&
        (rows[other].parent == row.parent ==> other in sameParent);
      if (row.session.Some? && Active(row.status) && sameSession != {}) || (row.parent.Some? && sameParent != {}) {
        return Violation;
      }
      rows := rows[id := row];
      return Changed;
    }

    method ReserveWorkflowRun(id: RunId, name: string, source: string, input: string, launch: string,
        runner: string, owner: string, parent: Option<RunId>, now: int) returns (result: Result)
      modifies this
      ensures (rows, result) == Apply(old(rows), Reserve(id, name, source, input, launch, runner, owner, parent), now)
      ensures id in old(rows) ==> result == Violation
      ensures rows == if result != Changed then old(rows)
        else old(rows)[id := Row(Queued, None, None, None, runner, Some(owner), parent, name, source, input, launch,
                                 None, now, None, None)]
    {
      if id in rows { return Violation; }
      result := Write(id, Row(Queued, None, None, None, runner, Some(owner), parent,
        name, source, input, launch, None, now, None, None));
    }

    method EnqueueWorkflowRun(id: RunId, name: string, source: string, input: string, launch: string, runner: string,
        token: Token, leaseMs: nat, affinity: string, session: Option<string>, parent: Option<RunId>, now: int)
      returns (result: Result)
      modifies this
      ensures (rows, result) ==
        Apply(old(rows), Insert(id, name, source, input, launch, runner, token, leaseMs, affinity, session, parent),
              now)
      ensures id in old(rows) ==> result == Violation
      ensures rows == if result != Changed then old(rows)
        else old(rows)[id := Row(Starting, Some(runner), Some(token), Some(now + leaseMs), affinity, session, parent,
                                 name, source, input, launch, None, now, Some(now), None)]
    {
      if id in rows { return Violation; }
      result := Write(id, Row(Starting, Some(runner), Some(token), Some(now + leaseMs), affinity, session, parent,
        name, source, input, launch, None, now, Some(now), None));
    }

    method ClaimWorkflowRun(id: RunId, runner: string, token: Token, leaseMs: nat, now: int) returns (result: Result)
      modifies this
      ensures (rows, result) == Apply(old(rows), Claim(id, runner, token, leaseMs), now)
      ensures result != NoMatch <==>
        && id in old(rows)
        && (|| old(rows)[id].status.Queued? || old(rows)[id].status.Parked?
            || (old(rows)[id].status.Starting? && Expired(old(rows)[id], now)))
      ensures rows == if result != Changed then old(rows) else old(rows)[id := old(rows)[id].(
          status := Starting, runner := Some(runner), token := Some(token), expiresAt := Some(now + leaseMs),
          startedAt := if old(rows)[id].startedAt.Some? then old(rows)[id].startedAt else Some(now))]
    {
      if id !in rows { return NoMatch; }
      var row := rows[id];
      if row.status.Queued? || row.status.Parked? || (row.status.Starting? && Expired(row, now)) {
        result := Write(id, Claimed(row, runner, token, now + leaseMs, now));
      } else {
        result := NoMatch;
      }
    }

    /** None exactly when no run is claimable by this host. */
    method ClaimNextWorkflowRun(runner: string, token: Token, leaseMs: nat, excluded: set<RunId>,
        session: Option<string>, now: int) returns (id: Option<RunId>, result: Result)
      modifies this
      ensures id.None? <==> forall other :: !Candidate(old(rows), other, excluded, session, now)
      ensures id.None? ==> rows == old(rows) && result == NoMatch
      ensures id.Some? ==>
        var op := ClaimNext(id.value, runner, token, leaseMs, excluded, session);
        NextPick(old(rows), op, now) && (rows, result) == Apply(old(rows), op, now)
      ensures id.Some? ==> rows == if result != Changed then old(rows) else old(rows)[id.value := old(rows)[id.value].(
        status := Starting, runner := Some(runner), token := Some(token), expiresAt := Some(now + leaseMs),
        startedAt := if old(rows)[id.value].startedAt.Some? then old(rows)[id.value].startedAt else Some(now))]
    {
      var candidates := set other | other in rows && Candidate(rows, other, excluded, session, now);
      if candidates == {} {
        assert forall other :: Candidate(rows, other, excluded, session, now) ==> other in candidates;
        return None, NoMatch;
      }
      ghost var first := FirstExists(rows, candidates, runner);
      var pick: RunId :| pick in candidates &&
        forall other | other in candidates :: Precedes(rows[pick], rows[other], runner);
      assert forall other :: Candidate(rows, other, excluded, session, now) ==> other in candidates;
      id := Some(pick);
      result := Write(pick, Claimed(rows[pick], runner, token, now + leaseMs, now));
    }

    method MarkWorkflowRunRunning(id: RunId, token: Token, now: int) returns (result: Result)
      modifies this
      ensures (rows, result) == Apply(old(rows), MarkRunning(id, token), now)
      ensures result != NoMatch <==>
        id in old(rows) && old(rows)[id].token == Some(token) && old(rows)[id].status.Starting?
      ensures rows == if result != Changed then old(rows) else old(rows)[id := old(rows)[id].(status := Running)]
    {
      if id !in rows || rows[id].token != Some(token) || !rows[id].status.Starting? { return NoMatch; }
      result := Write(id, rows[id].(status := Running));
    }

    method RenewWorkflowRunClaim(id: RunId, token: Token, leaseMs: nat, now: int) returns (result: Result)
      modifies this
      ensures (rows, result) == Apply(old(rows), Renew(id, token, leaseMs), now)
      ensures result != NoMatch <==>
        && id in old(rows) && old(rows)[id].token == Some(token) && Leased(old(rows)[id].status)
        && old(rows)[id].expiresAt.Some? && now < old(rows)[id].expiresAt.value
      ensures rows == if result != Changed then old(rows)
        else old(rows)[id := old(rows)[id].(expiresAt := Some(now + leaseMs))]
    {
      if !Verified(rows, id, token, now) { return NoMatch; }
      result := Write(id, rows[id].(expiresAt := Some(now + leaseMs)));
    }

    method ParkWorkflowRun(id: RunId, token: Token, now: int) returns (result: Result)
      modifies this
      ensures (rows, result) == Apply(old(rows), Park(id, token), now)
      ensures result != NoMatch <==>
        id in old(rows) && old(rows)[id].token == Some(token) && Leased(old(rows)[id].status)
      ensures rows == if result != Changed then old(rows)
        else old(rows)[id := old(rows)[id].(status := Parked, runner := None, token := None, expiresAt := None)]
    {
      if id !in rows || rows[id].token != Some(token) || !Leased(rows[id].status) { return NoMatch; }
      result := Write(id, Unleased(rows[id], Parked));
    }

    method FailWorkflowRun(id: RunId, holder: Option<Token>, code: string, now: int) returns (result: Result)
      modifies this
      ensures (rows, result) == Apply(old(rows), Fail(id, holder, code), now)
      ensures result != NoMatch <==>
        id in old(rows) && Active(old(rows)[id].status) && (holder.Some? ==> old(rows)[id].token == holder)
      ensures rows == if result != Changed then old(rows) else old(rows)[id := old(rows)[id].(
        status := Failed, runner := None, token := None, expiresAt := None, input := "null", launch := "{}",
        finishedAt := Some(now), parent := None, error := Some(code))]
    {
      if id !in rows || !Active(rows[id].status) || (holder.Some? && rows[id].token != holder) { return NoMatch; }
      var row := Finished(rows[id], Failed, now);
      result := Write(id, row.(parent := None, error := Some(code)));
    }

    method CancelWorkflowRun(id: RunId, holder: Option<Token>, now: int) returns (result: Result)
      modifies this
      ensures (rows, result) == Apply(old(rows), Cancel(id, holder), now)
      ensures result != NoMatch <==>
        && id in old(rows) && (old(rows)[id].status.Queued? || old(rows)[id].status.Starting?)
        && (holder.Some? ==> old(rows)[id].token == holder)
      ensures rows == if result != Changed then old(rows) else old(rows)[id := old(rows)[id].(
        status := Cancelled, runner := None, token := None, expiresAt := None, input := "null", launch := "{}",
        finishedAt := Some(now))]
    {
      if id !in rows || (holder.Some? && rows[id].token != holder) { return NoMatch; }
      if !rows[id].status.Queued? && !rows[id].status.Starting? { return NoMatch; }
      result := Write(id, Finished(rows[id], Cancelled, now));
    }

    method CompleteWorkflowRun(id: RunId, token: Token, now: int) returns (result: Result)
      modifies this
      ensures (rows, result) == Apply(old(rows), Complete(id, token), now)
      ensures result != NoMatch <==>
        id in old(rows) && old(rows)[id].token == Some(token) && Leased(old(rows)[id].status)
      ensures rows == if result != Changed then old(rows) else old(rows)[id := old(rows)[id].(
        status := Done, runner := None, token := None, expiresAt := None, input := "null", launch := "{}",
        finishedAt := Some(now))]
    {
      if id !in rows || rows[id].token != Some(token) || !Leased(rows[id].status) { return NoMatch; }
      result := Write(id, Finished(rows[id], Done, now));
    }

    method DeleteWorkflowRun(id: RunId, token: Token, now: int) returns (result: Result)
      modifies this
      ensures (rows, result) == Apply(old(rows), Delete(id, token), now)
      ensures result == if id in old(rows) && old(rows)[id].token == Some(token) then Changed else NoMatch
      ensures rows == if result == Changed then old(rows) - {id} else old(rows)
    {
      if id !in rows || rows[id].token != Some(token) { return NoMatch; }
      rows := rows - {id};
      result := Changed;
    }

    method RepairCanonicalWorkflowSourceRun(id: RunId, name: string, source: string, runner: string,
        token: Token, leaseMs: nat, now: int) returns (result: Result)
      modifies this
      ensures (rows, result) == Apply(old(rows), Repair(id, name, source, runner, token, leaseMs), now)
      ensures result != NoMatch <==>
        && id in old(rows) && !(old(rows)[id].source == source && old(rows)[id].status.Parked?)
        && (|| old(rows)[id].status.Parked?
            || (old(rows)[id].status.Starting? && old(rows)[id].token == Some(token) &&
                old(rows)[id].expiresAt.Some? && now < old(rows)[id].expiresAt.value)
            || (old(rows)[id].status.Starting? && Expired(old(rows)[id], now)))
      ensures rows == if result != Changed then old(rows) else old(rows)[id := old(rows)[id].(
        name := name, source := source, status := Starting, runner := Some(runner), token := Some(token),
        expiresAt := Some(now + leaseMs))]
    {
      if id !in rows || Terminal(rows[id].status) { return NoMatch; }
      var row := rows[id];
      if row.source == source && row.status.Parked? { return NoMatch; }
      if !Reclaimable(row, token, now) { return NoMatch; }
      result := Write(id, row.(name := name, source := source, status := Starting,
        runner := Some(runner), token := Some(token), expiresAt := Some(now + leaseMs)));
    }

    method ClaimLegacyWorkflowSourceRun(id: RunId, name: string, oldSource: string, source: string, runner: string,
        token: Token, leaseMs: nat, now: int) returns (result: Result)
      modifies this
      ensures (rows, result) == Apply(old(rows), ClaimLegacy(id, name, oldSource, source, runner, token, leaseMs), now)
      ensures result != NoMatch <==>
        && id in old(rows) && (old(rows)[id].source == oldSource || old(rows)[id].source == source)
        && (|| old(rows)[id].status.Parked?
            || (old(rows)[id].status.Starting? && old(rows)[id].token == Some(token) &&
                old(rows)[id].expiresAt.Some? && now < old(rows)[id].expiresAt.value)
            || (old(rows)[id].status.Starting? && Expired(old(rows)[id], now)))
      ensures rows == if result != Changed then old(rows) else old(rows)[id := old(rows)[id].(
        name := name, source := source, status := Starting, runner := Some(runner), token := Some(token),
        expiresAt := Some(now + leaseMs))]
    {
      if id !in rows || Terminal(rows[id].status) { return NoMatch; }
      var row := rows[id];
      if row.source != oldSource && row.source != source { return NoMatch; }
      if !Reclaimable(row, token, now) { return NoMatch; }
      result := Write(id, row.(name := name, source := source, status := Starting,
        runner := Some(runner), token := Some(token), expiresAt := Some(now + leaseMs)));
    }

    method SetWorkflowRunOriginSession(id: RunId, owner: string, now: int) returns (result: Result)
      modifies this
      ensures (rows, result) == Apply(old(rows), SetOrigin(id, owner), now)
      ensures result != NoMatch <==> id in old(rows) && old(rows)[id].session.None?
      ensures rows == if result != Changed then old(rows)
        else old(rows)[id := old(rows)[id].(session := Some(owner))]
    {
      if id !in rows || rows[id].session.Some? { return NoMatch; }
      result := Write(id, rows[id].(session := Some(owner)));
    }
  }
}
