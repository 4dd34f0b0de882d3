/**
 The monitor graph (`src/builtins/monitor.workflow.ts`): check, act or repair, wait, and
 check again, until something stops it. An included workflow is one step, recorded
 when it leaves through an exit.
 */
module Monitor {
  import opened Options

  const MAX_CONSECUTIVE_CHECK_TIMEOUTS: nat := 3

  datatype Node =
    | Prepare | Check | RecordCheckTimeout | CheckTimeoutRetryReport | CheckTimeoutStopReport | FinishCheckTimeout
    | RecordCheckFailure | CheckFailureReport | FinishCheckFailure
    | Estimate | PublishProgress | Report | Decide | Act
    | RepairGuard | PlanChange | Implementation | RepairBlocked | RepairReport
    | Schedule | Sleep | Finish

  datatype Outcome = Succeeded | TimedOut | Failed | Cancelled

  datatype Kind = Advance | Recover | Repair

  /** What an accepted check asks for, what `decide` and the guards answer, how an included workflow leaves. */
  datatype Output = Nothing | Wait | Stop | Request(kind: Kind) | Retry | Go | Blocked

  datatype Step = Step(node: Node, outcome: Outcome, output: Output)

  type History = seq<Step>

  predicate IsAccepted(x: Step) { x.node.Check? && x.outcome.Succeeded? }

  predicate IsTimeout(x: Step) { x.node.Check? && x.outcome.TimedOut? }

  function Accepted(h: History): nat {
    if h == [] then 0 else Accepted(h[..|h| - 1]) + if IsAccepted(h[|h| - 1]) then 1 else 0
  }

  function Started(h: History): nat {
    if h == [] then 0 else Started(h[..|h| - 1]) + if h[|h| - 1].node.Check? then 1 else 0
  }

  /** How many of the latest checks in a row timed out. */
  function TimeoutsInARow(h: History): nat {
    if h == [] then 0
    else if IsTimeout(h[|h| - 1]) then TimeoutsInARow(h[..|h| - 1]) + 1
    else if h[|h| - 1].node.Check? then 0
    else TimeoutsInARow(h[..|h| - 1])
  }

  /** The output of the latest check that was accepted. */
  function LatestCheck(h: History): Output {
    if h == [] then Nothing else if IsAccepted(h[|h| - 1]) then h[|h| - 1].output else LatestCheck(h[..|h| - 1])
  }

  /** The backward loop of `recordCheckTimeout`. */
  method CountTimeouts(h: History) returns (consecutive: nat)
    ensures consecutive == TimeoutsInARow(h)
  {
    consecutive := 0;
    var i := |h|;
    assert h[..i] == h;
    while 0 < i
      invariant 0 <= i <= |h|
      invariant TimeoutsInARow(h) == consecutive + TimeoutsInARow(h[..i])
      decreases i
    {
      assert h[..i][..i - 1] == h[..i - 1];
      i := i - 1;
      if !h[i].node.Check? { continue; }
      if !h[i].outcome.TimedOut? { return; }
      consecutive := consecutive + 1;
    }
  }

  /** `decide`: stop when asked to or when the checks are used up. */
  function Decision(h: History, maxChecks: nat): Output {
    var check := LatestCheck(h);
    if check == Stop || maxChecks <= Accepted(h) then Stop else check
  }

  predicate Records(h: History, x: Step, maxChecks: nat) {
    if !x.outcome.Succeeded? then x.output == Nothing
    else
      match x.node
      case Check => x.output == Wait || x.output == Stop || x.output.Request?
      case RecordCheckTimeout =>
        x.output == if MAX_CONSECUTIVE_CHECK_TIMEOUTS <= TimeoutsInARow(h) then Stop else Retry
      case Decide => x.output == Decision(h, maxChecks)
      case _ => true
  }

  function AfterDecide(o: Output): Option<Node> {
    match o
    case Stop => Some(Finish)
    case Wait => Some(Schedule)
    case Request(Repair) => Some(RepairGuard)
    case Request(_) => Some(Act)
    case _ => None
  }

  function Next(x: Step): Option<Node> {
    if x.node.Check? && !x.outcome.Succeeded? then
      if x.outcome.TimedOut? then Some(RecordCheckTimeout)
      else if x.outcome.Failed? then Some(RecordCheckFailure) else None
    else if !x.outcome.Succeeded? then None
    else
      match x.node
      case Prepare => Some(Check)
      case Check => Some(Estimate)
      case RecordCheckTimeout =>
        if x.output == Retry then Some(CheckTimeoutRetryReport)
        else if x.output == Stop then Some(CheckTimeoutStopReport) else None
      case CheckTimeoutRetryReport => Some(Schedule)
      case CheckTimeoutStopReport => Some(FinishCheckTimeout)
      case RecordCheckFailure => Some(CheckFailureReport)
      case CheckFailureReport => Some(FinishCheckFailure)
      case Estimate => Some(PublishProgress)
      case PublishProgress => Some(Report)
      case Report => Some(Decide)
      case Decide => AfterDecide(x.output)
      case Act => Some(Check)
      case RepairGuard =>
        if x.output == Go then Some(PlanChange) else if x.output == Blocked then Some(RepairBlocked) else None
      case PlanChange => if x.output == Go then Some(Implementation) else Some(RepairBlocked)
      case Implementation => if x.output == Go then Some(Check) else Some(RepairBlocked)
      case RepairBlocked => Some(RepairReport)
      case RepairReport => Some(Finish)
      case Schedule => Some(Sleep)
      case Sleep => Some(Check)
      case FinishCheckTimeout => None
      case FinishCheckFailure => None
      case Finish => None
  }

  function Place(h: History): Option<Node> {
    if h == [] then Some(Prepare) else Next(h[|h| - 1])
  }

  predicate Valid(h: History, maxChecks: nat)
    decreases |h|
  {
    h == [] || (var b, x := h[..|h| - 1], h[|h| - 1];
                Valid(b, maxChecks) && Place(b) == Some(x.node) && Records(b, x, maxChecks))
  }

  // ------------------------------------------------------------------ the invariant

  /**
   Between an accepted check and the next: no timeout in a row, and another check is allowed once
   `decide` is past.
   */
  predicate AfterAccepted(n: Node) { n.Estimate? || n.PublishProgress? || n.Report? || n.Decide? }

  predicate Working(n: Node) { n.Act? || n.RepairGuard? || n.PlanChange? || n.Implementation? }

  predicate Pausing(n: Node) { n.Check? || n.Prepare? || n.Schedule? || n.Sleep? || n.CheckTimeoutRetryReport? }

  /** What holds at each node, in terms of accepted checks `a`, started checks `s` and timeouts in a row `t`. */
  predicate At(n: Node, a: nat, s: nat, t: nat, maxChecks: nat) {
    && (AfterAccepted(n) ==> t == 0 && 0 < a <= maxChecks && s <= 3 * a)
    && (Working(n) ==> t == 0 && 0 < a < maxChecks && s <= 3 * a)
    && (Pausing(n) ==> t < MAX_CONSECUTIVE_CHECK_TIMEOUTS && a < maxChecks && s <= 3 * a + t)
    && (n.RecordCheckTimeout? ==> 0 < t <= MAX_CONSECUTIVE_CHECK_TIMEOUTS && a < maxChecks && s <= 3 * a + t)
  }

  predicate Within(h: History, maxChecks: nat) {
    && Accepted(h) <= maxChecks && Started(h) <= 3 * maxChecks
    && TimeoutsInARow(h) <= MAX_CONSECUTIVE_CHECK_TIMEOUTS
  }

  /** Steps since the latest check started, at most, for each place the run can stand at. */
  function Since(n: Node): nat {
    match n
    case Prepare => 0
    case Check => 8
    case Estimate => 1
    case PublishProgress => 2
    case Report => 3
    case Decide => 4
    case Act => 5
    case RepairGuard => 5
    case PlanChange => 6
    case Implementation => 7
    case RepairBlocked => 8
    case RepairReport => 9
    case Schedule => 5
    case Sleep => 6
    case RecordCheckTimeout => 1
    case CheckTimeoutRetryReport => 2
    case CheckTimeoutStopReport => 2
    case FinishCheckTimeout => 3
    case RecordCheckFailure => 1
    case CheckFailureReport => 2
    case FinishCheckFailure => 3
    case Finish => 10
  }

  /** The length of the run in terms of the checks it started. */
  predicate Paced(h: History) {
    && |h| <= 8 * Started(h) + 4
    && (Place(h).Some? ==>
          if Place(h).value.Prepare? then h == []
          else if Started(h) == 0 then Place(h).value.Check? && |h| == 1
          else |h| <= 8 * Started(h) - 7 + Since(Place(h).value))
  }

  lemma CountsStep(h: History)
    requires h != []
    ensures var b, x := h[..|h| - 1], h[|h| - 1];
      && Accepted(h) == Accepted(b) + (if IsAccepted(x) then 1 else 0)
      && Started(h) == Started(b) + (if x.node.Check? then 1 else 0)
      && TimeoutsInARow(h)
         == if IsTimeout(x) then TimeoutsInARow(b) + 1 else if x.node.Check? then 0 else TimeoutsInARow(b)
  {
  }

  /** One step, on the three counts. */
  lemma StepAt(x: Step, n: Node, a: nat, s: nat, t: nat, a': nat, s': nat, t': nat, maxChecks: nat)
    requires At(x.node, a, s, t, maxChecks) && Next(x) == Some(n)
    requires a' == a + (if IsAccepted(x) then 1 else 0) && s' == s + (if x.node.Check? then 1 else 0)
    requires t' == if IsTimeout(x) then t + 1 else if x.node.Check? then 0 else t
    requires x.node.RecordCheckTimeout? ==> x.output == if MAX_CONSECUTIVE_CHECK_TIMEOUTS <= t then Stop else Retry
    requires x.node.Decide? && maxChecks <= a ==> x.output == Stop
    ensures At(n, a', s', t', maxChecks)
  {
  }

  lemma {:induction false} RunBounded(h: History, maxChecks: nat)
    requires 0 < maxChecks && Valid(h, maxChecks)
    ensures Within(h, maxChecks)
    ensures Place(h).Some? ==> At(Place(h).value, Accepted(h), Started(h), TimeoutsInARow(h), maxChecks)
    decreases |h|
  {
    if h != [] {
      var b, x := h[..|h| - 1], h[|h| - 1];
      RunBounded(b, maxChecks);
      CountsStep(h);
      if Next(x).Some? {
        StepAt(x, Next(x).value, Accepted(b), Started(b), TimeoutsInARow(b),
               Accepted(h), Started(h), TimeoutsInARow(h), maxChecks);
      }
    }
  }

  lemma {:induction false} RunPaced(h: History, maxChecks: nat)
    requires Valid(h, maxChecks)
    ensures Paced(h)
    decreases |h|
  {
    if h != [] {
      RunPaced(h[..|h| - 1], maxChecks);
      CountsStep(h);
    }
  }

  /**
   With or without repairs a monitor starts at most three checks for each it may accept
   and accepts at most `maxChecks`, and so it ends: two timeouts in a row may be
   retried, the third stops it.
   */
  lemma ChecksAreBounded(h: History, maxChecks: nat)
    requires 0 < maxChecks && Valid(h, maxChecks)
    ensures Accepted(h) <= maxChecks && Started(h) <= 3 * maxChecks
    ensures |h| <= 24 * maxChecks + 4
    ensures TimeoutsInARow(h) <= MAX_CONSECUTIVE_CHECK_TIMEOUTS
  {
    RunBounded(h, maxChecks);
    RunPaced(h, maxChecks);
  }

  predicate IsCheckAnswer(o: Output) { o == Wait || o == Stop || o.Request? }

  lemma {:induction false} LatestIsAnswer(h: History, maxChecks: nat)
    requires Valid(h, maxChecks) && 0 < Accepted(h)
    ensures IsCheckAnswer(LatestCheck(h))
    decreases |h|
  {
    if !IsAccepted(h[|h| - 1]) { LatestIsAnswer(h[..|h| - 1], maxChecks); }
  }

  /** What `decide` leads to: the latest accepted check has its way, unless the checks are used up. */
  lemma DecideLeads(h: History, x: Step, maxChecks: nat)
    requires 0 < maxChecks && Valid(h, maxChecks) && Place(h) == Some(Decide)
    requires x.node.Decide? && x.outcome.Succeeded? && Records(h, x, maxChecks)
    ensures Next(x) == Some(Finish) <==> LatestCheck(h) == Stop || Accepted(h) == maxChecks
    ensures Next(x) == Some(Schedule) <==> LatestCheck(h) == Wait && Accepted(h) < maxChecks
    ensures Next(x) == Some(Node.RepairGuard) <==> LatestCheck(h) == Request(Repair) && Accepted(h) < maxChecks
    ensures Next(x) == Some(Act) <==>
      (LatestCheck(h) == Request(Advance) || LatestCheck(h) == Request(Recover)) && Accepted(h) < maxChecks
  {
    RunBounded(h, maxChecks);
    LatestIsAnswer(h, maxChecks);
  }

  /** What follows a check that timed out: another one after the interval, or after the third in a row the end. */
  lemma ThirdTimeoutStops(h: History, x: Step, maxChecks: nat)
    requires 0 < maxChecks && Valid(h + [x], maxChecks) && x.node.RecordCheckTimeout? && x.outcome.Succeeded?
    ensures TimeoutsInARow(h) == 3 <==> Place(h + [x]) == Some(CheckTimeoutStopReport)
    ensures TimeoutsInARow(h) < 3 <==> Place(h + [x]) == Some(CheckTimeoutRetryReport)
  {
    assert (h + [x])[..|h|] == h;
    RunBounded(h, maxChecks);
  }

  /** The run has just been through these nodes, and each said go. */
  predicate Went(h: History, nodes: seq<Node>) {
    && |nodes| <= |h|
    && forall k | 0 <= k < |nodes| ::
         var x := h[|h| - |nodes| + k]; x.node == nodes[k] && x.outcome.Succeeded? && x.output == Go
  }

  /** What the latest accepted check must have asked for, and the guards have answered, for the run to stand at `n`. */
  predicate Asked(h: History, n: Node, maxChecks: nat) {
    match n
    case Act => LatestCheck(h) == Request(Advance) || LatestCheck(h) == Request(Recover)
    case RepairGuard => LatestCheck(h) == Request(Repair)
    case PlanChange => LatestCheck(h) == Request(Repair) && Went(h, [Node.RepairGuard])
    case Implementation => LatestCheck(h) == Request(Repair) && Went(h, [Node.RepairGuard, PlanChange])
    case RepairReport => LatestCheck(h) == Request(Repair) && Accepted(h) < maxChecks
    case RepairBlocked =>
      && LatestCheck(h) == Request(Repair) && Accepted(h) < maxChecks && h != []
      && h[|h| - 1].node in {Node.RepairGuard, PlanChange, Implementation} && h[|h| - 1].output != Go
    case _ => true
  }

  lemma AskedStep(b: History, x: Step, maxChecks: nat)
    requires 0 < maxChecks && Valid(b, maxChecks) && Place(b) == Some(x.node) && Records(b, x, maxChecks)
    requires Asked(b, x.node, maxChecks) && Next(x).Some?
    ensures Asked(b + [x], Next(x).value, maxChecks)
  {
    assert (b + [x])[..|b|] == b;
    RunBounded(b, maxChecks);
    if x.node.Decide? && Next(x) != Some(Finish) {
      DecideLeads(b, x, maxChecks);
    }
  }

  /**
   Over any run the target is changed only as asked: an action follows only a check that asked to advance or
   recover, and a repair only one that asked for a repair, past the guard and the plan.
   */
  lemma {:induction false} WorkIsAsked(h: History, maxChecks: nat)
    requires 0 < maxChecks && Valid(h, maxChecks) && Place(h).Some?
    ensures Asked(h, Place(h).value, maxChecks)
    decreases |h|
  {
    if h != [] {
      var b, x := h[..|h| - 1], h[|h| - 1];
      WorkIsAsked(b, maxChecks);
      AskedStep(b, x, maxChecks);
      assert h == b + [x];
    }
  }

  /** And it finishes only when a check said stop, the checks are used up, or a repair was refused or failed. */
  lemma FinishesOnlyThen(h: History, maxChecks: nat)
    requires 0 < maxChecks && Valid(h, maxChecks) && Place(h) == Some(Finish)
    ensures LatestCheck(h) == Stop || Accepted(h) == maxChecks || LatestCheck(h) == Request(Repair)
    ensures h != [] && (h[|h| - 1].node.Decide? || h[|h| - 1].node.RepairReport?)
    ensures h[|h| - 1].node.Decide? <==> LatestCheck(h) == Stop || Accepted(h) == maxChecks
  {
    var b, x := h[..|h| - 1], h[|h| - 1];
    WorkIsAsked(b, maxChecks);
    if x.node.Decide? { DecideLeads(b, x, maxChecks); }
  }

  // ------------------------------------------------------------ the bounds are reached

  lemma Extends(h: History, x: Step, maxChecks: nat)
    requires Valid(h, maxChecks) && Place(h) == Some(x.node) && Records(h, x, maxChecks)
    ensures var h' := h + [x];
      && Valid(h', maxChecks) && Place(h') == Next(x)
      && Accepted(h') == Accepted(h) + (if IsAccepted(x) then 1 else 0)
      && Started(h') == Started(h) + (if x.node.Check? then 1 else 0)
      && TimeoutsInARow(h')
         == (if IsTimeout(x) then TimeoutsInARow(h) + 1 else if x.node.Check? then 0 else TimeoutsInARow(h))
      && LatestCheck(h') == if IsAccepted(x) then x.output else LatestCheck(h)
  {
    assert (h + [x])[..|h|] == h;
    CountsStep(h + [x]);
  }

  /** Everywhere but at a check and its answers, a run can go on as it likes. */
  lemma GoesOn(h: History, n: Node, maxChecks: nat) returns (h': History)
    requires Valid(h, maxChecks) && Place(h) == Some(n)
    requires !n.Check? && !n.RecordCheckTimeout? && !n.Decide?
    ensures Valid(h', maxChecks) && Place(h') == Next(Step(n, Succeeded, Go))
    ensures Accepted(h') == Accepted(h) && Started(h') == Started(h) && TimeoutsInARow(h') == TimeoutsInARow(h)
    ensures LatestCheck(h') == LatestCheck(h)
  {
    h' := h + [Step(n, Succeeded, Go)];
    Extends(h, Step(n, Succeeded, Go), maxChecks);
  }

  /** From the report of a timeout, or a decision to wait, to the next check. */
  lemma Pauses(h: History, maxChecks: nat) returns (h': History)
    requires Valid(h, maxChecks) && Place(h) == Some(Schedule)
    ensures Valid(h', maxChecks) && Place(h') == Some(Check)
    ensures Accepted(h') == Accepted(h) && Started(h') == Started(h) && TimeoutsInARow(h') == TimeoutsInARow(h)
  {
    h' := GoesOn(h, Schedule, maxChecks);
    h' := GoesOn(h', Sleep, maxChecks);
  }

  lemma TimesOut(h: History, maxChecks: nat) returns (h': History)
    requires Valid(h, maxChecks) && Place(h) == Some(Check) && TimeoutsInARow(h) < 2
    ensures Valid(h', maxChecks) && Place(h') == Some(Check)
    ensures Accepted(h') == Accepted(h) && Started(h') == Started(h) + 1 && TimeoutsInARow(h') == TimeoutsInARow(h) + 1
  {
    var x, y := Step(Check, TimedOut, Nothing), Step(RecordCheckTimeout, Succeeded, Retry);
    Extends(h, x, maxChecks);
    Extends(h + [x], y, maxChecks);
    h' := GoesOn(h + [x] + [y], CheckTimeoutRetryReport, maxChecks);
    h' := Pauses(h', maxChecks);
  }

  /** A check that is accepted only at its third attempt. */
  lemma AcceptsThird(h: History, maxChecks: nat) returns (h': History)
    requires Valid(h, maxChecks) && Place(h) == Some(Check) && TimeoutsInARow(h) == 0
    ensures Valid(h', maxChecks) && Place(h') == Some(Estimate) && LatestCheck(h') == Wait
    ensures Accepted(h') == Accepted(h) + 1 && Started(h') == Started(h) + 3 && TimeoutsInARow(h') == 0
  {
    h' := TimesOut(h, maxChecks);
    h' := TimesOut(h', maxChecks);
    Extends(h', Step(Check, Succeeded, Wait), maxChecks);
    h' := h' + [Step(Check, Succeeded, Wait)];
  }

  /** From an accepted check that says wait, while checks are left, to the next. */
  lemma WaitsAgain(h: History, maxChecks: nat) returns (h': History)
    requires Valid(h, maxChecks) && Place(h) == Some(Estimate) && LatestCheck(h) == Wait && Accepted(h) < maxChecks
    ensures Valid(h', maxChecks) && Place(h') == Some(Check)
    ensures Accepted(h') == Accepted(h) && Started(h') == Started(h) && TimeoutsInARow(h') == TimeoutsInARow(h)
  {
    h' := GoesOn(h, Estimate, maxChecks);
    h' := GoesOn(h', PublishProgress, maxChecks);
    h' := GoesOn(h', Report, maxChecks);
    Extends(h', Step(Decide, Succeeded, Wait), maxChecks);
    h' := Pauses(h' + [Step(Decide, Succeeded, Wait)], maxChecks);
  }

  /** For every number of checks some run uses it up, each check accepted only at its third attempt. */
  lemma {:induction false} ChecksAreUsedUp(maxChecks: nat, n: nat) returns (h: History)
    requires 0 < n <= maxChecks
    ensures Valid(h, maxChecks) && Place(h) == Some(Estimate) && LatestCheck(h) == Wait
    ensures Accepted(h) == n && Started(h) == 3 * n && TimeoutsInARow(h) == 0
    decreases n
  {
    if n == 1 {
      h := GoesOn([], Prepare, maxChecks);
    } else {
      h := ChecksAreUsedUp(maxChecks, n - 1);
      h := WaitsAgain(h, maxChecks);
    }
    h := AcceptsThird(h, maxChecks);
  }
}
