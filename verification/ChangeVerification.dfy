/**
 Change verification (`src/builtins/change-verification.workflow.ts`): attributing each
 check's failure by comparing a candidate run with a base run, and the loop that
 repairs and tries again.
 */
module ChangeVerification {
  import opened Options
  import opened StringOrder

  datatype Outcome = Succeeded | Failed | TimedOut | Cancelled

  /** A command's result; `digest` is the digest of its normalized output. */
  datatype Item = Item(id: string, outcome: Outcome, exitCode: Option<int>, stdoutTruncated: bool,
                       stderrTruncated: bool, digest: string)

  datatype Check = Check(id: string, readOnly: bool, baseEligible: bool)

  datatype Class = Quiet | Related | Unrelated | FixedBaseline | Unknown

  datatype Finding = Finding(checkId: string, digest: string)

  datatype Route = Ready | Repairable | NeedsJudgment | Blocked

  /** The digest of the sorted prints; digests are taken to be collision-free. */
  datatype FailurePrint = FailurePrint(related: seq<string>, unknown: seq<string>, untested: seq<string>)

  datatype Classification = Classification(route: Route, related: seq<Finding>, unrelated: seq<Finding>,
                                           fixed: seq<Finding>, unknown: seq<Finding>, untested: seq<Finding>,
                                           failure: FailurePrint)

  predicate ResultComplete(r: Item) {
    && !r.outcome.TimedOut? && !r.outcome.Cancelled?
    && !r.stdoutTruncated && !r.stderrTruncated
    && !(r.outcome.Failed? && r.exitCode.None?)
  }

  predicate ResultPassed(r: Option<Item>) {
    r.Some? && ResultComplete(r.value) && r.value.outcome.Succeeded? && r.value.exitCode == Some(0)
  }

  /** `new Map(items by id)`: of several items with one id the last counts. */
  function Lookup(items: seq<Item>, id: string): Option<Item> {
    if items == [] then None
    else if items[|items| - 1].id == id then Some(items[|items| - 1])
    else Lookup(items[..|items| - 1], id)
  }

  function PrintOf(r: Option<Item>): string { if r.None? then "missing" else r.value.digest }

  /** One check's verdict: `Quiet` files no finding. */
  function Verdict(check: Check, candidate: Option<Item>, base: Option<Item>): (Class, Finding) {
    var c, b := PrintOf(candidate), PrintOf(base);
    if candidate.None? || !ResultComplete(candidate.value) then (Unknown, Finding(check.id, c))
    else if !check.baseEligible || !check.readOnly then
      (if ResultPassed(candidate) then Quiet else Related, Finding(check.id, c))
    else if base.None? || !ResultComplete(base.value) then
      (if ResultPassed(candidate) then Quiet else Unknown, Finding(check.id, c + ":" + b))
    else if ResultPassed(candidate) then (if ResultPassed(base) then Quiet else FixedBaseline, Finding(check.id, b))
    else if ResultPassed(base) then (Related, Finding(check.id, c))
    else if c == b then (Unrelated, Finding(check.id, c))
    else (Unknown, Finding(check.id, c + ":" + b))
  }

  function VerdictIn(check: Check, candidate: seq<Item>, base: seq<Item>): (Class, Finding) {
    Verdict(check, Lookup(candidate, check.id), Lookup(base, check.id))
  }

  /** The findings of one class, in the order of the checks. */
  function Filed(checks: seq<Check>, candidate: seq<Item>, base: seq<Item>, class_: Class): seq<Finding> {
    if checks == [] then []
    else
      var (k, f) := VerdictIn(checks[|checks| - 1], candidate, base);
      Filed(checks[..|checks| - 1], candidate, base, class_) + if k == class_ then [f] else []
  }

  function Prints(findings: seq<Finding>): seq<string> {
    seq(|findings|, i requires 0 <= i < |findings| => findings[i].digest)
  }

  function FailureOf(related: seq<Finding>, unknown: seq<Finding>, untested: seq<Finding>): FailurePrint {
    FailurePrint(Sorted(Prints(related)), Sorted(Prints(unknown)), Sorted(Prints(untested)))
  }

  function Optional(f: Option<Finding>): seq<Finding> { if f.None? then [] else [f.value] }

  function RouteOf(related: seq<Finding>, unknown: seq<Finding>, untested: seq<Finding>, rejected: bool): Route {
    if rejected then Blocked
    else if unknown != [] || untested != [] then NeedsJudgment
    else if related == [] then Ready
    else Repairable
  }

  /** `classifyVerification`; `cleanup` and `rejected` are the findings of a failed cleanup and a rejected fixer. */
  method ClassifyVerification(checks: seq<Check>, candidate: seq<Item>, base: seq<Item>, untested: seq<Finding>,
                              cleanup: Option<Finding>, rejected: Option<Finding>) returns (r: Classification)
    ensures r.related == Filed(checks, candidate, base, Related)
    ensures r.unrelated == Filed(checks, candidate, base, Unrelated)
    ensures r.fixed == Filed(checks, candidate, base, FixedBaseline)
    ensures r.unknown == Filed(checks, candidate, base, Unknown) + Optional(cleanup) + Optional(rejected)
    ensures r.untested == untested
    ensures r.failure == FailureOf(r.related, r.unknown, r.untested)
    ensures r.route == RouteOf(r.related, r.unknown, r.untested, rejected.Some?)
  {
    var related: seq<Finding>, unrelated: seq<Finding>, fixed: seq<Finding>, unknown: seq<Finding> := [], [], [], [];
    for i := 0 to |checks|
      invariant related == Filed(checks[..i], candidate, base, Related)
      invariant unrelated == Filed(checks[..i], candidate, base, Unrelated)
      invariant fixed == Filed(checks[..i], candidate, base, FixedBaseline)
      invariant unknown == Filed(checks[..i], candidate, base, Unknown)
    {
      assert checks[..i + 1][..i] == checks[..i];
      var (k, f) := VerdictIn(checks[i], candidate, base);
      match k {
        case Related => related := related + [f];
        case Unrelated => unrelated := unrelated + [f];
        case FixedBaseline => fixed := fixed + [f];
        case Unknown => unknown := unknown + [f];
        case Quiet =>
      }
    }
    assert checks[..|checks|] == checks;
    unknown := unknown + Optional(cleanup);
    unknown := unknown + Optional(rejected);
    r := Classification(RouteOf(related, unknown, untested, rejected.Some?), related, unrelated, fixed, unknown,
                        untested, FailureOf(related, unknown, untested));
  }

  // --------------------------------------------------------------- what it means

  /**
   The candidate run shows nothing against the change: the check passed, or a complete base run failed
   the same way.
   */
  predicate Cleared(check: Check, candidate: Option<Item>, base: Option<Item>) {
    || ResultPassed(candidate)
    || (check.baseEligible && check.readOnly
        && candidate.Some? && ResultComplete(candidate.value)
        && base.Some? && ResultComplete(base.value) && !ResultPassed(base)
        && candidate.value.digest == base.value.digest)
  }

  lemma ClearedExactly(check: Check, candidate: Option<Item>, base: Option<Item>)
    ensures Cleared(check, candidate, base)
       <==> !Verdict(check, candidate, base).0.Related? && !Verdict(check, candidate, base).0.Unknown?
  {
  }

  /** Only a read-only check that may run on the base is compared with it. */
  predicate Comparable(check: Check) { check.baseEligible && check.readOnly }

  predicate Complete(r: Option<Item>) { r.Some? && ResultComplete(r.value) }

  /**
   Each of the five verdicts, by what the two runs showed: a failure is the change's when there is no base to compare
   with or the base passed, the base's when it failed there just the same, and undecided when either run is incomplete
   or the two failed differently; a pass is a fix when the base failed.
   */
  lemma AttributedExactly(check: Check, c: Option<Item>, b: Option<Item>)
    ensures Verdict(check, c, b).0.Related? <==>
      Complete(c) && !ResultPassed(c) && (!Comparable(check) || ResultPassed(b))
    ensures Verdict(check, c, b).0.Unrelated? <==>
      && Comparable(check) && Complete(c) && !ResultPassed(c) && Complete(b) && !ResultPassed(b)
      && c.value.digest == b.value.digest
    ensures Verdict(check, c, b).0.FixedBaseline? <==>
      Comparable(check) && ResultPassed(c) && Complete(b) && !ResultPassed(b)
    ensures Verdict(check, c, b).0.Quiet? <==>
      ResultPassed(c) && (!Comparable(check) || !Complete(b) || ResultPassed(b))
    ensures Verdict(check, c, b).0.Unknown? <==>
      || !Complete(c)
      || (&& Comparable(check) && !ResultPassed(c)
          && (!Complete(b) || (!ResultPassed(b) && c.value.digest != b.value.digest)))
    ensures Verdict(check, c, b).1.checkId == check.id
  {
  }

  /** What a finding is filed with: both digests where a base was compared with in vain, and else the failing one. */
  lemma PrintedExactly(check: Check, c: Option<Item>, b: Option<Item>)
    ensures var (k, f) := Verdict(check, c, b);
      && (k.Related? || k.Unrelated? ==> f.digest == PrintOf(c))
      && (k.FixedBaseline? ==> f.digest == PrintOf(b))
      && (k.Unknown? ==> f.digest == if Complete(c) then PrintOf(c) + ":" + PrintOf(b) else PrintOf(c))
  {
  }

  /** A run that timed out, was cancelled or truncated, or failed without an exit code decides nothing. */
  lemma IncompleteIsUnknown(check: Check, c: Item, b: Option<Item>)
    requires c.outcome.TimedOut? || c.outcome.Cancelled? || c.stdoutTruncated || c.stderrTruncated ||
      (c.outcome.Failed? && c.exitCode.None?)
    ensures Verdict(check, Some(c), b).0.Unknown?
  {
  }

  /** And only a run that succeeded with exit code zero and all of its output counts as a pass. */
  lemma PassedExactly(check: Check, c: Item, b: Option<Item>)
    ensures Verdict(check, Some(c), b).0 in {Quiet, FixedBaseline} <==>
      c.outcome.Succeeded? && c.exitCode == Some(0) && !c.stdoutTruncated && !c.stderrTruncated
  {
  }

  predicate LastFor(items: seq<Item>, i: nat, id: string, item: Item)
    requires i < |items|
  {
    items[i] == item && item.id == id && forall j :: i < j < |items| ==> items[j].id != id
  }

  /** Of several results for one check the last counts. */
  lemma {:induction false} LookupIsLast(items: seq<Item>, id: string)
    ensures Lookup(items, id).None? <==> forall item <- items :: item.id != id
    ensures Lookup(items, id).Some? ==> exists i :: 0 <= i < |items| && LastFor(items, i, id, Lookup(items, id).value)
    decreases |items|
  {
    if items != [] && items[|items| - 1].id != id {
      var front := items[..|items| - 1];
      LookupIsLast(front, id);
      assert items == front + [items[|items| - 1]];
      if Lookup(front, id).Some? {
        var i :| 0 <= i < |front| && LastFor(front, i, id, Lookup(front, id).value);
        assert LastFor(items, i, id, Lookup(items, id).value);
      }
    } else if items != [] {
      assert LastFor(items, |items| - 1, id, Lookup(items, id).value);
    }
  }

  /** A finding is filed under a heading exactly when some check's verdict says so. */
  lemma {:induction false} FiledExactly(checks: seq<Check>, candidate: seq<Item>, base: seq<Item>, class_: Class,
                                        f: Finding)
    ensures f in Filed(checks, candidate, base, class_) <==>
      exists check <- checks :: VerdictIn(check, candidate, base) == (class_, f)
    decreases |checks|
  {
    if checks != [] {
      var front, last := checks[..|checks| - 1], checks[|checks| - 1];
      FiledExactly(front, candidate, base, class_, f);
      assert checks == front + [last];
    }
  }

  lemma {:induction false} NoneFiledExactly(checks: seq<Check>, candidate: seq<Item>, base: seq<Item>, class_: Class)
    ensures Filed(checks, candidate, base, class_) == []
       <==> forall check <- checks :: VerdictIn(check, candidate, base).0 != class_
    decreases |checks|
  {
    if checks != [] {
      NoneFiledExactly(checks[..|checks| - 1], candidate, base, class_);
      assert checks == checks[..|checks| - 1] + [checks[|checks| - 1]];
    }
  }

  /**
   A verification is ready exactly when every check is cleared, nothing was left untested,
   the base worktree was cleaned up and no fixer was rejected.
   */
  lemma ReadyExactly(checks: seq<Check>, candidate: seq<Item>, base: seq<Item>, untested: seq<Finding>,
                     cleanup: Option<Finding>, rejected: Option<Finding>)
    ensures RouteOf(Filed(checks, candidate, base, Related),
                    Filed(checks, candidate, base, Unknown) + Optional(cleanup) + Optional(rejected),
                    untested, rejected.Some?) == Ready
       <==> && untested == [] && cleanup.None? && rejected.None?
            && forall check <- checks :: Cleared(check, Lookup(candidate, check.id), Lookup(base, check.id))
  {
    NoneFiledExactly(checks, candidate, base, Related);
    NoneFiledExactly(checks, candidate, base, Unknown);
    forall check <- checks
      ensures Cleared(check, Lookup(candidate, check.id), Lookup(base, check.id))
         <==> !VerdictIn(check, candidate, base).0.Related? && !VerdictIn(check, candidate, base).0.Unknown?
    {
      ClearedExactly(check, Lookup(candidate, check.id), Lookup(base, check.id));
    }
  }

  // ------------------------------------------------------------ blind to the order of checks

  lemma {:induction false} FiledConcat(a: seq<Check>, b: seq<Check>, candidate: seq<Item>, base: seq<Item>,
                                       class_: Class)
    ensures Filed(a + b, candidate, base, class_)
       == Filed(a, candidate, base, class_) + Filed(b, candidate, base, class_)
    decreases |b|
  {
    if b == [] {
      assert a + b == a;
    } else {
      assert (a + b)[..|a + b| - 1] == a + b[..|b| - 1];
      FiledConcat(a, b[..|b| - 1], candidate, base, class_);
    }
  }

  /** The prints that one check contributes to a heading. */
  function Printed(checks: seq<Check>, candidate: seq<Item>, base: seq<Item>, class_: Class): multiset<string> {
    multiset(Prints(Filed(checks, candidate, base, class_)))
  }

  lemma PrintsConcat(x: seq<Finding>, y: seq<Finding>)
    ensures multiset(Prints(x + y)) == multiset(Prints(x)) + multiset(Prints(y))
  {
    assert Prints(x + y) == Prints(x) + Prints(y);
  }

  lemma PrintedConcat(a: seq<Check>, b: seq<Check>, candidate: seq<Item>, base: seq<Item>, class_: Class)
    ensures Printed(a + b, candidate, base, class_)
       == Printed(a, candidate, base, class_) + Printed(b, candidate, base, class_)
  {
    FiledConcat(a, b, candidate, base, class_);
    PrintsConcat(Filed(a, candidate, base, class_), Filed(b, candidate, base, class_));
  }

  lemma Without(checks: seq<Check>, i: nat)
    requires i < |checks|
    ensures multiset(checks) == multiset(checks[..i] + checks[i + 1..]) + multiset{checks[i]}
  {
    assert checks == checks[..i] + ([checks[i]] + checks[i + 1..]);
  }

  /** Taking one check out of a list takes out what it contributes. */
  lemma PrintedWithout(checks: seq<Check>, i: nat, candidate: seq<Item>, base: seq<Item>, class_: Class)
    requires i < |checks|
    ensures Printed(checks, candidate, base, class_)
         == Printed(checks[..i] + checks[i + 1..], candidate, base, class_)
            + Printed([checks[i]], candidate, base, class_)
  {
    assert checks == checks[..i] + ([checks[i]] + checks[i + 1..]);
    PrintedConcat(checks[..i], [checks[i]] + checks[i + 1..], candidate, base, class_);
    PrintedConcat([checks[i]], checks[i + 1..], candidate, base, class_);
    PrintedConcat(checks[..i], checks[i + 1..], candidate, base, class_);
  }

  lemma Cancelled(m: multiset<Check>, n: multiset<Check>, x: Check)
    requires m + multiset{x} == n + multiset{x}
    ensures m == n
  {
    assert m == (m + multiset{x}) - multiset{x} && n == (n + multiset{x}) - multiset{x};
  }

  lemma TakeOut(a: seq<Check>, b: seq<Check>) returns (i: nat)
    requires a != [] && multiset(a) == multiset(b)
    ensures i < |b| && b[i] == a[0] && multiset(a[..0] + a[1..]) == multiset(b[..i] + b[i + 1..])
  {
    assert a[0] in multiset(b);
    i :| 0 <= i < |b| && b[i] == a[0];
    Without(a, 0);
    Without(b, i);
    Cancelled(multiset(a[..0] + a[1..]), multiset(b[..i] + b[i + 1..]), a[0]);
  }

  lemma {:induction false} PrintedInAnyOrder(a: seq<Check>, b: seq<Check>, candidate: seq<Item>, base: seq<Item>,
                                             class_: Class)
    requires multiset(a) == multiset(b)
    ensures Printed(a, candidate, base, class_) == Printed(b, candidate, base, class_)
    decreases |a|
  {
    if a == [] {
      assert |multiset(b)| == 0;
      assert b == [];
    } else {
      var i := TakeOut(a, b);
      PrintedWithout(a, 0, candidate, base, class_);
      PrintedWithout(b, i, candidate, base, class_);
      PrintedInAnyOrder(a[..0] + a[1..], b[..i] + b[i + 1..], candidate, base, class_);
    }
  }

  /** What a verification has seen. */
  datatype Evidence = Evidence(checks: seq<Check>, candidate: seq<Item>, base: seq<Item>, untested: seq<Finding>,
                               cleanup: Option<Finding>, rejected: Option<Finding>)

  function RelatedIn(e: Evidence): seq<Finding> { Filed(e.checks, e.candidate, e.base, Related) }

  function UnknownIn(e: Evidence): seq<Finding> {
    Filed(e.checks, e.candidate, e.base, Unknown) + Optional(e.cleanup) + Optional(e.rejected)
  }

  function RouteFrom(e: Evidence): Route { RouteOf(RelatedIn(e), UnknownIn(e), e.untested, e.rejected.Some?) }

  function FailureFrom(e: Evidence): FailurePrint { FailureOf(RelatedIn(e), UnknownIn(e), e.untested) }

  lemma SameEmptiness(x: seq<Finding>, y: seq<Finding>)
    requires multiset(Prints(x)) == multiset(Prints(y))
    ensures x == [] <==> y == []
  {
    assert |multiset(Prints(x))| == |x| && |multiset(Prints(y))| == |y|;
  }

  /** Neither the route nor the failure fingerprint depends on the order in which the checks are listed. */
  lemma OrderOfChecksIsIrrelevant(e: Evidence, checks: seq<Check>)
    requires multiset(checks) == multiset(e.checks)
    ensures RouteFrom(e.(checks := checks)) == RouteFrom(e)
    ensures FailureFrom(e.(checks := checks)) == FailureFrom(e)
  {
    var f := e.(checks := checks);
    PrintedInAnyOrder(checks, e.checks, e.candidate, e.base, Related);
    PrintedInAnyOrder(checks, e.checks, e.candidate, e.base, Unknown);
    var more := Optional(e.cleanup) + Optional(e.rejected);
    UnknownPrints(f, more);
    UnknownPrints(e, more);
    SameEmptiness(RelatedIn(f), RelatedIn(e));
    SameEmptiness(UnknownIn(f), UnknownIn(e));
    FailureForgetsOrderOnly(RelatedIn(f), UnknownIn(f), f.untested, RelatedIn(e), UnknownIn(e), e.untested);
  }

  lemma UnknownPrints(e: Evidence, more: seq<Finding>)
    requires more == Optional(e.cleanup) + Optional(e.rejected)
    ensures multiset(Prints(UnknownIn(e))) == Printed(e.checks, e.candidate, e.base, Unknown) + multiset(Prints(more))
  {
    var filed := Filed(e.checks, e.candidate, e.base, Unknown);
    assert UnknownIn(e) == filed + more;
    assert Prints(filed + more) == Prints(filed) + Prints(more);
  }

  lemma SortedPrints(a: seq<Finding>, b: seq<Finding>)
    ensures Sorted(Prints(a)) == Sorted(Prints(b)) <==> multiset(Prints(a)) == multiset(Prints(b))
  {
    if multiset(Prints(a)) == multiset(Prints(b)) { SortedForgetsOrder(Prints(a), Prints(b)); }
  }

  /** The failure fingerprint names the prints of each heading, and nothing about their order. */
  lemma FailureForgetsOrderOnly(r1: seq<Finding>, u1: seq<Finding>, t1: seq<Finding>,
                                r2: seq<Finding>, u2: seq<Finding>, t2: seq<Finding>)
    ensures FailureOf(r1, u1, t1) == FailureOf(r2, u2, t2)
       <==> && multiset(Prints(r1)) == multiset(Prints(r2))
            && multiset(Prints(u1)) == multiset(Prints(u2))
            && multiset(Prints(t1)) == multiset(Prints(t2))
  {
    SortedPrints(r1, r2);
    SortedPrints(u1, u2);
    SortedPrints(t1, t2);
  }

  // ------------------------------------------------------------------ the repair loop

  const MAX_REPAIR_ATTEMPTS: nat := 2
  const MAX_STEPS: nat := 30

  datatype Node =
    | SelectChecks | PlanChecks | RunCandidate | RunBase | Classify | RepairGuard | MechanicalRepair | SemanticRepair
    | Judge | ReadyExit | BlockedExit

  datatype Move = ToRun | ToPlan | ToReady | ToRepair | ToJudge | ToBlocked | ToMechanical | ToSemantic | Done

  /** What a classification comes to. */
  datatype Found = Found(route: Route, failure: FailurePrint)

  function FoundFrom(e: Evidence): Found { Found(RouteFrom(e), FailureFrom(e)) }

  /** A step; `failure` is the fingerprint a repair was made for. */
  datatype Step = Step(node: Node, move: Move, failure: Option<FailurePrint>, found: Option<Found>)

  function MoveOn(route: Route): Move {
    match route
    case Ready => ToReady
    case Repairable => ToRepair
    case NeedsJudgment => ToJudge
    case Blocked => ToBlocked
  }

  /** The edges. */
  function Next(x: Step): Option<Node> {
    match x.node
    case SelectChecks => (match x.move case ToRun => Some(RunCandidate) case ToPlan => Some(PlanChecks) case _ => None)
    case PlanChecks => Some(RunCandidate)
    case RunCandidate => Some(RunBase)
    case RunBase => Some(Classify)
    case Classify =>
      (match x.move
       case ToReady => Some(ReadyExit)
       case ToRepair => Some(RepairGuard)
       case ToJudge => Some(Judge)
       case ToBlocked => Some(BlockedExit)
       case _ => None)
    case RepairGuard =>
      (match x.move
       case ToMechanical => Some(MechanicalRepair)
       case ToSemantic => Some(SemanticRepair)
       case ToBlocked => Some(BlockedExit)
       case _ => None)
    case MechanicalRepair => Some(RunCandidate)
    case SemanticRepair => Some(RunCandidate)
    case Judge =>
      (match x.move
       case ToReady => Some(ReadyExit)
       case ToRepair => Some(RepairGuard)
       case ToBlocked => Some(BlockedExit)
       case _ => None)
    case ReadyExit => None
    case BlockedExit => None
  }

  function Place(h: seq<Step>): Option<Node> {
    if h == [] then Some(SelectChecks) else Next(h[|h| - 1])
  }

  predicate IsRepair(x: Step) { x.node.MechanicalRepair? || x.node.SemanticRepair? }

  /** The fingerprints of the repairs made so far. */
  function Repairs(h: seq<Step>): seq<Option<FailurePrint>> {
    if h == [] then []
    else Repairs(h[..|h| - 1]) + if IsRepair(h[|h| - 1]) then [h[|h| - 1].failure] else []
  }

  function LatestFound(h: seq<Step>): Option<Found> {
    if h == [] then None
    else if h[|h| - 1].node.Classify? then h[|h| - 1].found
    else LatestFound(h[..|h| - 1])
  }

  function LatestFailure(h: seq<Step>): Option<FailurePrint> {
    if LatestFound(h).None? then None else Some(LatestFound(h).value.failure)
  }

  /** `repairGuard`: no third repair, and no second one for the same failures. */
  predicate Records(h: seq<Step>, x: Step) {
    match x.node
    case Classify => x.found.Some? && x.move == MoveOn(x.found.value.route)
    case RepairGuard =>
      if MAX_REPAIR_ATTEMPTS <= |Repairs(h)| || LatestFailure(h) in Repairs(h) then x.move == ToBlocked
      else x.move == ToMechanical || x.move == ToSemantic
    case MechanicalRepair => x.failure == LatestFailure(h)
    case SemanticRepair => x.failure == LatestFailure(h)
    case _ => true
  }

  predicate Valid(h: seq<Step>)
    decreases |h|
  {
    h == []
    || (&& Valid(h[..|h| - 1]) && Place(h[..|h| - 1]) == Some(h[|h| - 1].node)
        && Records(h[..|h| - 1], h[|h| - 1]))
  }

  /** How many steps a run can still take from here. */
  function Left(place: Option<Node>, repairs: nat): nat {
    var rounds := if repairs <= MAX_REPAIR_ATTEMPTS then MAX_REPAIR_ATTEMPTS - repairs else 0;
    if place.None? then 0
    else
      match place.value
      case SelectChecks => 8 + 6 * rounds
      case PlanChecks => 7 + 6 * rounds
      case RunCandidate => 6 + 6 * rounds
      case RunBase => 5 + 6 * rounds
      case Classify => 4 + 6 * rounds
      case Judge => 3 + 6 * rounds
      case RepairGuard => 2 + 6 * rounds
      case MechanicalRepair => 1 + 6 * rounds
      case SemanticRepair => 1 + 6 * rounds
      case ReadyExit => 1
      case BlockedExit => 1
  }

  predicate DistinctFailures(failures: seq<Option<FailurePrint>>) {
    forall i, j :: 0 <= i < j < |failures| ==> failures[i] != failures[j]
  }

  predicate DistinctRepairs(h: seq<Step>) { DistinctFailures(Repairs(h)) }

  lemma OneMoreFailure(failures: seq<Option<FailurePrint>>, f: Option<FailurePrint>)
    requires DistinctFailures(failures) && f !in failures
    ensures DistinctFailures(failures + [f])
  {
  }

  predicate Open(h: seq<Step>) { |Repairs(h)| < MAX_REPAIR_ATTEMPTS && LatestFailure(h) !in Repairs(h) }

  /** One step uses up at least one of the steps that were left. */
  lemma StepUses(x: Step, n: nat)
    requires IsRepair(x) ==> n < MAX_REPAIR_ATTEMPTS
    requires n <= MAX_REPAIR_ATTEMPTS
    ensures 1 + Left(Next(x), if IsRepair(x) then n + 1 else n) <= Left(Some(x.node), n)
  {
  }

  /** A repair is entered from the guard only, which has checked both conditions. */
  lemma GuardOpens(b: seq<Step>, x: Step)
    requires Records(b, x) && (Next(x) == Some(MechanicalRepair) || Next(x) == Some(SemanticRepair))
    ensures x.node.RepairGuard? && Open(b)
  {
  }

  lemma RepairsMore(b: seq<Step>, x: Step)
    ensures Repairs(b + [x]) == if IsRepair(x) then Repairs(b) + [x.failure] else Repairs(b)
    ensures LatestFound(b + [x]) == if x.node.Classify? then x.found else LatestFound(b)
  {
    assert (b + [x])[..|b|] == b;
  }

  /** The bounds on a history that stands somewhere. */
  predicate Bounded(h: seq<Step>) {
    && |h| + Left(Place(h), |Repairs(h)|) <= 20
    && |Repairs(h)| <= MAX_REPAIR_ATTEMPTS && DistinctRepairs(h)
    && (Place(h) == Some(MechanicalRepair) || Place(h) == Some(SemanticRepair) ==> Open(h))
  }

  lemma StepBounded(b: seq<Step>, x: Step, h: seq<Step>)
    requires h == b + [x] && Place(b) == Some(x.node) && Records(b, x) && Bounded(b)
    ensures Bounded(h)
  {
    RepairsMore(b, x);
    if IsRepair(x) { OneMoreFailure(Repairs(b), x.failure); }
    StepUses(x, |Repairs(b)|);
    if Place(h) == Some(MechanicalRepair) || Place(h) == Some(SemanticRepair) { GuardOpens(b, x); }
  }

  lemma LastApart(h: seq<Step>)
    requires h != []
    ensures h == h[..|h| - 1] + [h[|h| - 1]]
  {
  }

  lemma {:induction false} RunBounded(h: seq<Step>)
    requires Valid(h)
    ensures Bounded(h)
    decreases |h|
  {
    if h != [] {
      LastApart(h);
      RunBounded(h[..|h| - 1]);
      StepBounded(h[..|h| - 1], h[|h| - 1], h);
    }
  }

  /**
   Whatever the checks, the judge and the fixers do, a verification makes at most two
   repairs, each for another set of failures, and ends within twenty steps, so its own
   limit of thirty is never what stops it.
   */
  lemma RepairTerminates(h: seq<Step>)
    requires Valid(h)
    ensures |Repairs(h)| <= 2 && DistinctRepairs(h) && |h| <= 20 < MAX_STEPS
    ensures |h| == 20 ==> Place(h).None?
  {
    RunBounded(h);
  }

  lemma ClassifiedAs(b: seq<Step>, x: Step)
    requires Records(b, x)
    ensures Next(x) == Some(Judge) ==> x.node.Classify? && x.found.Some? && x.found.value.route == NeedsJudgment
    ensures Next(x) == Some(ReadyExit) ==>
      x.node.Judge? || (x.node.Classify? && x.found.Some? && x.found.value.route == Ready)
  {
  }

  /** The route at a ready exit: ready, or with the judge in between, in need of judgment. */
  lemma RouteAtReadyExit(h: seq<Step>)
    requires Valid(h) && Place(h) == Some(ReadyExit)
    ensures h != [] && LatestFound(h).Some?
    ensures LatestFound(h).value.route == if h[|h| - 1].node.Judge? then NeedsJudgment else Ready
  {
    var b, x := h[..|h| - 1], h[|h| - 1];
    assert h == b + [x];
    ClassifiedAs(b, x);
    RepairsMore(b, x);
    if x.node.Judge? {
      assert b == b[..|b| - 1] + [b[|b| - 1]];
      ClassifiedAs(b[..|b| - 1], b[|b| - 1]);
      RepairsMore(b[..|b| - 1], b[|b| - 1]);
    }
  }

  /** Nothing speaks against the change. */
  predicate AllClear(e: Evidence) {
    && e.untested == [] && e.cleanup.None? && e.rejected.None?
    && forall check <- e.checks :: Cleared(check, Lookup(e.candidate, check.id), Lookup(e.base, check.id))
  }

  /** What the route of some evidence says about it. */
  lemma RouteTells(e: Evidence)
    ensures RouteFrom(e) == Ready <==> AllClear(e)
    ensures RouteFrom(e) == NeedsJudgment <==> e.rejected.None? && (UnknownIn(e) != [] || e.untested != [])
    ensures RouteFrom(e) == Blocked <==> e.rejected.Some?
    ensures RouteFrom(e) == Repairable <==>
      e.rejected.None? && UnknownIn(e) == [] && e.untested == [] && RelatedIn(e) != []
  {
    ReadyExactly(e.checks, e.candidate, e.base, e.untested, e.cleanup, e.rejected);
  }

  /**
   A verification leaves as ready without the judge exactly when the evidence of its latest classification is
   all clear; the judge can say ready only of evidence with something unknown or left out and no rejected fixer.
   */
  lemma ReadyExitMeansClear(h: seq<Step>, e: Evidence)
    requires Valid(h) && Place(h) == Some(ReadyExit) && LatestFound(h) == Some(FoundFrom(e))
    ensures h != [] && (AllClear(e) <==> !h[|h| - 1].node.Judge?)
    ensures h[|h| - 1].node.Judge? ==> e.rejected.None? && (UnknownIn(e) != [] || e.untested != [])
  {
    RouteAtReadyExit(h);
    RouteTells(e);
  }

  lemma NextOfClassify(x: Step)
    requires x.node.Classify? && x.found.Some? && x.move == MoveOn(x.found.value.route)
    ensures Next(x) == Some(
      match x.found.value.route
      case Ready => ReadyExit
      case Repairable => Node.RepairGuard
      case NeedsJudgment => Node.Judge
      case Blocked => BlockedExit)
  {
  }

  /** Where a classification leads, by its evidence. */
  lemma ClassificationLeads(b: seq<Step>, x: Step, e: Evidence)
    requires x.node.Classify? && Records(b, x) && x.found == Some(FoundFrom(e))
    ensures Next(x) == Some(ReadyExit) <==> AllClear(e)
    ensures Next(x) == Some(BlockedExit) <==> e.rejected.Some?
    ensures Next(x) == Some(Judge) <==> e.rejected.None? && (UnknownIn(e) != [] || e.untested != [])
    ensures Next(x) == Some(RepairGuard) <==>
      e.rejected.None? && UnknownIn(e) == [] && e.untested == [] && RelatedIn(e) != []
  {
    RouteTells(e);
    NextOfClassify(x);
  }

  /** The guard refuses a repair exactly when two have been made, or one for the same failures. */
  lemma RepairRefusedExactly(b: seq<Step>, x: Step)
    requires x.node.RepairGuard? && Records(b, x)
    ensures Next(x) == Some(BlockedExit) <==> |Repairs(b)| >= 2 || LatestFailure(b) in Repairs(b)
    ensures Next(x) != Some(BlockedExit) ==> Next(x) == Some(MechanicalRepair) || Next(x) == Some(SemanticRepair)
  {
  }

  // -------------------------------------------------------- the bounds are reached

  /** One round that finds `f`, asks the judge and goes on as the guard decides. */
  function Judged(f: FailurePrint, guard: Move): seq<Step> {
    [Step(RunCandidate, Done, None, None), Step(RunBase, Done, None, None),
     Step(Classify, ToJudge, None, Some(Found(NeedsJudgment, f))), Step(Judge, ToRepair, None, None),
     Step(Node.RepairGuard, guard, None, None)]
  }

  lemma Extends(h: seq<Step>, x: Step)
    requires Valid(h) && Place(h) == Some(x.node) && Records(h, x)
    ensures Valid(h + [x]) && Place(h + [x]) == Next(x)
    ensures Repairs(h + [x]) == if IsRepair(x) then Repairs(h) + [x.failure] else Repairs(h)
    ensures LatestFound(h + [x]) == if x.node.Classify? then x.found else LatestFound(h)
  {
    RepairsMore(h, x);
    assert (h + [x])[..|h|] == h;
  }

  /** Candidate, base and classification, whatever they find. */
  lemma FoundFits(h: seq<Step>, r: seq<Step>, f: FailurePrint, guard: Move) returns (h': seq<Step>)
    requires Valid(h) && Place(h) == Some(RunCandidate) && r == Judged(f, guard)
    ensures h' == h + r[..3] && Valid(h') && Place(h') == Some(Judge)
    ensures Repairs(h') == Repairs(h) && LatestFailure(h') == Some(f)
  {
    Extends(h, r[0]);
    h' := h + [r[0]];
    Extends(h', r[1]);
    h' := h' + [r[1]];
    Extends(h', r[2]);
    h' := h' + [r[2]];
  }

  lemma JudgedFits(h: seq<Step>, f: FailurePrint, guard: Move)
    requires Valid(h) && Place(h) == Some(RunCandidate)
    requires if |Repairs(h)| < 2 && Some(f) !in Repairs(h) then guard == ToSemantic else guard == ToBlocked
    ensures var h' := h + Judged(f, guard);
      && Valid(h') && Repairs(h') == Repairs(h) && LatestFailure(h') == Some(f)
      && Place(h') == Some(if guard == ToBlocked then BlockedExit else SemanticRepair)
  {
    var r := Judged(f, guard);
    var h3 := FoundFits(h, r, f, guard);
    Extends(h3, r[3]);
    var h4 := h3 + [r[3]];
    Extends(h4, r[4]);
    assert h + r == h4 + [r[4]];
  }

  lemma AfterRepair(h: seq<Step>, f: FailurePrint) returns (h': seq<Step>)
    requires Valid(h) && Place(h) == Some(RunCandidate) && |Repairs(h)| < 2 && Some(f) !in Repairs(h)
    ensures Valid(h') && Place(h') == Some(RunCandidate) && Repairs(h') == Repairs(h) + [Some(f)] && |h'| == |h| + 6
  {
    JudgedFits(h, f, ToSemantic);
    h' := h + Judged(f, ToSemantic);
    var repair := Step(SemanticRepair, Done, Some(f), None);
    Extends(h', repair);
    h' := h' + [repair];
  }

  lemma TwoRepairs(first: FailurePrint, second: FailurePrint) returns (h: seq<Step>)
    requires first != second
    ensures Valid(h) && Place(h) == Some(RunCandidate) && Repairs(h) == [Some(first), Some(second)] && |h| == 14
  {
    var x, y := Step(SelectChecks, ToPlan, None, None), Step(PlanChecks, Done, None, None);
    Extends([], x);
    Extends([] + [x], y);
    h := AfterRepair([] + [x] + [y], first);
    h := AfterRepair(h, second);
  }

  /** Two different failures, and a third, can take a run to exactly two repairs and twenty steps. */
  lemma TwentyStepsHappen(first: FailurePrint, second: FailurePrint, third: FailurePrint) returns (h: seq<Step>)
    requires first != second
    ensures Valid(h) && Repairs(h) == [Some(first), Some(second)] && |h| == 20 && Place(h).None?
  {
    h := TwoRepairs(first, second);
    JudgedFits(h, third, ToBlocked);
    h := h + Judged(third, ToBlocked);
    var end := Step(BlockedExit, Done, None, None);
    Extends(h, end);
    h := h + [end];
  }
}
