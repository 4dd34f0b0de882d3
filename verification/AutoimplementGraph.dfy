/**
 The autoimplement graph (`src/builtins/autoimplement.workflow.ts`): its nodes, what a
 node may record given the steps before it, and the edges table. An included workflow
 is one step here, named after its mount and recorded when it leaves through an exit,
 which is how the parent's callbacks see it.
 */
module AutoimplementGraph {
  import opened Options

  datatype Node =
    | Prepare | FindPlan | RouteFoundPlan | Workspace | RouteWorkspace | Documentation | Redesign | AdoptPlan
    | Implement | ClassifyImplementation | Fix
    | SelectVerificationPath | PlanVerification | LocalVerification | RouteVerifiedWorkspace
    | Publish | SelectReviewCommands | RunReview | RepairReviewCommand
    | AssessReview | RecoverReviewAssessment | ReviewAssessmentRecoveryBlocked | RouteReviewAssessment | TriageReview
    | AddressP2 | VerifyP2 | RouteVerifyP2Result
    | InspectComments | RouteInspectCommentsResult
    | InspectCi | RouteInspectCiResult | TrackCi | RepairCiCommand | AssessTrackedCi | OpportunisticTest | ClassifyCi
    | FinalizeDelivery | RouteFinalizeDeliveryResult | FinalizeDefaultBranch | RouteFinalizeDefaultBranchResult
    | TimeoutFallbackGuard | TimeoutFallback | RouteTimeoutFallback | PropagateSupportedFailure
    | ChallengeBlockerGuard | ChallengeBlocker | RouteBlockerRecovery
    | Blocked | Finalize

  datatype Outcome = Succeeded | TimedOut | Failed | Cancelled

  datatype Route =
    | Find | ToWorkspace | Found | ToImplement | Document
    | Verify | Redo | Repairable | Unmovable
    | Plan | PullRequest | DefaultBranch
    | Run | Reuse | Assess | Repair | Retry | CommandError | Critical | P2 | Clean
    | Ci | Green | Red | Pending | Unavailable | Unrelated
    | Recover | ToReview | Deliver | Replan
    | Challenge | Continue

  datatype Origin =
    FromImplementation | FromVerification | FromReviewer | FromComments | FromCi | FromDelivery | FromDefaultBranch

  type Id = string

  datatype Repo = Repo(id: Id, branch: string, baseBranch: string, baseRevision: string,
                       headRevision: string, pr: string, fingerprint: Option<string>)

  /** One repository's entry in a review round; `succeeded` is `invocationSucceeded`. */
  datatype Review = Review(repo: Repo, succeeded: bool, critical: nat, p2: nat)

  datatype Target = Target(id: Id, headRevision: string, pr: string, route: Route)

  datatype Output =
    | Nothing
    | Routed(route: Route)
    | GoTo(node: Node)
    | Guarded(route: Route, origin: Option<Origin>)
    | Challenged(route: Route, claimed: Origin, recovery: Node)
    | Published(repositories: seq<Repo>)
    | P2Checked(passed: bool, repositories: seq<Repo>)
    | Selected(route: Route, repositories: seq<Repo>)
    | Batch(route: Route, clean: set<Id>)
    | Assessed(route: Route, reviews: seq<Review>)
    | CiSeen(route: Route, targets: seq<Target>)
    | Exited(ready: bool)
    | Delivered(completed: bool)

  /** A recorded step; a step that did not succeed carries no output. */
  datatype Step = Step(node: Node, outcome: Outcome, output: Output)

  type History = seq<Step>

  const MAX_TIMEOUT_FALLBACKS: nat := 3
  const MAX_BLOCKER_CHALLENGES: nat := 3

  // --------------------------------------------------------- reading the history

  /** The latest step that satisfies `p`, or -1. */
  function LatestStepIndex(h: History, p: Step -> bool): (i: int)
    ensures -1 <= i < |h|
  {
    if |h| == 0 then -1
    else if p(h[|h| - 1]) then |h| - 1
    else LatestStepIndex(h[..|h| - 1], p)
  }

  /** The source's backward loop. */
  method FindLatestStep(h: History, p: Step -> bool) returns (i: int)
    ensures i == LatestStepIndex(h, p)
  {
    i := |h| - 1;
    while 0 <= i
      invariant -1 <= i < |h|
      invariant forall k :: i < k < |h| ==> !p(h[k])
      decreases i
    {
      if p(h[i]) { break; }
      i := i - 1;
    }
    LatestIsUnique(h, p, i);
  }

  lemma {:induction false} LatestIsLatest(h: History, p: Step -> bool)
    ensures var i := LatestStepIndex(h, p);
      (0 <= i ==> p(h[i])) && forall k :: i < k < |h| ==> !p(h[k])
  {
    if |h| != 0 && !p(h[|h| - 1]) {
      LatestIsLatest(h[..|h| - 1], p);
    }
  }

  lemma LatestIsUnique(h: History, p: Step -> bool, i: int)
    requires -1 <= i < |h|
    requires 0 <= i ==> p(h[i])
    requires forall k :: i < k < |h| ==> !p(h[k])
    ensures i == LatestStepIndex(h, p)
  {
    LatestIsLatest(h, p);
    var j := LatestStepIndex(h, p);
    assert !(i < j) && !(j < i);
  }

  lemma Appended(h: History, x: Step, p: Step -> bool)
    ensures LatestStepIndex(h + [x], p) == if p(x) then |h| else LatestStepIndex(h, p)
  {
    assert (h + [x])[..|h|] == h;
  }

  function Count(h: History, p: Step -> bool): nat {
    if |h| == 0 then 0 else Count(h[..|h| - 1], p) + (if p(h[|h| - 1]) then 1 else 0)
  }

  lemma Counted(h: History, x: Step, p: Step -> bool)
    ensures Count(h + [x], p) == Count(h, p) + if p(x) then 1 else 0
  {
    assert (h + [x])[..|h|] == h;
  }

  predicate Ok(x: Step) { x.outcome.Succeeded? }

  predicate IsWorkAttempt(x: Step) { x.node.Implement? || x.node.Fix? || x.node.AddressP2? }

  predicate IsVerified(x: Step) { Ok(x) && x.node.LocalVerification? && x.output == Exited(true) }

  predicate IsPublishing(x: Step) { x.node.Publish? }

  predicate IsPublicationAttempt(x: Step) { x.node.Publish? || x.node.VerifyP2? }

  predicate IsPublication(x: Step) {
    Ok(x) && (x.node.Publish? || (x.node.VerifyP2? && x.output.P2Checked? && x.output.passed))
  }

  predicate IsSelection(x: Step) { x.node.SelectReviewCommands? }

  predicate IsReviewRun(x: Step) { x.node.RunReview? }

  predicate IsReviewRound(x: Step) { Ok(x) && (x.node.AssessReview? || x.node.RecoverReviewAssessment?) }

  predicate IsAssessment(x: Step) { x.node.AssessReview? || x.node.RecoverReviewAssessment? }

  predicate IsRepair(x: Step) { Ok(x) && x.node.RepairReviewCommand? }

  predicate IsComments(x: Step) { Ok(x) && x.node.InspectComments? }

  predicate IsInspection(x: Step) { x.node.InspectCi? }

  predicate IsCi(x: Step) { Ok(x) && (x.node.InspectCi? || x.node.AssessTrackedCi?) }

  predicate IsClassification(x: Step) { Ok(x) && x.node.ClassifyCi? }

  predicate IsFallback(x: Step) { Ok(x) && x.node.TimeoutFallback? }

  predicate IsChallenge(x: Step) { Ok(x) && x.node.ChallengeBlocker? }

  predicate FallbackSource(n: Node) {
    || n.Implement? || n.PlanVerification? || n.Fix? || n.Publish? || n.AddressP2? || n.VerifyP2?
    || n.InspectComments? || n.InspectCi? || n.OpportunisticTest? || n.FinalizeDefaultBranch? || n.FinalizeDelivery?
  }

  predicate IsSupportedTimeout(x: Step) { x.outcome.TimedOut? && FallbackSource(x.node) }

  function StepAt(h: History, i: int): Option<Step> {
    if 0 <= i < |h| then Some(h[i]) else None
  }

  /** `latestOutput`: the latest step of these nodes, whatever its outcome. */
  function LatestOutput(h: History, p: Step -> bool): Output {
    var i := LatestStepIndex(h, p);
    if i < 0 then Nothing else h[i].output
  }

  /** `context.outputs[node]`: dropped again when a later attempt does not succeed. */
  function OutputOf(h: History, node: Node): Output {
    var i := LatestStepIndex(h, (x: Step) => x.node == node);
    if i < 0 || !h[i].outcome.Succeeded? then Nothing else h[i].output
  }

  predicate RouteIs(h: History, i: int, route: Route) {
    0 <= i < |h| && match h[i].output
                    case Routed(r) => r == route
                    case CiSeen(r, _) => r == route
                    case _ => false
  }

  function WorkIndex(h: History): int { LatestStepIndex(h, IsWorkAttempt) }

  function PublicationIndex(h: History): int { LatestStepIndex(h, IsPublication) }

  function CommentsIndex(h: History): int { LatestStepIndex(h, IsComments) }

  function CiIndex(h: History): int { LatestStepIndex(h, IsCi) }

  predicate HasCurrentAcceptedWork(h: History) {
    var i := WorkIndex(h);
    0 <= i && h[i].outcome.Succeeded?
  }

  predicate HasCurrentPublication(h: History) { WorkIndex(h) < PublicationIndex(h) }

  function CurrentCommentsIndex(h: History): int {
    var i := CommentsIndex(h);
    if PublicationIndex(h) < i && RouteIs(h, i, Ci) then i else -1
  }

  predicate HasCurrentReadyCi(h: History) {
    var c := CurrentCommentsIndex(h);
    var i := CiIndex(h);
    && 0 <= c < i
    && (RouteIs(h, i, Green)
        || (RouteIs(h, i, Red)
            && i < LatestStepIndex(h, IsClassification)
            && RouteIs(h, LatestStepIndex(h, IsClassification), Unrelated)))
  }

  function LatestTimedOut(h: History): Option<Node> {
    var i := LatestStepIndex(h, IsSupportedTimeout);
    if i < 0 then None else Some(h[i].node)
  }

  predicate RepairAttempted(h: History) { 0 <= LatestStepIndex(h, IsRepair) }

  // ---------------------------------------------------------- timeout fallbacks

  predicate FallbackAllowed(source: Node, route: Route) {
    match route
    case Retry => true
    case Replan => true
    case Unmovable => true
    case Verify => source.PlanVerification?
    case ToReview => source.InspectComments?
    case Ci => source.InspectComments? || source.InspectCi? || source.OpportunisticTest?
    case Deliver => source.InspectCi? || source.OpportunisticTest? || source.FinalizeDelivery?
    case _ => false
  }

  /** `parseTimeoutFallback`: which route of the model's is accepted. */
  predicate FallbackAccepted(h: History, route: Route) {
    && LatestTimedOut(h).Some?
    && FallbackAllowed(LatestTimedOut(h).value, route)
    && (route.Verify? ==> HasCurrentAcceptedWork(h))
    && (route.ToReview? || route.Ci? || route.Deliver? ==> HasCurrentPublication(h))
    && (route.Ci? ==> 0 <= CurrentCommentsIndex(h))
    && (route.Deliver? ==> HasCurrentReadyCi(h))
  }

  function FallbackTarget(source: Node, route: Route): Node {
    match route
    case Verify => SelectVerificationPath
    case ToReview => SelectReviewCommands
    case Ci => InspectCi
    case Deliver => FinalizeDelivery
    case Replan => Redesign
    case Retry => source
    case _ => Blocked
  }

  // --------------------------------------------------------- blocker challenges

  function OriginOf(n: Node): Option<Origin> {
    match n
    case ClassifyImplementation => Some(FromImplementation)
    case SelectVerificationPath | LocalVerification => Some(FromVerification)
    case RunReview | RepairReviewCommand | RouteReviewAssessment => Some(FromReviewer)
    case RouteInspectCommentsResult => Some(FromComments)
    case RouteInspectCiResult | RepairCiCommand | AssessTrackedCi | ClassifyCi => Some(FromCi)
    case RouteFinalizeDeliveryResult => Some(FromDelivery)
    case RouteFinalizeDefaultBranchResult => Some(FromDefaultBranch)
    case _ => None
  }

  predicate RecoveryAllowed(origin: Origin, recovery: Node) {
    match origin
    case FromImplementation => recovery.Redesign? || recovery.Fix?
    case FromVerification => recovery.PlanVerification? || recovery.Fix?
    case FromReviewer => recovery.RepairReviewCommand? || recovery.SelectReviewCommands?
    case FromComments => recovery.InspectComments? || recovery.Fix?
    case FromCi => recovery.InspectCi? || recovery.OpportunisticTest?
    case FromDelivery => recovery.InspectComments? || recovery.InspectCi?
    case FromDefaultBranch => recovery.FinalizeDefaultBranch?
  }

  function Guard(h: History): Output {
    var origin := if |h| == 0 then None else OriginOf(h[|h| - 1].node);
    if origin.None? || MAX_BLOCKER_CHALLENGES <= Count(h, IsChallenge) then Guarded(Unmovable, origin)
    else Guarded(Challenge, origin)
  }

  /** `parseBlockerChallenge`: the origin is the guarded one and the recovery one of its own. */
  predicate ChallengeAccepted(h: History, output: Output) {
    && output.Challenged?
    && OutputOf(h, ChallengeBlockerGuard).Guarded?
    && OutputOf(h, ChallengeBlockerGuard).origin == Some(output.claimed)
    && RecoveryAllowed(output.claimed, output.recovery)
    && (output.route.Continue? || output.route.Unmovable?)
  }

  // --------------------------------------------------------------------- reviews

  /** What a review entry must repeat for a published repository to count as reviewed. */
  predicate SameHead(a: Repo, b: Repo) {
    && a.id == b.id && a.baseRevision == b.baseRevision && a.headRevision == b.headRevision
    && a.fingerprint == b.fingerprint
  }

  ghost predicate ReviewedAt(h: History, k: int, repo: Repo) {
    && 0 <= k < |h| && IsReviewRound(h[k]) && h[k].output.Assessed?
    && exists e <- h[k].output.reviews :: e.succeeded && SameHead(e.repo, repo)
  }

  ghost predicate Reviewed(h: History, repo: Repo) {
    exists k :: ReviewedAt(h, k, repo)
  }

  /** The published repositories with no successful review of exactly this head. */
  ghost function Unreviewed(h: History, repos: seq<Repo>): (r: seq<Repo>)
    ensures forall repo <- r :: repo in repos
    ensures forall repo <- repos :: repo in r || Reviewed(h, repo)
  {
    if |repos| == 0 then []
    else (if Reviewed(h, repos[0]) then [] else [repos[0]]) + Unreviewed(h, repos[1..])
  }

  ghost function SelectReviews(h: History, repos: seq<Repo>): Output {
    var left := Unreviewed(h, repos);
    Selected(if left == [] then Reuse else Run, left)
  }

  predicate DistinctIds(ids: seq<Id>) {
    forall i, j :: 0 <= i < j < |ids| ==> ids[i] != ids[j]
  }

  predicate Covers(ids: seq<Id>, repos: seq<Repo>) {
    && DistinctIds(ids)
    && (forall id <- ids :: HasRepo(repos, id))
    && (forall r <- repos :: r.id in ids)
  }

  predicate HasRepo(repos: seq<Repo>, id: Id) { exists r <- repos :: r.id == id }

  function ReviewIds(reviews: seq<Review>): seq<Id> {
    seq(|reviews|, i requires 0 <= i < |reviews| => reviews[i].repo.id)
  }

  function ReviewRoute(reviews: seq<Review>, repaired: bool): Route {
    if exists e <- reviews :: !e.succeeded then (if repaired then Unmovable else CommandError)
    else if exists e <- reviews :: 0 < e.critical then Critical
    else if exists e <- reviews :: 0 < e.p2 then P2
    else Clean
  }

  /**
   A review that could not be run decides the route of its round, repairable once; then critical findings, then
   findings of lesser weight, and it is clean only without any.
   */
  lemma ReviewRouteMeans(reviews: seq<Review>, repaired: bool)
    ensures ReviewRoute(reviews, repaired) in {Unmovable, CommandError} <==> exists e <- reviews :: !e.succeeded
    ensures ReviewRoute(reviews, repaired) == Unmovable <==> repaired && exists e <- reviews :: !e.succeeded
    ensures ReviewRoute(reviews, repaired) == Critical <==>
      (forall e <- reviews :: e.succeeded) && exists e <- reviews :: 0 < e.critical
    ensures ReviewRoute(reviews, repaired) == P2 <==>
      (forall e <- reviews :: e.succeeded && e.critical == 0) && exists e <- reviews :: 0 < e.p2
    ensures ReviewRoute(reviews, repaired) == Clean <==>
      forall e <- reviews :: e.succeeded && e.critical == 0 && e.p2 == 0
  {
  }

  /** `parseReviewAssessment`: an accepted round has one entry per selected repository, of the selected head. */
  predicate RoundAccepted(reviews: seq<Review>, selected: seq<Repo>, clean: set<Id>) {
    && Covers(ReviewIds(reviews), selected)
    && forall e <- reviews :: e.repo in selected && (e.succeeded ==> e.repo.id in clean)
  }

  // ------------------------------------------------------------------ CI targets

  function TargetIds(targets: seq<Target>): seq<Id> {
    seq(|targets|, i requires 0 <= i < |targets| => targets[i].id)
  }

  function Aggregate(targets: seq<Target>): Route {
    if exists t <- targets :: t.route.Red? then Red
    else if exists t <- targets :: t.route.Pending? then Pending
    else if exists t <- targets :: t.route.Unavailable? then Unavailable
    else Green
  }

  predicate CiRoute(r: Route) { r.Green? || r.Red? || r.Pending? || r.Unavailable? }

  /** The worst route of a pull request decides: failed, then pending, then unavailable, and green only if all are. */
  lemma AggregateMeans(targets: seq<Target>)
    requires forall t <- targets :: CiRoute(t.route)
    ensures Aggregate(targets) == Red <==> exists t <- targets :: t.route == Red
    ensures Aggregate(targets) == Pending <==>
      (forall t <- targets :: t.route != Red) && exists t <- targets :: t.route == Pending
    ensures Aggregate(targets) == Unavailable <==>
      (forall t <- targets :: t.route != Red && t.route != Pending) && exists t <- targets :: t.route == Unavailable
    ensures Aggregate(targets) == Green <==> forall t <- targets :: t.route == Green
  {
    if Aggregate(targets) == Green {
      forall t <- targets ensures t.route == Green { assert CiRoute(t.route); }
    }
  }

  predicate TargetsMatch(targets: seq<Target>, repos: seq<Repo>) {
    && Covers(TargetIds(targets), repos)
    && forall t <- targets :: CiRoute(t.route) && TargetOfRepo(t, repos)
  }

  predicate TargetOfRepo(t: Target, repos: seq<Repo>) {
    exists r <- repos :: t.id == r.id && t.headRevision == r.headRevision && t.pr == r.pr
  }

  /** A watch replaces the routes of pending targets only. */
  predicate Tracked(now: seq<Target>, before: seq<Target>) {
    && |now| == |before|
    && forall i :: 0 <= i < |now| ==>
      && CiRoute(now[i].route)
      && now[i] == before[i].(route := now[i].route)
      && (before[i].route != Pending ==> now[i] == before[i])
  }

  function Repositories(o: Output): Option<seq<Repo>> {
    match o
    case Published(r) => Some(r)
    case P2Checked(_, r) => Some(r)
    case _ => None
  }

  /**
   `parseP2Verification`: the same repositories as the publication, each on the same branch, base and
   PR, past its base.
   */
  predicate SamePublication(refreshed: seq<Repo>, previous: seq<Repo>) {
    && Covers(RepoIds(refreshed), previous)
    && forall r <- refreshed :: r.baseRevision != r.headRevision && SameButHead(r, previous)
  }

  predicate SameButHead(r: Repo, previous: seq<Repo>) {
    exists p <- previous :: SameTarget(r, p)
  }

  predicate SameTarget(r: Repo, p: Repo) {
    && r.id == p.id && r.branch == p.branch && r.baseBranch == p.baseBranch && r.baseRevision == p.baseRevision
    && r.pr == p.pr && r.fingerprint == p.fingerprint
  }

  function RepoIds(repos: seq<Repo>): seq<Id> {
    seq(|repos|, i requires 0 <= i < |repos| => repos[i].id)
  }

  // ------------------------------------------------------- what a node may record

  ghost predicate Yields(h: History, node: Node, o: Output) {
    match node
    case TimeoutFallbackGuard =>
      && LatestTimedOut(h).Some?
      && o == Routed(if Count(h, IsFallback) < MAX_TIMEOUT_FALLBACKS then Recover else Unmovable)
    case TimeoutFallback => o.Routed? && FallbackAccepted(h, o.route)
    case RouteTimeoutFallback =>
      && LatestTimedOut(h).Some?
      && OutputOf(h, TimeoutFallback).Routed?
      && o == GoTo(FallbackTarget(LatestTimedOut(h).value, OutputOf(h, TimeoutFallback).route))
    case PropagateSupportedFailure => false
    case ChallengeBlockerGuard => o == Guard(h)
    case ChallengeBlocker => ChallengeAccepted(h, o)
    case RouteBlockerRecovery =>
      OutputOf(h, ChallengeBlocker).Challenged? && o == GoTo(OutputOf(h, ChallengeBlocker).recovery)
    case Workspace | Documentation | Redesign | LocalVerification => o.Exited?
    case Publish =>
      o.Published? && |o.repositories| == 1 && o.repositories[0].baseRevision != o.repositories[0].headRevision
    case SelectReviewCommands =>
      LatestOutput(h, IsPublishing).Published? && o == SelectReviews(h, LatestOutput(h, IsPublishing).repositories)
    case RunReview =>
      && LatestOutput(h, IsSelection).Selected?
      && o.Batch?
      && (o.route.Assess? || o.route == if RepairAttempted(h) then Unmovable else Repair)
    case AssessReview | RecoverReviewAssessment =>
      && LatestOutput(h, IsSelection).Selected?
      && LatestOutput(h, IsReviewRun).Batch?
      && o.Assessed?
      && RoundAccepted(o.reviews, LatestOutput(h, IsSelection).repositories, LatestOutput(h, IsReviewRun).clean)
      && o.route == ReviewRoute(o.reviews, RepairAttempted(h))
    case RouteReviewAssessment => o.Assessed? && o == LatestOutput(h, IsAssessment)
    case VerifyP2 =>
      && o.P2Checked?
      && LatestOutput(h, IsPublishing).Published?
      && SamePublication(o.repositories, LatestOutput(h, IsPublishing).repositories)
    case RouteVerifyP2Result => o.P2Checked? && o == OutputOf(h, VerifyP2)
    case RouteInspectCommentsResult => o.Routed? && o == OutputOf(h, InspectComments)
    case InspectCi =>
      && o.CiSeen?
      && Repositories(LatestOutput(h, IsPublicationAttempt)).Some?
      && TargetsMatch(o.targets, Repositories(LatestOutput(h, IsPublicationAttempt)).value)
      && o.route == Aggregate(o.targets)
    case RouteInspectCiResult => o.CiSeen? && o == OutputOf(h, InspectCi)
    case AssessTrackedCi =>
      && LatestOutput(h, IsInspection).CiSeen?
      && o.CiSeen?
      && Tracked(o.targets, LatestOutput(h, IsInspection).targets)
      && o.route == Aggregate(o.targets)
    case FinalizeDelivery | FinalizeDefaultBranch => o.Delivered?
    case RouteFinalizeDeliveryResult => o.Delivered? && o == OutputOf(h, FinalizeDelivery)
    case RouteFinalizeDefaultBranchResult => o.Delivered? && o == OutputOf(h, FinalizeDefaultBranch)
    case _ => o.Routed?
  }

  ghost predicate Records(h: History, x: Step) {
    if x.outcome.Succeeded? then Yields(h, x.node, x.output) else x.output == Nothing
  }

  // ------------------------------------------------------------------- the edges

  function NextAfterFailure(node: Node, outcome: Outcome): Option<Node> {
    if outcome.Cancelled? then None
    else if node.AssessReview? then
      Some(if outcome.TimedOut? then RecoverReviewAssessment else PropagateSupportedFailure)
    else if node.RecoverReviewAssessment? then
      Some(if outcome.TimedOut? then ReviewAssessmentRecoveryBlocked else PropagateSupportedFailure)
    else if FallbackSource(node) then
      Some(if outcome.TimedOut? then TimeoutFallbackGuard else PropagateSupportedFailure)
    else None
  }

  /** Switches on `$.route`. */
  function NextOnRoute(node: Node, r: Route): Option<Node> {
    match node
    case Prepare =>
      if r.Find? then Some(FindPlan) else if r.ToWorkspace? then Some(Workspace) else
      if r.Unmovable? then Some(Blocked) else None
    case FindPlan => if r.Found? then Some(RouteFoundPlan) else if r.Unmovable? then Some(Blocked) else None
    case RouteFoundPlan => if r.ToWorkspace? then Some(Workspace) else if r.Unmovable? then Some(Blocked) else None
    case RouteWorkspace =>
      if r.ToImplement? then Some(Implement) else if r.Document? then Some(Documentation) else None
    case TimeoutFallbackGuard =>
      if r.Recover? then Some(TimeoutFallback) else if r.Unmovable? then Some(Blocked) else None
    case ClassifyImplementation =>
      if r.Verify? then Some(SelectVerificationPath) else if r.Redo? then Some(Redesign) else
      if r.Repairable? then Some(Fix) else if r.Unmovable? then Some(ChallengeBlockerGuard) else None
    case ChallengeBlockerGuard =>
      if r.Challenge? then Some(ChallengeBlocker) else if r.Unmovable? then Some(Blocked) else None
    case ChallengeBlocker =>
      if r.Continue? then Some(RouteBlockerRecovery) else if r.Unmovable? then Some(Blocked) else None
    case SelectVerificationPath =>
      if r.Plan? then Some(PlanVerification) else if r.Verify? then Some(LocalVerification) else None
    case RouteVerifiedWorkspace =>
      if r.PullRequest? then Some(Publish) else if r.DefaultBranch? then Some(FinalizeDefaultBranch) else None
    case SelectReviewCommands => if r.Run? then Some(RunReview) else if r.Reuse? then Some(InspectComments) else None
    case RunReview =>
      if r.Assess? then Some(AssessReview) else if r.Repair? then Some(RepairReviewCommand) else
      if r.Unmovable? then Some(Blocked) else None
    case RepairReviewCommand => if r.Retry? then Some(RunReview) else if r.Unmovable? then Some(Blocked) else None
    case RouteReviewAssessment =>
      if r.CommandError? then Some(RepairReviewCommand) else if r.Unmovable? then Some(Blocked) else
      if r.Critical? then Some(TriageReview) else if r.P2? then Some(AddressP2) else
      if r.Clean? then Some(InspectComments) else None
    case TriageReview => if r.Redo? then Some(Redesign) else if r.Repairable? then Some(Fix) else None
    case RouteInspectCommentsResult =>
      if r.Redo? then Some(Redesign) else if r.Repairable? then Some(Fix) else if r.Ci? then Some(InspectCi) else
      if r.Unmovable? then Some(ChallengeBlockerGuard) else None
    case RouteInspectCiResult =>
      if r.Green? then Some(FinalizeDelivery) else if r.Red? then Some(ClassifyCi) else
      if r.Pending? then Some(TrackCi) else if r.Unavailable? then Some(ChallengeBlockerGuard) else None
    case TrackCi => if r.Assess? then Some(AssessTrackedCi) else if r.Repair? then Some(RepairCiCommand) else None
    case RepairCiCommand =>
      if r.Retry? then Some(TrackCi) else if r.Unmovable? then Some(ChallengeBlockerGuard) else None
    case AssessTrackedCi =>
      if r.Green? then Some(FinalizeDelivery) else if r.Red? then Some(ClassifyCi) else
      if r.Pending? then Some(OpportunisticTest) else if r.Unavailable? then Some(ChallengeBlockerGuard) else None
    case ClassifyCi =>
      if r.Redo? then Some(Redesign) else if r.Repairable? then Some(Fix) else
      if r.Unrelated? then Some(FinalizeDelivery) else if r.Unmovable? then Some(ChallengeBlockerGuard) else None
    case _ => None
  }

  predicate FallbackCase(n: Node) {
    FallbackSource(n) || n.SelectVerificationPath? || n.SelectReviewCommands? || n.Redesign? || n.Blocked?
  }

  predicate RecoveryCase(n: Node) {
    || n.Redesign? || n.Fix? || n.PlanVerification? || n.RepairReviewCommand? || n.SelectReviewCommands?
    || n.InspectComments? || n.InspectCi? || n.OpportunisticTest? || n.FinalizeDefaultBranch?
  }

  /** Edges without a switch, and switches on `$result.outcome`. */
  function Onward(node: Node): Option<Node> {
    match node
    case AdoptPlan => Some(Implement)
    case TimeoutFallback => Some(RouteTimeoutFallback)
    case ReviewAssessmentRecoveryBlocked => Some(Blocked)
    case PropagateSupportedFailure => Some(Blocked)
    case Implement => Some(ClassifyImplementation)
    case PlanVerification => Some(LocalVerification)
    case Fix => Some(SelectVerificationPath)
    case Publish => Some(SelectReviewCommands)
    case AssessReview | RecoverReviewAssessment => Some(RouteReviewAssessment)
    case AddressP2 => Some(VerifyP2)
    case VerifyP2 => Some(RouteVerifyP2Result)
    case InspectComments => Some(RouteInspectCommentsResult)
    case InspectCi => Some(RouteInspectCiResult)
    case OpportunisticTest => Some(InspectCi)
    case FinalizeDelivery => Some(RouteFinalizeDeliveryResult)
    case FinalizeDefaultBranch => Some(RouteFinalizeDefaultBranchResult)
    case _ => None
  }

  /** The named exits of the included workflows. */
  function NextOnExit(node: Node, ready: bool): Option<Node> {
    match node
    case Workspace => Some(if ready then RouteWorkspace else Blocked)
    case Documentation => Some(if ready then Implement else Blocked)
    case Redesign => Some(if ready then AdoptPlan else Blocked)
    case LocalVerification => Some(if ready then RouteVerifiedWorkspace else ChallengeBlockerGuard)
    case _ => None
  }

  function RouteIn(o: Output): Option<Route> {
    match o
    case Routed(r) => Some(r)
    case Guarded(r, _) => Some(r)
    case Challenged(r, _, _) => Some(r)
    case Selected(r, _) => Some(r)
    case Batch(r, _) => Some(r)
    case Assessed(r, _) => Some(r)
    case CiSeen(r, _) => Some(r)
    case _ => None
  }

  function NextAfterSuccess(node: Node, o: Output): Option<Node> {
    if Onward(node).Some? then Onward(node)
    else if o.Exited? then NextOnExit(node, o.ready)
    else if node.RouteVerifyP2Result? then
      if o.P2Checked? then Some(if o.passed then InspectComments else Fix) else None
    else if node.RouteFinalizeDeliveryResult? || node.RouteFinalizeDefaultBranchResult? then
      if o.Delivered? then Some(if o.completed then Finalize else ChallengeBlockerGuard) else None
    else if node.RouteTimeoutFallback? then
      if o.GoTo? && FallbackCase(o.node) then Some(o.node) else None
    else if node.RouteBlockerRecovery? then
      if o.GoTo? && RecoveryCase(o.node) then Some(o.node) else None
    else if RouteIn(o).Some? then NextOnRoute(node, RouteIn(o).value)
    else None
  }

  function Next(x: Step): Option<Node> {
    if x.outcome.Succeeded? then NextAfterSuccess(x.node, x.output) else NextAfterFailure(x.node, x.outcome)
  }

  /** Where the run stands after `h`; `None` when it has ended. */
  function Place(h: History): Option<Node> {
    if |h| == 0 then Some(Prepare) else Next(h[|h| - 1])
  }

  /** The histories that a run can produce. */
  ghost predicate Valid(h: History) {
    |h| == 0
    || (var before, x := h[..|h| - 1], h[|h| - 1];
        Valid(before) && Place(before) == Some(x.node) && Records(before, x))
  }
}
