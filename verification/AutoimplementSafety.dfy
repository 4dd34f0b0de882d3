/**
 The invariant of every control location of the autoimplement graph, and what follows
 for the nodes that publish, inspect and deliver.
 */
module AutoimplementSafety {
  import opened Options
  import opened AutoimplementGraph
  import opened AutoimplementGates

  predicate Headed(f: Facts) { f.accepted && f.published && f.head && f.publishedVerified && f.publishOk }

  predicate Inspectable(f: Facts) { Headed(f) && f.covered && f.commented }

  /** What a node relies on; the stages from `RoutingReview` on also look at the step before. */
  datatype Stage =
    | Free | Working | Verified | Published | Selected | Polishing | Checking | Commenting | Inspecting | Watching
    | Classifying | Delivering
    | RoutingReview | RoutingP2 | RoutingComments | RoutingCi
    | GuardingTimeout | FallingBack | RoutingFallback
    | GuardingBlocker | Challenging | RoutingRecovery

  function StageOf(n: Node): Stage {
    match n
    case ClassifyImplementation | SelectVerificationPath | PlanVerification | LocalVerification => Working
    case RouteVerifiedWorkspace | Publish | FinalizeDefaultBranch | RouteFinalizeDefaultBranchResult => Verified
    case SelectReviewCommands => Stage.Published
    case RunReview | RepairReviewCommand | AssessReview | RecoverReviewAssessment => Stage.Selected
    case RouteReviewAssessment => RoutingReview
    case AddressP2 => Polishing
    case VerifyP2 => Checking
    case RouteVerifyP2Result => RoutingP2
    case InspectComments => Commenting
    case RouteInspectCommentsResult => RoutingComments
    case InspectCi | OpportunisticTest => Inspecting
    case RouteInspectCiResult => RoutingCi
    case TrackCi | RepairCiCommand | AssessTrackedCi => Watching
    case ClassifyCi => Classifying
    case FinalizeDelivery | RouteFinalizeDeliveryResult => Delivering
    case TimeoutFallbackGuard => GuardingTimeout
    case TimeoutFallback => FallingBack
    case RouteTimeoutFallback => RoutingFallback
    case ChallengeBlockerGuard => GuardingBlocker
    case ChallengeBlocker => Challenging
    case RouteBlockerRecovery => RoutingRecovery
    case _ => Free
  }

  /** The stages that look at the summary only. */
  predicate Plain(s: Stage, f: Facts) {
    match s
    case Free => true
    case Working => f.accepted
    case Verified => f.accepted && f.verified
    case Published => Headed(f)
    case Selected => Headed(f) && f.selection
    case Polishing => f.publishOk && f.covered
    case Checking => f.publishOk && f.covered && f.accepted
    case Commenting => Headed(f) && f.covered
    case Inspecting => Inspectable(f)
    case Watching => Inspectable(f) && f.seen
    case Classifying => Inspectable(f) && f.ci == Some(Red)
    case Delivering => Inspectable(f) && Ready(f)
    case _ => false
  }

  /** Whichever stage timed out last is still entitled to run again. */
  predicate MayRetry(f: Facts) {
    f.timedOut.Some? && FallbackSource(f.timedOut.value) && Plain(StageOf(f.timedOut.value), f)
  }

  predicate SafeRoute(f: Facts, route: Route) {
    && f.timedOut.Some? && FallbackAllowed(f.timedOut.value, route)
    && (route.Verify? ==> f.accepted)
    && (route.Ci? ==> f.commented)
    && (route.Deliver? ==> Ready(f))
  }

  function OriginStage(origin: Origin): Stage {
    match origin
    case FromImplementation => Free
    case FromVerification => Working
    case FromReviewer => Stage.Selected
    case FromComments => Commenting
    case FromCi | FromDelivery => Inspecting
    case FromDefaultBranch => Verified
  }

  predicate Routing(s: Stage, f: Facts, x: Step) {
    var o := x.output;
    match s
    case RoutingReview =>
      && Headed(f) && f.selection && IsReviewRound(x) && o.Assessed?
      && (o.route.P2? || o.route.Clean? ==> f.covered)
    case RoutingP2 =>
      && f.publishOk && f.covered && f.accepted && Ok(x) && x.node.VerifyP2? && o.P2Checked? && (o.passed ==> Headed(f))
    case RoutingComments =>
      && Headed(f) && f.covered && Ok(x) && x.node.InspectComments? && o.Routed? && (o.route.Ci? ==> f.commented)
    case RoutingCi =>
      Inspectable(f) && f.seen && Ok(x) && x.node.InspectCi? && o.CiSeen? && f.ci == Some(o.route)
    case GuardingTimeout => MayRetry(f)
    case FallingBack => MayRetry(f) && f.fallbacks < MAX_TIMEOUT_FALLBACKS
    case RoutingFallback =>
      MayRetry(f) && Ok(x) && x.node.TimeoutFallback? && o.Routed? && SafeRoute(f, o.route)
    case GuardingBlocker => OriginOf(x.node).Some? ==> Plain(OriginStage(OriginOf(x.node).value), f)
    case Challenging =>
      && Ok(x) && x.node.ChallengeBlockerGuard? && f.challenges < MAX_BLOCKER_CHALLENGES
      && o.Guarded? && o.origin.Some? && Plain(OriginStage(o.origin.value), f)
    case RoutingRecovery =>
      && Ok(x) && x.node.ChallengeBlocker? && o.Challenged?
      && Plain(OriginStage(o.claimed), f) && RecoveryAllowed(o.claimed, o.recovery)
    case _ => false
  }

  predicate At(n: Node, f: Facts, last: Option<Step>) {
    Plain(StageOf(n), f) || (last.Some? && Routing(StageOf(n), f, last.value))
  }

  predicate Everywhere(f: Facts) {
    && f.fallbacks <= MAX_TIMEOUT_FALLBACKS && f.challenges <= MAX_BLOCKER_CHALLENGES
    && (f.commented && f.ci.Some? ==> f.ciOfHead)
  }

  /** What a successful step of this node can have recorded, in terms of the summary. */
  predicate Lawful(f: Facts, last: Option<Step>, x: Step) {
    var o := x.output;
    match x.node
    case TimeoutFallbackGuard => o == Routed(if f.fallbacks < MAX_TIMEOUT_FALLBACKS then Recover else Unmovable)
    case TimeoutFallback => o.Routed? && SafeRoute(f, o.route)
    case RouteTimeoutFallback =>
      && f.timedOut.Some? && last.Some? && last.value.output.Routed?
      && o == GoTo(FallbackTarget(f.timedOut.value, last.value.output.route))
    case PropagateSupportedFailure => false
    case ChallengeBlockerGuard =>
      && o.Guarded? && last.Some? && o.origin == OriginOf(last.value.node)
      && (o.route.Challenge? ==> o.origin.Some? && f.challenges < MAX_BLOCKER_CHALLENGES)
    case ChallengeBlocker =>
      && o.Challenged? && RecoveryAllowed(o.claimed, o.recovery)
      && last.Some? && last.value.output.Guarded? && last.value.output.origin == Some(o.claimed)
    case RouteBlockerRecovery => last.Some? && last.value.output.Challenged? && o == GoTo(last.value.output.recovery)
    case Publish => o.Published?
    case SelectReviewCommands => o.Selected?
    case AssessReview | RecoverReviewAssessment => o.Assessed?
    case VerifyP2 => o.P2Checked?
    case InspectComments | ClassifyCi => o.Routed?
    case InspectCi | AssessTrackedCi => o.CiSeen?
    case RouteReviewAssessment | RouteVerifyP2Result | RouteInspectCommentsResult | RouteInspectCiResult =>
      last.Some? && o == last.value.output
    case _ => true
  }

  // -------- one step: every route out of a node leads where the run is entitled to go

  /** `x` was recorded at a node the run was entitled to enter, and leads to `n`. */
  predicate Leads(f: Facts, last: Option<Step>, x: Step, n: Node) {
    At(x.node, f, last) && Ok(x) && Lawful(f, last, x) && Next(x) == Some(n)
  }

  lemma FromPlanning(f: Facts, last: Option<Step>, x: Step, n: Node)
    requires x.node.Prepare? || x.node.FindPlan? || x.node.RouteFoundPlan? || x.node.Workspace? ||
      x.node.RouteWorkspace? || x.node.Documentation? || x.node.Redesign? || x.node.AdoptPlan?
    requires Leads(f, last, x, n)
    ensures At(n, f, Some(x))
  {
  }

  lemma FromDeadEnd(f: Facts, last: Option<Step>, x: Step, n: Node)
    requires x.node.ReviewAssessmentRecoveryBlocked? || x.node.TriageReview? ||
      x.node.PropagateSupportedFailure? || x.node.Blocked? || x.node.Finalize?
    requires Leads(f, last, x, n)
    ensures At(n, f, Some(x))
  {
  }

  lemma FromVerificationPlan(f: Facts, last: Option<Step>, x: Step, n: Node)
    requires x.node.ClassifyImplementation? || x.node.SelectVerificationPath? || x.node.PlanVerification?
    requires Leads(f, last, x, n)
    ensures At(n, f, Some(x))
  {
  }

  lemma FromVerifiedWorkspace(f: Facts, last: Option<Step>, x: Step, n: Node)
    requires x.node.RouteVerifiedWorkspace? || x.node.FinalizeDefaultBranch? ||
      x.node.RouteFinalizeDefaultBranchResult?
    requires Leads(f, last, x, n)
    ensures At(n, f, Some(x))
  {
  }

  lemma FromReviewRun(f: Facts, last: Option<Step>, x: Step, n: Node)
    requires x.node.RunReview? || x.node.RepairReviewCommand?
    requires Leads(f, last, x, n)
    ensures At(n, f, Some(x))
  {
  }

  lemma FromReviewRoute(f: Facts, last: Option<Step>, x: Step, n: Node)
    requires x.node.RouteReviewAssessment?
    requires Leads(f, last, x, n)
    ensures At(n, f, Some(x))
  {
  }

  lemma FromP2Route(f: Facts, last: Option<Step>, x: Step, n: Node)
    requires x.node.RouteVerifyP2Result?
    requires Leads(f, last, x, n)
    ensures At(n, f, Some(x))
  {
  }

  lemma FromCommentsRoute(f: Facts, last: Option<Step>, x: Step, n: Node)
    requires x.node.RouteInspectCommentsResult?
    requires Leads(f, last, x, n)
    ensures At(n, f, Some(x))
  {
  }

  lemma FromCiRoute(f: Facts, last: Option<Step>, x: Step, n: Node)
    requires x.node.RouteInspectCiResult?
    requires Leads(f, last, x, n)
    ensures At(n, f, Some(x))
  {
  }

  lemma FromCiWatch(f: Facts, last: Option<Step>, x: Step, n: Node)
    requires x.node.TrackCi? || x.node.RepairCiCommand? || x.node.OpportunisticTest?
    requires Leads(f, last, x, n)
    ensures At(n, f, Some(x))
  {
  }

  lemma FromDeliveryNodes(f: Facts, last: Option<Step>, x: Step, n: Node)
    requires x.node.FinalizeDelivery? || x.node.RouteFinalizeDeliveryResult?
    requires Leads(f, last, x, n)
    ensures At(n, f, Some(x))
  {
  }

  lemma FromTimeoutGuard(f: Facts, last: Option<Step>, x: Step, n: Node)
    requires x.node.TimeoutFallbackGuard?
    requires Leads(f, last, x, n)
    ensures At(n, f, Some(x))
  {
  }

  /** Every accepted fallback route leads where the history already entitles the run to go. */
  lemma FallbackIsSafe(f: Facts, route: Route)
    requires MayRetry(f) && SafeRoute(f, route)
    ensures Plain(StageOf(FallbackTarget(f.timedOut.value, route)), f)
  {
  }

  /** Every recovery of a blocker leads back to a stage the claim's origin was already entitled to. */
  lemma RecoveryIsSafe(f: Facts, origin: Origin, recovery: Node)
    requires Plain(OriginStage(origin), f) && RecoveryAllowed(origin, recovery)
    ensures Plain(StageOf(recovery), f)
  {
  }

  lemma FromTimeoutRoute(f: Facts, last: Option<Step>, x: Step, n: Node)
    requires x.node.RouteTimeoutFallback?
    requires Leads(f, last, x, n)
    ensures At(n, f, Some(x))
  {
    FallbackIsSafe(f, last.value.output.route);
  }

  lemma FromChallengeGuard(f: Facts, last: Option<Step>, x: Step, n: Node)
    requires x.node.ChallengeBlockerGuard?
    requires Leads(f, last, x, n)
    ensures At(n, f, Some(x))
  {
  }

  lemma FromRecoveryRoute(f: Facts, last: Option<Step>, x: Step, n: Node)
    requires x.node.RouteBlockerRecovery?
    requires Leads(f, last, x, n)
    ensures At(n, f, Some(x))
  {
    RecoveryIsSafe(f, last.value.output.claimed, last.value.output.recovery);
  }

  lemma FromWork(f: Facts, last: Option<Step>, x: Step, n: Node)
    requires x.node.Implement? || x.node.Fix? || x.node.AddressP2?
    requires Leads(f, last, x, n)
    ensures At(n, Advance(f, x), Some(x))
  {
  }

  lemma FromLocalVerification(f: Facts, last: Option<Step>, x: Step, n: Node)
    requires x.node.LocalVerification?
    requires Leads(f, last, x, n)
    ensures At(n, Advance(f, x), Some(x))
  {
  }

  lemma FromPublish(f: Facts, last: Option<Step>, x: Step, n: Node)
    requires x.node.Publish?
    requires Leads(f, last, x, n)
    ensures At(n, Advance(f, x), Some(x))
  {
  }

  lemma FromSelection(f: Facts, last: Option<Step>, x: Step, n: Node)
    requires x.node.SelectReviewCommands?
    requires Leads(f, last, x, n)
    ensures At(n, Advance(f, x), Some(x))
  {
  }

  lemma FromAssessment(f: Facts, last: Option<Step>, x: Step, n: Node)
    requires x.node.AssessReview? || x.node.RecoverReviewAssessment?
    requires Leads(f, last, x, n)
    ensures At(n, Advance(f, x), Some(x))
  {
  }

  lemma FromP2(f: Facts, last: Option<Step>, x: Step, n: Node)
    requires x.node.VerifyP2?
    requires Leads(f, last, x, n)
    ensures At(n, Advance(f, x), Some(x))
  {
  }

  lemma FromCommentInspection(f: Facts, last: Option<Step>, x: Step, n: Node)
    requires x.node.InspectComments?
    requires Leads(f, last, x, n)
    ensures At(n, Advance(f, x), Some(x))
  {
  }

  lemma FromInspection(f: Facts, last: Option<Step>, x: Step, n: Node)
    requires x.node.InspectCi?
    requires Leads(f, last, x, n)
    ensures At(n, Advance(f, x), Some(x))
  {
  }

  function Watched(f: Facts, x: Step): Facts {
    f.(ci := RouteOf(x.output), unrelated := false, ciOfHead := f.seen)
  }

  function Reclassified(f: Facts, x: Step): Facts {
    f.(unrelated := RouteOf(x.output) == Some(Unrelated))
  }

  lemma FromWatch(f: Facts, last: Option<Step>, x: Step, n: Node)
    requires x.node.AssessTrackedCi?
    requires Leads(f, last, x, n)
    ensures At(n, Watched(f, x), Some(x))
  {
  }

  predicate AfterClassification(x: Step, n: Node) {
    || n.Redesign? || n.Fix? || n.ChallengeBlockerGuard?
    || (n.FinalizeDelivery? && x.output == Routed(Unrelated))
  }

  lemma ClassificationNext(f: Facts, last: Option<Step>, x: Step, n: Node)
    requires x.node.ClassifyCi?
    requires Leads(f, last, x, n)
    ensures Plain(Classifying, f) && AfterClassification(x, n)
  {
  }

  lemma FromClassification(f: Facts, x: Step, n: Node)
    requires x.node.ClassifyCi?
    requires Plain(Classifying, f) && AfterClassification(x, n)
    ensures At(n, Reclassified(f, x), Some(x))
  {
  }

  lemma FromFallback(f: Facts, last: Option<Step>, x: Step, n: Node)
    requires x.node.TimeoutFallback?
    requires Leads(f, last, x, n)
    ensures At(n, f.(fallbacks := f.fallbacks + 1), Some(x))
  {
  }

  lemma FromChallenge(f: Facts, last: Option<Step>, x: Step, n: Node)
    requires x.node.ChallengeBlocker?
    requires Leads(f, last, x, n)
    ensures At(n, f.(challenges := f.challenges + 1), Some(x))
  {
  }

  // ------------------------------------------------------------ putting it together

  /** Steps that touch the summary when they succeed. */
  predicate Steers(n: Node) {
    || n.Implement? || n.Fix? || n.AddressP2? || n.LocalVerification? || n.Publish? || n.VerifyP2?
    || n.SelectReviewCommands? || n.AssessReview? || n.RecoverReviewAssessment?
    || n.InspectComments? || n.InspectCi? || n.AssessTrackedCi? || n.ClassifyCi?
    || n.TimeoutFallback? || n.ChallengeBlocker?
  }

  lemma NeutralStep(f: Facts, x: Step)
    requires Ok(x) && !Steers(x.node)
    ensures Advance(f, x) == f
  {
  }

  lemma CountedStep(f: Facts, x: Step)
    requires Ok(x)
    ensures x.node.TimeoutFallback? ==> Advance(f, x) == f.(fallbacks := f.fallbacks + 1)
    ensures x.node.ChallengeBlocker? ==> Advance(f, x) == f.(challenges := f.challenges + 1)
  {
  }

  lemma WatchStep(f: Facts, x: Step)
    requires Ok(x) && x.node.AssessTrackedCi?
    ensures Advance(f, x) == Watched(f, x)
  {
  }

  lemma ClassifyStep(f: Facts, x: Step)
    requires Ok(x) && x.node.ClassifyCi?
    ensures Advance(f, x) == Reclassified(f, x)
  {
  }

  lemma SuccessLeads(f: Facts, last: Option<Step>, x: Step, n: Node)
    requires Leads(f, last, x, n)
    ensures At(n, Advance(f, x), Some(x))
  {
    if Steers(x.node) {
      CountedStep(f, x);
      SteeringLeads(f, last, x, n);
    } else {
      NeutralStep(f, x);
      NeutralLeads(f, last, x, n);
    }
  }

  lemma SteeringLeads(f: Facts, last: Option<Step>, x: Step, n: Node)
    requires Leads(f, last, x, n) && Steers(x.node)
    ensures At(n, Advance(f, x), Some(x))
  {
    CountedStep(f, x);
    match x.node
    case Implement | Fix | AddressP2 => FromWork(f, last, x, n);
    case LocalVerification => FromLocalVerification(f, last, x, n);
    case Publish => FromPublish(f, last, x, n);
    case SelectReviewCommands => FromSelection(f, last, x, n);
    case AssessReview | RecoverReviewAssessment => FromAssessment(f, last, x, n);
    case VerifyP2 => FromP2(f, last, x, n);
    case InspectComments => FromCommentInspection(f, last, x, n);
    case InspectCi => FromInspection(f, last, x, n);
    case AssessTrackedCi =>
      WatchStep(f, x);
      FromWatch(f, last, x, n);
    case ClassifyCi =>
      ClassifyStep(f, x);
      ClassificationNext(f, last, x, n);
      FromClassification(f, x, n);
    case TimeoutFallback => FromFallback(f, last, x, n);
    case ChallengeBlocker => FromChallenge(f, last, x, n);
  }

  lemma NeutralLeads(f: Facts, last: Option<Step>, x: Step, n: Node)
    requires Leads(f, last, x, n) && !Steers(x.node)
    ensures At(n, f, Some(x))
  {
    match x.node
    case ClassifyImplementation | SelectVerificationPath | PlanVerification => FromVerificationPlan(f, last, x, n);
    case RouteVerifiedWorkspace | FinalizeDefaultBranch | RouteFinalizeDefaultBranchResult =>
      FromVerifiedWorkspace(f, last, x, n);
    case RunReview | RepairReviewCommand => FromReviewRun(f, last, x, n);
    case RouteReviewAssessment => FromReviewRoute(f, last, x, n);
    case RouteVerifyP2Result => FromP2Route(f, last, x, n);
    case RouteInspectCommentsResult => FromCommentsRoute(f, last, x, n);
    case RouteInspectCiResult => FromCiRoute(f, last, x, n);
    case TrackCi | RepairCiCommand | OpportunisticTest => FromCiWatch(f, last, x, n);
    case FinalizeDelivery | RouteFinalizeDeliveryResult => FromDeliveryNodes(f, last, x, n);
    case TimeoutFallbackGuard => FromTimeoutGuard(f, last, x, n);
    case RouteTimeoutFallback => FromTimeoutRoute(f, last, x, n);
    case ChallengeBlockerGuard => FromChallengeGuard(f, last, x, n);
    case RouteBlockerRecovery => FromRecoveryRoute(f, last, x, n);
    case Prepare | FindPlan | RouteFoundPlan | Workspace | RouteWorkspace | Documentation | Redesign | AdoptPlan =>
      FromPlanning(f, last, x, n);
    case _ => FromDeadEnd(f, last, x, n);
  }

  lemma FailureNext(x: Step, n: Node)
    requires !Ok(x) && Next(x) == Some(n)
    ensures || n.PropagateSupportedFailure? || n.ReviewAssessmentRecoveryBlocked?
            || (n.RecoverReviewAssessment? && x.node.AssessReview?)
            || (n.TimeoutFallbackGuard? && IsSupportedTimeout(x))
  {
  }

  /** A step that fails or times out changes nothing that its own stage relied on. */
  lemma RetryStays(f: Facts, x: Step)
    requires FallbackSource(x.node) || x.node.AssessReview?
    requires Plain(StageOf(x.node), f) && !Ok(x) && x.output == Nothing
    ensures Plain(StageOf(x.node), Advance(f, x))
  {
  }

  lemma SourceIsPlain(n: Node, f: Facts, last: Option<Step>)
    requires At(n, f, last) && (FallbackSource(n) || n.AssessReview?)
    ensures Plain(StageOf(n), f)
  {
  }

  lemma TimeoutLeads(f: Facts, x: Step)
    requires Plain(StageOf(x.node), f) && IsSupportedTimeout(x) && x.output == Nothing
    ensures At(TimeoutFallbackGuard, Advance(f, x), Some(x))
  {
    RetryStays(f, x);
    assert MayRetry(Advance(f, x));
  }

  lemma FailureLeads(f: Facts, last: Option<Step>, x: Step, n: Node)
    requires At(x.node, f, last) && !Ok(x) && x.output == Nothing && Next(x) == Some(n)
    ensures At(n, Advance(f, x), Some(x))
  {
    FailureNext(x, n);
    if n.RecoverReviewAssessment? {
      SourceIsPlain(x.node, f, last);
      RetryStays(f, x);
    } else if n.TimeoutFallbackGuard? {
      SourceIsPlain(x.node, f, last);
      TimeoutLeads(f, x);
    }
  }

  lemma EverywhereStays(f: Facts, last: Option<Step>, x: Step)
    requires At(x.node, f, last) && Everywhere(f)
    ensures Everywhere(Advance(f, x))
  {
  }

  // ------------------------------------------ what a successful step can have recorded

  function Last(h: History): Option<Step> { StepAt(h, |h| - 1) }

  /** A node that reads the output of the node right before it gets that step's output. */
  lemma Reread(h: History, n: Node, p: Step -> bool)
    requires |h| != 0 && Ok(h[|h| - 1])
    ensures h[|h| - 1].node == n ==> OutputOf(h, n) == h[|h| - 1].output
    ensures p(h[|h| - 1]) ==> LatestOutput(h, p) == h[|h| - 1].output
  {
  }

  lemma FallbackIsLawful(h: History, x: Step)
    requires Ok(x) && Yields(h, x.node, x.output)
    requires x.node.TimeoutFallbackGuard? || x.node.TimeoutFallback?
    ensures Lawful(FactsOf(h), Last(h), x)
  {
    FallbacksMean(h);
    TimeoutMeans(h);
    AcceptedMeans(h);
    CommentsMean(h);
    ReadyMeans(h);
  }

  lemma ReviewRouteIsLawful(f: Facts, h: History, x: Step)
    requires |h| != 0 && x.node.RouteReviewAssessment? && Yields(h, RouteReviewAssessment, x.output)
    requires Routing(RoutingReview, f, h[|h| - 1])
    ensures Lawful(f, Last(h), x)
  {
    Reread(h, AssessReview, IsAssessment);
  }

  lemma P2RouteIsLawful(f: Facts, h: History, x: Step)
    requires |h| != 0 && x.node.RouteVerifyP2Result? && Yields(h, RouteVerifyP2Result, x.output)
    requires Routing(RoutingP2, f, h[|h| - 1])
    ensures Lawful(f, Last(h), x)
  {
    Reread(h, VerifyP2, IsAssessment);
  }

  lemma CommentsRouteIsLawful(f: Facts, h: History, x: Step)
    requires |h| != 0 && x.node.RouteInspectCommentsResult? && Yields(h, RouteInspectCommentsResult, x.output)
    requires Routing(RoutingComments, f, h[|h| - 1])
    ensures Lawful(f, Last(h), x)
  {
    Reread(h, InspectComments, IsAssessment);
  }

  lemma CiRouteIsLawful(f: Facts, h: History, x: Step)
    requires |h| != 0 && x.node.RouteInspectCiResult? && Yields(h, RouteInspectCiResult, x.output)
    requires Routing(RoutingCi, f, h[|h| - 1])
    ensures Lawful(f, Last(h), x)
  {
    Reread(h, InspectCi, IsAssessment);
  }

  lemma RecoveryRouteIsLawful(f: Facts, h: History, x: Step)
    requires |h| != 0 && x.node.RouteBlockerRecovery? && Yields(h, RouteBlockerRecovery, x.output)
    requires Routing(RoutingRecovery, f, h[|h| - 1])
    ensures Lawful(f, Last(h), x)
  {
    Reread(h, ChallengeBlocker, IsAssessment);
  }

  lemma ChallengeIsLawful(f: Facts, h: History, x: Step)
    requires |h| != 0 && x.node.ChallengeBlocker? && Yields(h, ChallengeBlocker, x.output)
    requires Routing(Challenging, f, h[|h| - 1])
    ensures Lawful(f, Last(h), x)
  {
    Reread(h, ChallengeBlockerGuard, IsAssessment);
  }

  lemma FallbackRouteIsLawful(f: Facts, h: History, x: Step)
    requires |h| != 0 && x.node.RouteTimeoutFallback? && Yields(h, RouteTimeoutFallback, x.output)
    requires Routing(RoutingFallback, f, h[|h| - 1]) && f.timedOut == LatestTimedOut(h)
    ensures Lawful(f, Last(h), x)
  {
    Reread(h, TimeoutFallback, IsFallback);
  }

  lemma GuardIsLawful(f: Facts, h: History, x: Step)
    requires |h| != 0 && x.node.ChallengeBlockerGuard? && Yields(h, ChallengeBlockerGuard, x.output)
    requires f.challenges == Count(h, IsChallenge)
    ensures Lawful(f, Last(h), x)
  {
  }

  predicate Echoes(n: Node) {
    n.RouteReviewAssessment? || n.RouteVerifyP2Result? || n.RouteInspectCommentsResult? || n.RouteInspectCiResult?
  }

  predicate Jumps(n: Node) {
    n.RouteBlockerRecovery? || n.RouteTimeoutFallback? || n.ChallengeBlocker?
  }

  lemma ReviewEchoIsLawful(h: History, f: Facts, x: Step)
    requires |h| != 0 && (x.node.RouteReviewAssessment? || x.node.RouteVerifyP2Result?)
    requires Yields(h, x.node, x.output) && Routing(StageOf(x.node), f, h[|h| - 1])
    ensures Lawful(f, Last(h), x)
  {
    if x.node.RouteReviewAssessment? { ReviewRouteIsLawful(f, h, x); } else { P2RouteIsLawful(f, h, x); }
  }

  lemma InspectionEchoIsLawful(h: History, f: Facts, x: Step)
    requires |h| != 0 && (x.node.RouteInspectCommentsResult? || x.node.RouteInspectCiResult?)
    requires Yields(h, x.node, x.output) && Routing(StageOf(x.node), f, h[|h| - 1])
    ensures Lawful(f, Last(h), x)
  {
    if x.node.RouteInspectCommentsResult? { CommentsRouteIsLawful(f, h, x); } else { CiRouteIsLawful(f, h, x); }
  }

  lemma ChallengeJumpIsLawful(h: History, f: Facts, x: Step)
    requires |h| != 0 && (x.node.RouteBlockerRecovery? || x.node.ChallengeBlocker?)
    requires Yields(h, x.node, x.output) && Routing(StageOf(x.node), f, h[|h| - 1])
    ensures Lawful(f, Last(h), x)
  {
    if x.node.RouteBlockerRecovery? { RecoveryRouteIsLawful(f, h, x); } else { ChallengeIsLawful(f, h, x); }
  }

  predicate Direct(n: Node) {
    !Echoes(n) && !Jumps(n) && !n.TimeoutFallbackGuard? && !n.TimeoutFallback? && !n.ChallengeBlockerGuard?
  }

  lemma DirectIsLawful(h: History, f: Facts, x: Step)
    requires Direct(x.node) && Yields(h, x.node, x.output)
    ensures Lawful(f, Last(h), x)
  {
  }

  lemma EchoHasLast(n: Node, f: Facts, last: Option<Step>)
    requires At(n, f, last) && Echoes(n)
    ensures last.Some? && Routing(StageOf(n), f, last.value)
  {
  }

  lemma JumpHasLast(n: Node, f: Facts, last: Option<Step>)
    requires At(n, f, last) && Jumps(n)
    ensures last.Some? && Routing(StageOf(n), f, last.value)
  {
  }

  lemma EchoIsLawful(h: History, f: Facts, x: Step)
    requires Echoes(x.node) && Yields(h, x.node, x.output) && At(x.node, f, Last(h))
    ensures Lawful(f, Last(h), x)
  {
    EchoHasLast(x.node, f, Last(h));
    if x.node.RouteReviewAssessment? || x.node.RouteVerifyP2Result? {
      ReviewEchoIsLawful(h, f, x);
    } else {
      InspectionEchoIsLawful(h, f, x);
    }
  }

  lemma JumpIsLawful(h: History, f: Facts, x: Step)
    requires f == FactsOf(h)
    requires Jumps(x.node) && Yields(h, x.node, x.output) && At(x.node, f, Last(h))
    ensures Lawful(f, Last(h), x)
  {
    JumpHasLast(x.node, f, Last(h));
    if x.node.RouteTimeoutFallback? {
      TimeoutMeans(h);
      FallbackRouteIsLawful(f, h, x);
    } else {
      ChallengeJumpIsLawful(h, f, x);
    }
  }

  lemma IsLawful(h: History, f: Facts, x: Step)
    requires f == FactsOf(h)
    requires Ok(x) && Yields(h, x.node, x.output) && At(x.node, f, Last(h))
    ensures Lawful(f, Last(h), x)
  {
    if Direct(x.node) {
      DirectIsLawful(h, f, x);
    } else if Echoes(x.node) {
      EchoIsLawful(h, f, x);
    } else if Jumps(x.node) {
      JumpIsLawful(h, f, x);
    } else if x.node.ChallengeBlockerGuard? {
      GuardHasLast(f, Last(h));
      ChallengesMean(h);
      GuardIsLawful(f, h, x);
    } else {
      FallbackIsLawful(h, x);
    }
  }

  lemma GuardHasLast(f: Facts, last: Option<Step>)
    requires At(ChallengeBlockerGuard, f, last)
    ensures last.Some?
  {
  }

  // ---------------------------------------------------------------------- the invariant

  ghost predicate Inv(h: History) {
    Everywhere(FactsOf(h)) && (Place(h).Some? ==> At(Place(h).value, FactsOf(h), Last(h)))
  }

  lemma StepKeeps(b: History, x: Step, f: Facts, last: Option<Step>)
    requires f == FactsOf(b) && last == Last(b)
    requires At(x.node, f, last) && Everywhere(f) && Records(b, x)
    ensures Everywhere(Advance(f, x)) && (Next(x).Some? ==> At(Next(x).value, Advance(f, x), Some(x)))
  {
    EverywhereStays(f, last, x);
    if Next(x).Some? {
      if Ok(x) {
        IsLawful(b, f, x);
        SuccessLeads(f, last, x, Next(x).value);
      } else {
        FailureLeads(f, last, x, Next(x).value);
      }
    }
  }

  lemma {:induction false} AlwaysInv(h: History)
    requires Valid(h)
    ensures Inv(h)
  {
    if |h| != 0 {
      Recorded(h);
      AlwaysInv(h[..|h| - 1]);
      StepKeeps(h[..|h| - 1], h[|h| - 1], FactsOf(h[..|h| - 1]), Last(h[..|h| - 1]));
    }
  }
}
