/**
 What every run of the autoimplement graph has done before it publishes, inspects or
 delivers, said about the recorded steps alone.
 */
module AutoimplementDelivery {
  import opened Options
  import opened AutoimplementGraph
  import opened AutoimplementGates
  import opened AutoimplementSafety

  predicate NoneAfter(h: History, i: int, p: Step -> bool) {
    forall k :: i < k < |h| && 0 <= k ==> !p(h[k])
  }

  /** Work at `w`, the last there is, was accepted. */
  predicate AcceptedAt(h: History, w: int) {
    0 <= w < |h| && IsWorkAttempt(h[w]) && Ok(h[w]) && NoneAfter(h, w, IsWorkAttempt)
  }

  /** The run published at `p`, after all work, something that had been verified since that work. */
  ghost predicate PublishedAt(h: History, w: int, p: int) {
    && AcceptedAt(h, w) && w < p < |h|
    && IsPublication(h[p]) && NoneAfter(h, p, IsPublicationAttempt)
    && (h[p].node.Publish? ==> exists v :: w < v < p && IsVerified(h[v]))
  }

  /** The latest comment inspection came after the publication and sent the run on to CI. */
  predicate CommentsClearedAt(h: History, p: int, c: int) {
    0 <= p < c < |h| && IsComments(h[c]) && RouteIs(h, c, Ci) && NoneAfter(h, c, IsComments)
  }

  /** The latest CI result came after the comments, is about the published heads, and is green or unrelated red. */
  ghost predicate CiReadyAt(h: History, p: int, c: int, i: int) {
    && 0 <= p < c < i < |h| && IsCi(h[i]) && NoneAfter(h, i, IsCi)
    && SawHeads(h[i].output, Repositories(h[p].output))
    && (RouteIs(h, i, Green)
        || (RouteIs(h, i, Red)
            && exists k :: i < k < |h| && IsClassification(h[k]) && RouteIs(h, k, Unrelated)
                           && NoneAfter(h, k, IsClassification)))
  }

  lemma AcceptedHere(h: History)
    requires FactsOf(h).accepted
    ensures AcceptedAt(h, WorkIndex(h))
  {
    AcceptedMeans(h);
    LatestIsLatest(h, IsWorkAttempt);
  }

  lemma PublishedHere(h: History)
    requires FactsOf(h).published && FactsOf(h).head && FactsOf(h).publishedVerified
    ensures 0 <= PublicationIndex(h) && WorkIndex(h) < PublicationIndex(h) && IsPublication(h[PublicationIndex(h)])
    ensures NoneAfter(h, PublicationIndex(h), IsPublicationAttempt)
    ensures PublishedVerified(h)
  {
    PublishedMeans(h);
    HeadMeans(h);
    PublishedVerifiedMeans(h);
    LatestIsLatest(h, IsPublication);
    LatestIsLatest(h, IsPublicationAttempt);
  }

  lemma HeadIsGated(h: History)
    requires Headed(FactsOf(h))
    ensures PublishedAt(h, WorkIndex(h), PublicationIndex(h))
  {
    AcceptedHere(h);
    PublishedHere(h);
  }

  lemma CommentsHere(h: History)
    requires 0 <= CurrentCommentsIndex(h) && 0 <= PublicationIndex(h)
    ensures CommentsClearedAt(h, PublicationIndex(h), CommentsIndex(h))
  {
    LatestIsLatest(h, IsComments);
  }

  lemma CiHere(h: History)
    requires HasCurrentReadyCi(h) && 0 <= PublicationIndex(h)
    requires SawHeads(LatestOutput(h, IsCi), PublishedHeads(h))
    ensures CiReadyAt(h, PublicationIndex(h), CommentsIndex(h), CiIndex(h))
  {
    LatestIsLatest(h, IsCi);
    LatestIsLatest(h, IsClassification);
    LatestIsLatest(h, IsPublication);
  }

  lemma Standing(h: History, n: Node)
    requires Valid(h) && Place(h) == Some(n)
    ensures At(n, FactsOf(h), Last(h)) && Everywhere(FactsOf(h))
  {
    AlwaysInv(h);
  }

  /** What delivery relies on, read off the invariant. */
  lemma StandingAtDelivery(f: Facts, last: Option<Step>)
    requires At(FinalizeDelivery, f, last) && Everywhere(f)
    ensures Inspectable(f) && Ready(f) && f.ciOfHead
  {
  }

  /** No path delivers without verified work, a publication of it, cleared comments and ready CI, in that order. */
  lemma DeliveryIsGated(h: History)
    requires Valid(h) && Place(h) == Some(FinalizeDelivery)
    ensures PublishedAt(h, WorkIndex(h), PublicationIndex(h))
    ensures CommentsClearedAt(h, PublicationIndex(h), CommentsIndex(h))
    ensures CiReadyAt(h, PublicationIndex(h), CommentsIndex(h), CiIndex(h))
  {
    Standing(h, FinalizeDelivery);
    StandingAtDelivery(FactsOf(h), Last(h));
    HeadIsGated(h);
    CommentsMean(h);
    CommentsHere(h);
    ReadyMeans(h);
    CiOfHeadMeans(h);
    CiHere(h);
  }

  predicate Inspects(n: Node) { n.InspectComments? || n.InspectCi? || n.FinalizeDelivery? }

  lemma StandingAtInspection(n: Node, f: Facts, last: Option<Step>)
    requires Inspects(n) && At(n, f, last)
    ensures Headed(f) && f.covered && (!n.InspectComments? ==> f.commented)
  {
  }

  /**
   Wherever comments or CI are inspected or a delivery starts, each repository of the latest publish
   output has a successful review of exactly its head.
   */
  lemma ReviewsCoverPublication(h: History, n: Node)
    requires Valid(h) && Place(h) == Some(n) && Inspects(n)
    ensures PublishedAt(h, WorkIndex(h), PublicationIndex(h))
    ensures Covered(h)
    ensures !n.InspectComments? ==> CommentsClearedAt(h, PublicationIndex(h), CommentsIndex(h))
  {
    Standing(h, n);
    StandingAtInspection(n, FactsOf(h), Last(h));
    HeadIsGated(h);
    CoveredMeans(h);
    if !n.InspectComments? {
      CommentsMean(h);
      CommentsHere(h);
    }
  }

  /** What a publication step put up: `r` is `p`, or what a passed `verifyP2` made of it. */
  predicate PutUp(x: Step, r: Repo, p: Repo) { SameTarget(r, p) && (x.node.Publish? ==> r == p) }

  ghost predicate HeadsFromPublish(h: History) {
    && PublishedHeads(h).Some? && LatestOutput(h, IsPublishing).Published?
    && forall r <- PublishedHeads(h).value ::
         exists p <- LatestOutput(h, IsPublishing).repositories :: PutUp(h[PublicationIndex(h)], r, p)
  }

  lemma HeadsStart(b: History, x: Step)
    requires IsPublication(x) && Records(b, x)
    ensures HeadsFromPublish(b + [x])
  {
    Appended(b, x, IsPublication);
    OutputStep(b, x, IsPublishing);
    if x.node.VerifyP2? {
      forall r <- x.output.repositories
        ensures exists p <- LatestOutput(b, IsPublishing).repositories :: PutUp(x, r, p)
      {
        var p :| p in LatestOutput(b, IsPublishing).repositories && SameTarget(r, p);
        assert PutUp(x, r, p);
      }
    } else {
      forall r <- x.output.repositories ensures PutUp(x, r, r) {
      }
    }
  }

  lemma HeadsStay(b: History, x: Step)
    requires !IsPublicationAttempt(x) && HeadsFromPublish(b)
    ensures HeadsFromPublish(b + [x])
  {
    Appended(b, x, IsPublication);
    OutputStep(b, x, IsPublishing);
    assert (b + [x])[PublicationIndex(b)] == b[PublicationIndex(b)];
  }

  lemma {:induction false} HeadsMatch(h: History)
    requires Valid(h) && 0 <= PublicationIndex(h) == LatestStepIndex(h, IsPublicationAttempt)
    ensures HeadsFromPublish(h)
  {
    Recorded(h);
    Rejoined(h);
    var b, x := h[..|h| - 1], h[|h| - 1];
    Appended(b, x, IsPublication);
    Appended(b, x, IsPublicationAttempt);
    if IsPublication(x) {
      HeadsStart(b, x);
    } else {
      HeadsMatch(b);
      HeadsStay(b, x);
    }
  }

  /**
   What is delivered was reviewed, up to its head revision: each delivered repository is a reviewed one
   of the latest publish output, with the very same head unless a passed `verifyP2` put it up.
   */
  lemma DeliveredIsReviewed(h: History, r: Repo)
    requires Valid(h) && Place(h) == Some(FinalizeDelivery)
    ensures PublishedHeads(h).Some? && 0 <= PublicationIndex(h) && LatestOutput(h, IsPublishing).Published?
    ensures r in PublishedHeads(h).value ==>
      exists p <- LatestOutput(h, IsPublishing).repositories :: Reviewed(h, p) && PutUp(h[PublicationIndex(h)], r, p)
  {
    ReviewsCoverPublication(h, FinalizeDelivery);
    Standing(h, FinalizeDelivery);
    StandingAtDelivery(FactsOf(h), Last(h));
    HeadMeans(h);
    HeadsMatch(h);
    if r in PublishedHeads(h).value {
      var p :| p in LatestOutput(h, IsPublishing).repositories && PutUp(h[PublicationIndex(h)], r, p);
      assert Reviewed(h, p);
    }
  }

  // ------------------------------------------------------------------ where CI leads

  predicate AnyTarget(o: Output, route: Route)
    requires o.CiSeen?
  {
    exists t <- o.targets :: t.route == route
  }

  lemma StandingAtCi(f: Facts, last: Option<Step>)
    requires At(InspectCi, f, last)
    ensures f.head
  {
  }

  lemma InspectedHeads(h: History, x: Step)
    requires Valid(h) && Place(h) == Some(InspectCi) && x.node.InspectCi? && Ok(x) && Records(h, x)
    ensures SawHeads(x.output, PublishedHeads(h)) && forall t <- x.output.targets :: CiRoute(t.route)
  {
    Standing(h, InspectCi);
    StandingAtCi(FactsOf(h), Last(h));
    HeadMeans(h);
    InspectionSaw(h, x);
  }

  /** The edges out of the three nodes that route CI results and review rounds. */
  lemma NextOfCi(y: Step)
    requires Ok(y) && y.output.CiSeen? && CiRoute(y.output.route)
    requires y.node.RouteInspectCiResult? || y.node.AssessTrackedCi?
    ensures Next(y) == Some(
      match y.output.route
      case Red => ClassifyCi
      case Pending => if y.node.RouteInspectCiResult? then TrackCi else OpportunisticTest
      case Unavailable => ChallengeBlockerGuard
      case _ => FinalizeDelivery)
  {
  }

  lemma NextOfRound(y: Step)
    requires Ok(y) && y.output.Assessed? && y.node.RouteReviewAssessment?
    requires y.output.route in {Unmovable, CommandError, Critical, P2, Clean}
    ensures Next(y) == Some(
      match y.output.route
      case Unmovable => Blocked
      case CommandError => RepairReviewCommand
      case Critical => TriageReview
      case P2 => AddressP2
      case _ => InspectComments)
  {
  }

  lemma InspectionIsEchoed(h: History, x: Step, y: Step)
    requires x.node.InspectCi? && Ok(x) && y.node.RouteInspectCiResult? && Ok(y) && Records(h + [x], y)
    ensures y.output == x.output
  {
    Reread(h + [x], InspectCi, IsInspection);
  }

  lemma RoundIsEchoed(h: History, x: Step, y: Step)
    requires IsReviewRound(x) && y.node.RouteReviewAssessment? && Ok(y) && Records(h + [x], y)
    ensures y.output == x.output
  {
    OutputStep(h, x, IsAssessment);
  }

  lemma RoundRoute(h: History, x: Step)
    requires IsReviewRound(x) && Records(h, x)
    ensures x.output.Assessed? && x.output.route == ReviewRoute(x.output.reviews, RepairAttempted(h))
  {
  }

  lemma CiRouteOf(h: History, x: Step)
    requires x.node.AssessTrackedCi? && Ok(x) && Records(h, x)
    ensures x.output.CiSeen? && x.output.route == Aggregate(x.output.targets)
    ensures forall t <- x.output.targets :: CiRoute(t.route)
  {
    var now := x.output.targets;
    forall t <- now ensures CiRoute(t.route) {
      var i :| 0 <= i < |now| && now[i] == t;
      assert CiRoute(now[i].route);
    }
  }

  /**
   Main result: after an inspection, with one target for each published pull request, the run goes on to classify
   the failures exactly when some pull request failed, to watching exactly when none failed and some is pending, to
   the challenge guard exactly when none failed or is pending and some is unavailable, and to delivery exactly when
   all are green.
   */
  lemma CiLeads(h: History, x: Step, y: Step)
    requires Valid(h) && Place(h) == Some(InspectCi) && x.node.InspectCi? && Ok(x) && Records(h, x)
    requires y.node.RouteInspectCiResult? && Ok(y) && Records(h + [x], y)
    ensures SawHeads(x.output, PublishedHeads(h))
    ensures Next(y) == Some(ClassifyCi) <==> AnyTarget(x.output, Red)
    ensures Next(y) == Some(TrackCi) <==> !AnyTarget(x.output, Red) && AnyTarget(x.output, Pending)
    ensures Next(y) == Some(ChallengeBlockerGuard) <==>
      !AnyTarget(x.output, Red) && !AnyTarget(x.output, Pending) && AnyTarget(x.output, Unavailable)
    ensures Next(y) == Some(FinalizeDelivery) <==> forall t <- x.output.targets :: t.route == Green
  {
    InspectedHeads(h, x);
    AggregateMeans(x.output.targets);
    InspectionIsEchoed(h, x, y);
    NextOfCi(y);
  }

  /** The same after a watch, except that what is still pending then is tested at once. */
  lemma WatchedCiLeads(h: History, x: Step)
    requires x.node.AssessTrackedCi? && Ok(x) && Records(h, x)
    ensures Next(x) == Some(ClassifyCi) <==> AnyTarget(x.output, Red)
    ensures Next(x) == Some(OpportunisticTest) <==> !AnyTarget(x.output, Red) && AnyTarget(x.output, Pending)
    ensures Next(x) == Some(ChallengeBlockerGuard) <==>
      !AnyTarget(x.output, Red) && !AnyTarget(x.output, Pending) && AnyTarget(x.output, Unavailable)
    ensures Next(x) == Some(FinalizeDelivery) <==> forall t <- x.output.targets :: t.route == Green
  {
    CiRouteOf(h, x);
    AggregateMeans(x.output.targets);
    NextOfCi(x);
  }

  /**
   After a round, its worst finding decides: a review that could not be run leads to one repair of the command,
   critical findings to triage, lesser ones to addressing them, and none to the comments.
   */
  lemma RoundLeads(h: History, x: Step, y: Step)
    requires IsReviewRound(x) && Records(h, x)
    requires y.node.RouteReviewAssessment? && Ok(y) && Records(h + [x], y)
    ensures Next(y) == Some(RepairReviewCommand) <==>
      !RepairAttempted(h) && exists e <- x.output.reviews :: !e.succeeded
    ensures Next(y) == Some(Blocked) <==> RepairAttempted(h) && exists e <- x.output.reviews :: !e.succeeded
    ensures Next(y) == Some(TriageReview) <==>
      (forall e <- x.output.reviews :: e.succeeded) && exists e <- x.output.reviews :: 0 < e.critical
    ensures Next(y) == Some(AddressP2) <==>
      (forall e <- x.output.reviews :: e.succeeded && e.critical == 0) && exists e <- x.output.reviews :: 0 < e.p2
    ensures Next(y) == Some(InspectComments) <==>
      forall e <- x.output.reviews :: e.succeeded && e.critical == 0 && e.p2 == 0
  {
    RoundRoute(h, x);
    ReviewRouteMeans(x.output.reviews, RepairAttempted(h));
    RoundIsEchoed(h, x, y);
    NextOfRound(y);
  }

  // ------------------------------------------------- what is reviewed after a P2 verification

  lemma ReviewedStep(b: History, x: Step, r: Repo)
    ensures Reviewed(b + [x], r) <==> Reviewed(b, r) || ReviewedAt(b + [x], |b|, r)
  {
    if Reviewed(b, r) { ReviewsStay(b, x, r); }
    if k :| ReviewedAt(b + [x], k, r) {
      if k < |b| { assert ReviewedAt(b, k, r); }
    }
  }

  lemma StandingAtAssessment(n: Node, f: Facts, last: Option<Step>)
    requires (n.AssessReview? || n.RecoverReviewAssessment?) && At(n, f, last)
    ensures f.selection
  {
  }

  /** A round looks at what the latest publish step put out, whatever a P2 verification has pushed since. */
  lemma RoundLooksAtPublished(b: History, x: Step, e: Review)
    requires Valid(b) && Place(b) == Some(x.node) && Records(b, x)
    requires IsReviewRound(x) && x.output.Assessed? && e in x.output.reviews
    ensures LatestOutput(b, IsPublishing).Published? && e.repo in LatestOutput(b, IsPublishing).repositories
  {
    Standing(b, x.node);
    StandingAtAssessment(x.node, FactsOf(b), Last(b));
    SelectionMeans(b);
  }

  lemma StandingAtP2(f: Facts, last: Option<Step>)
    requires At(VerifyP2, f, last)
    ensures f.covered
  {
  }

  lemma SameHeads(h: History, a: Repo, b: Repo)
    requires Reviewed(h, a) && SameHead(a, b)
    ensures Reviewed(h, b)
  {
    var k :| ReviewedAt(h, k, a);
    assert ReviewedAt(h, k, b);
  }

  /** The latest publish output is the one that the history `c` ends with, and all of it was reviewed by then. */
  ghost predicate CoveredBy(h: History, c: History) {
    Covered(c) && LatestOutput(h, IsPublishing) == LatestOutput(c, IsPublishing)
  }

  lemma RoundAddsNothing(b: History, x: Step, c: History, r: Repo)
    requires Valid(b) && Place(b) == Some(x.node) && Records(b, x) && CoveredBy(b, c)
    requires ReviewedAt(b + [x], |b|, r)
    ensures Reviewed(c, r)
  {
    var e :| e in x.output.reviews && e.succeeded && SameHead(e.repo, r);
    RoundLooksAtPublished(b, x, e);
    SameHeads(c, e.repo, r);
  }

  lemma CoveredAtP2(b: History, x: Step)
    requires Valid(b) && Place(b) == Some(x.node) && x.node.VerifyP2?
    ensures CoveredBy(b + [x], b)
  {
    Standing(b, VerifyP2);
    StandingAtP2(FactsOf(b), Last(b));
    CoveredMeans(b);
    OutputStep(b, x, IsPublishing);
  }

  /** After a P2 verification, and until the next publish step, no review round succeeds on anything new. */
  lemma {:induction false} NothingReviewedSince(h: History, p: nat, r: Repo)
    requires Valid(h) && p < |h| && h[p].node.VerifyP2? && NoneAfter(h, p, IsPublishing)
    ensures Reviewed(h, r) <==> Reviewed(h[..p], r)
    ensures CoveredBy(h, h[..p])
  {
    Recorded(h);
    Rejoined(h);
    var b, x := h[..|h| - 1], h[|h| - 1];
    ReviewedStep(b, x, r);
    if p == |b| {
      CoveredAtP2(b, x);
    } else {
      assert b[..p] == h[..p];
      NothingReviewedSince(b, p, r);
      OutputStep(b, x, IsPublishing);
      if ReviewedAt(h, |b|, r) { RoundAddsNothing(b, x, h[..p], r); }
    }
  }

  /**
   Main result: a delivered head has a review of its own exactly when a publish step put it up or it had
   one before.
   */
  lemma DeliveredHeadIsReviewedExactly(h: History, r: Repo)
    requires Valid(h) && Place(h) == Some(FinalizeDelivery)
    ensures PublishedHeads(h).Some? && 0 <= PublicationIndex(h)
    ensures r in PublishedHeads(h).value ==>
      (Reviewed(h, r) <==> h[PublicationIndex(h)].node.Publish? || Reviewed(h[..PublicationIndex(h)], r))
  {
    DeliveredIsReviewed(h, r);
    DeliveryIsGated(h);
    var p := PublicationIndex(h);
    if r in PublishedHeads(h).value && h[p].node.VerifyP2? {
      LaterPublishing(h, p);
      NothingReviewedSince(h, p, r);
    }
  }

  lemma LaterPublishing(h: History, p: int)
    requires NoneAfter(h, p, IsPublicationAttempt)
    ensures NoneAfter(h, p, IsPublishing)
  {
    forall k | p < k < |h| && 0 <= k ensures !IsPublishing(h[k]) { assert !IsPublicationAttempt(h[k]); }
  }

  lemma StandingAtPublish(n: Node, f: Facts, last: Option<Step>)
    requires (n.Publish? || n.FinalizeDefaultBranch?) && At(n, f, last)
    ensures f.accepted && f.verified
  {
  }

  /** Nothing is published, and no default branch finalized, before a local verification of the accepted work. */
  lemma PublicationFollowsVerification(h: History, n: Node)
    requires Valid(h) && Place(h) == Some(n) && (n.Publish? || n.FinalizeDefaultBranch?)
    ensures AcceptedAt(h, WorkIndex(h))
    ensures exists v :: WorkIndex(h) < v < |h| && IsVerified(h[v])
  {
    Standing(h, n);
    StandingAtPublish(n, FactsOf(h), Last(h));
    AcceptedHere(h);
    VerifiedMeans(h);
    LatestIsLatest(h, IsVerified);
    assert IsVerified(h[VerifiedIndex(h)]);
  }

  /** The escape hatches are bounded over the whole run. */
  lemma EscapesAreBounded(h: History)
    requires Valid(h)
    ensures Count(h, IsFallback) <= MAX_TIMEOUT_FALLBACKS
    ensures Count(h, IsChallenge) <= MAX_BLOCKER_CHALLENGES
  {
    AlwaysInv(h);
    FallbacksMean(h);
    ChallengesMean(h);
  }

  lemma BlockersHaveOrigins(x: Step)
    requires Next(x) == Some(ChallengeBlockerGuard)
    ensures OriginOf(x.node).Some?
  {
  }

  lemma NextOfGuard(x: Step)
    requires Ok(x)
    ensures x.node.TimeoutFallbackGuard? && x.output == Routed(Recover) ==> Next(x) == Some(TimeoutFallback)
    ensures x.node.TimeoutFallbackGuard? && x.output == Routed(Unmovable) ==> Next(x) == Some(Blocked)
    ensures x.node.ChallengeBlockerGuard? && x.output.Guarded? && x.output.route == Challenge ==>
      Next(x) == Some(ChallengeBlocker)
    ensures x.node.ChallengeBlockerGuard? && x.output.Guarded? && x.output.route == Unmovable ==>
      Next(x) == Some(Blocked)
  {
  }

  lemma TimeoutGuardOutput(h: History, x: Step)
    requires x.node.TimeoutFallbackGuard? && Ok(x) && Records(h, x)
    ensures x.output == Routed(if Count(h, IsFallback) < MAX_TIMEOUT_FALLBACKS then Recover else Unmovable)
  {
  }

  lemma GuardOutput(h: History, x: Step)
    requires h != [] && OriginOf(h[|h| - 1].node).Some? && x.node.ChallengeBlockerGuard? && Ok(x) && Records(h, x)
    ensures x.output.Guarded?
    ensures x.output.route == if Count(h, IsChallenge) < MAX_BLOCKER_CHALLENGES then Challenge else Unmovable
  {
  }

  lemma PlacedByLast(h: History, n: Node)
    requires Valid(h) && Place(h) == Some(n) && !n.Prepare?
    ensures h != [] && Next(h[|h| - 1]) == Some(n)
  {
  }

  /** And they are used while they last: below its bound a guard lets a timeout recover, or a blocker be challenged. */
  lemma EscapesAreTaken(h: History, x: Step)
    requires Valid(h) && Place(h) == Some(x.node) && Ok(x) && Records(h, x)
    ensures x.node.TimeoutFallbackGuard? ==>
      Next(x) == Some(if Count(h, IsFallback) < MAX_TIMEOUT_FALLBACKS then TimeoutFallback else Blocked)
    ensures x.node.ChallengeBlockerGuard? ==>
      Next(x) == Some(if Count(h, IsChallenge) < MAX_BLOCKER_CHALLENGES then ChallengeBlocker else Blocked)
  {
    if x.node.ChallengeBlockerGuard? {
      PlacedByLast(h, x.node);
      BlockersHaveOrigins(h[|h| - 1]);
      GuardOutput(h, x);
      NextOfGuard(x);
    } else if x.node.TimeoutFallbackGuard? {
      TimeoutGuardOutput(h, x);
      NextOfGuard(x);
    }
  }

  /** Which answers a fallback may give after each of the nodes that can time out. */
  lemma FallbackByNode(h: History, n: Node, r: Route)
    requires LatestTimedOut(h) == Some(n)
    ensures FallbackAccepted(h, r) <==>
      || r in {Retry, Replan, Unmovable}
      || (r == Verify && n == PlanVerification && HasCurrentAcceptedWork(h))
      || (r == ToReview && n == InspectComments && HasCurrentPublication(h))
      || (&& r == Ci && n in {InspectComments, InspectCi, OpportunisticTest}
          && HasCurrentPublication(h) && 0 <= CurrentCommentsIndex(h))
      || (&& r == Deliver && n in {InspectCi, OpportunisticTest, FinalizeDelivery}
          && HasCurrentPublication(h) && HasCurrentReadyCi(h))
  {
  }

  lemma TimedOutStays(h: History, x: Step)
    requires Ok(x)
    ensures LatestTimedOut(h + [x]) == LatestTimedOut(h)
  {
    Appended(h, x, IsSupportedTimeout);
    LatestIsLatest(h, IsSupportedTimeout);
  }

  lemma TimedOutIsSource(h: History)
    ensures LatestTimedOut(h).Some? ==> FallbackSource(LatestTimedOut(h).value)
  {
    LatestIsLatest(h, IsSupportedTimeout);
  }

  lemma NextOfJump(y: Step, n: Node)
    requires Ok(y) && y.output == GoTo(n)
    ensures y.node.RouteTimeoutFallback? && FallbackCase(n) ==> Next(y) == Some(n)
    ensures y.node.RouteBlockerRecovery? && RecoveryCase(n) ==> Next(y) == Some(n)
  {
  }

  /** After a timeout the fallback's answer decides: the very node again, a node it was entitled to, or the end. */
  lemma FallbackLeads(h: History, x: Step, y: Step)
    requires x.node.TimeoutFallback? && Ok(x) && Records(h, x)
    requires y.node.RouteTimeoutFallback? && Ok(y) && Records(h + [x], y)
    ensures LatestTimedOut(h).Some? && x.output.Routed?
    ensures Next(y) == Some(
      match x.output.route
      case Replan => Redesign
      case Verify => SelectVerificationPath
      case ToReview => SelectReviewCommands
      case Ci => InspectCi
      case Deliver => FinalizeDelivery
      case Retry => LatestTimedOut(h).value
      case _ => Blocked)
  {
    Reread(h + [x], TimeoutFallback, IsFallback);
    TimedOutStays(h, x);
    TimedOutIsSource(h);
    NextOfJump(y, FallbackTarget(LatestTimedOut(h).value, x.output.route));
  }

  /** Where a challenge of each kind of blocker may lead back to. */
  lemma RecoveryByOrigin(origin: Origin, n: Node)
    ensures RecoveryAllowed(origin, n) <==>
      n in match origin
           case FromImplementation => {Redesign, Fix}
           case FromVerification => {PlanVerification, Fix}
           case FromReviewer => {RepairReviewCommand, SelectReviewCommands}
           case FromComments => {InspectComments, Fix}
           case FromCi => {InspectCi, OpportunisticTest}
           case FromDelivery => {InspectComments, InspectCi}
           case FromDefaultBranch => {FinalizeDefaultBranch}
    ensures RecoveryAllowed(origin, n) ==> RecoveryCase(n)
  {
  }

  /** A challenge that goes on leads back to the recovery it claims, one allowed for the very node that was blocked. */
  lemma ChallengeLeads(h: History, g: Step, x: Step, y: Step)
    requires h != [] && g.node.ChallengeBlockerGuard? && Ok(g) && Records(h, g)
    requires x.node.ChallengeBlocker? && Ok(x) && Records(h + [g], x)
    requires y.node.RouteBlockerRecovery? && Ok(y) && Records(h + [g] + [x], y)
    ensures x.output.Challenged? && OriginOf(h[|h| - 1].node) == Some(x.output.claimed)
    ensures RecoveryAllowed(x.output.claimed, x.output.recovery) && Next(y) == Some(x.output.recovery)
  {
    Reread(h + [g], ChallengeBlockerGuard, IsChallenge);
    Reread(h + [g] + [x], ChallengeBlocker, IsChallenge);
    RecoveryByOrigin(x.output.claimed, x.output.recovery);
    NextOfJump(y, x.output.recovery);
  }

  predicate Judges(n: Node) {
    n.ClassifyImplementation? || n.TriageReview? || n.RouteInspectCommentsResult? || n.ClassifyCi?
  }

  /** Whoever judges what is wrong, the same answers lead to the same places; what is left depends on who was asked. */
  lemma JudgementsLead(x: Step)
    requires Judges(x.node) && Ok(x) && x.output.Routed?
    ensures Next(x) == Some(Redesign) <==> x.output.route == Redo
    ensures Next(x) == Some(Fix) <==> x.output.route == Repairable
    ensures Next(x) == Some(ChallengeBlockerGuard) <==> x.output.route == Unmovable && x.node != TriageReview
    ensures Next(x) == Some(SelectVerificationPath) <==> x.output.route == Verify && x.node == ClassifyImplementation
    ensures Next(x) == Some(InspectCi) <==> x.output.route == Ci && x.node == RouteInspectCommentsResult
    ensures Next(x) == Some(FinalizeDelivery) <==> x.output.route == Unrelated && x.node == ClassifyCi
  {
  }

  /** CI is watched until it can be assessed, with repairs of the watching command in between or a challenge. */
  lemma WatchLeads(x: Step)
    requires (x.node.TrackCi? || x.node.RepairCiCommand?) && Ok(x) && x.output.Routed?
    ensures Next(x) == Some(AssessTrackedCi) <==> x.node.TrackCi? && x.output.route == Assess
    ensures Next(x) == Some(RepairCiCommand) <==> x.node.TrackCi? && x.output.route == Repair
    ensures Next(x) == Some(TrackCi) <==> x.node.RepairCiCommand? && x.output.route == Retry
    ensures Next(x) == Some(ChallengeBlockerGuard) <==> x.node.RepairCiCommand? && x.output.route == Unmovable
  {
  }

  /** Only a blocked verification can be challenged; any other included workflow that blocks ends the run. */
  lemma ExitsLead(x: Step)
    requires Ok(x) && x.output.Exited? && x.node in {Workspace, Documentation, Redesign, LocalVerification}
    ensures Next(x) == Some(Blocked) <==> !x.output.ready && x.node != LocalVerification
    ensures Next(x) == Some(ChallengeBlockerGuard) <==> !x.output.ready && x.node == LocalVerification
    ensures Next(x) == Some(Implement) <==> x.output.ready && x.node == Documentation
    ensures Next(x) == Some(AdoptPlan) <==> x.output.ready && x.node == Redesign
    ensures Next(x) == Some(RouteWorkspace) <==> x.output.ready && x.node == Workspace
    ensures Next(x) == Some(RouteVerifiedWorkspace) <==> x.output.ready && x.node == LocalVerification
  {
  }

  /** Review commands that do not run through are repaired before the first repair, and end the run after it. */
  lemma ReviewRunLeads(h: History, x: Step)
    requires x.node.RunReview? && Ok(x) && Records(h, x)
    ensures Next(x) == Some(AssessReview) <==> x.output.Batch? && x.output.route == Assess
    ensures Next(x) == Some(RepairReviewCommand) <==> x.output.route != Assess && !RepairAttempted(h)
    ensures Next(x) == Some(Blocked) <==> x.output.route != Assess && RepairAttempted(h)
  {
  }

  /** A step that did not succeed is recovered from only where the graph says so, and a cancelled one never. */
  lemma FailuresLead(x: Step)
    requires !Ok(x)
    ensures Next(x) == Some(TimeoutFallbackGuard) <==> IsSupportedTimeout(x)
    ensures Next(x) == Some(RecoverReviewAssessment) <==> x.outcome.TimedOut? && x.node == AssessReview
    ensures Next(x) == Some(ReviewAssessmentRecoveryBlocked) <==>
      x.outcome.TimedOut? && x.node == RecoverReviewAssessment
    ensures Next(x) == Some(PropagateSupportedFailure) <==>
      x.outcome.Failed? && (FallbackSource(x.node) || IsAssessment(x))
    ensures Next(x).None? <==>
      x.outcome.Cancelled? || (!FallbackSource(x.node) && !x.node.AssessReview? && !x.node.RecoverReviewAssessment?)
  {
  }
}
