/**
 No path of the autoimplement graph skips a gate: what each node may rely on when it is
 entered, for every history the graph can produce, with timeout fallbacks, retries and
 blocker recoveries included. The proof runs on a summary that one step updates; this
 file shows that the summary says about the history what the source's predicates say
 when they search it.
 */
module AutoimplementGates {
  import opened Options
  import opened AutoimplementGraph

  /**
   What a history is good for. `published` and `head`: the latest publication is newer
   than all work, and no later attempt to publish failed. `ci` and `unrelated` are the
   latest CI route and classification since the latest comments. `seen`: the latest CI
   inspection is newer than the comments and saw the published heads; `ciOfHead` says
   so of the latest CI result.
   */
  datatype Facts = Facts(accepted: bool, verified: bool, published: bool, head: bool, publishedVerified: bool,
                         publishOk: bool, covered: bool, selection: bool,
                         commented: bool, ci: Option<Route>, unrelated: bool, seen: bool, ciOfHead: bool,
                         timedOut: Option<Node>, fallbacks: nat, challenges: nat)

  function Start(): Facts {
    Facts(false, false, false, false, false, false, false, false, false, None, false, false, false, None, 0, 0)
  }

  function RouteOf(o: Output): Option<Route> {
    match o
    case Routed(r) => Some(r)
    case CiSeen(r, _) => Some(r)
    case _ => None
  }

  predicate RoundSucceeded(x: Step) {
    IsReviewRound(x) && x.output.Assessed? && (x.output.route.Critical? || x.output.route.P2? || x.output.route.Clean?)
  }

  predicate ReusesAll(x: Step) {
    Ok(x) && x.node.SelectReviewCommands? && x.output.Selected? && x.output.route.Reuse?
  }

  function Advance(f: Facts, x: Step): Facts {
    var ok := Ok(x);
    Facts(
      if IsWorkAttempt(x) then ok else f.accepted,
      if IsWorkAttempt(x) then false else IsVerified(x) || f.verified,
      if IsWorkAttempt(x) then false else IsPublication(x) || f.published,
      if IsPublicationAttempt(x) then IsPublication(x) else f.head,
      if IsWorkAttempt(x) then false
      else if IsPublication(x) then (x.node.Publish? ==> f.verified) else f.publishedVerified,
      if IsPublishing(x) then x.output.Published? else f.publishOk,
      if IsPublishing(x) then false
      else f.covered || (f.publishOk && ReusesAll(x)) || (f.selection && RoundSucceeded(x)),
      if IsPublishing(x) then false else if IsSelection(x) then ok && f.publishOk else f.selection,
      if IsPublication(x) then false else if IsComments(x) then RouteOf(x.output) == Some(Ci) else f.commented,
      if IsComments(x) then None else if IsCi(x) then RouteOf(x.output) else f.ci,
      if IsCi(x) then false else if IsClassification(x) then RouteOf(x.output) == Some(Unrelated) else f.unrelated,
      if IsComments(x) || IsPublication(x) then false
      else if IsInspection(x) then ok && f.published && f.head else f.seen,
      if IsComments(x) || IsPublication(x) then false
      else if IsCi(x) then (if IsInspection(x) then f.published && f.head else f.seen) else f.ciOfHead,
      if IsSupportedTimeout(x) then Some(x.node) else f.timedOut,
      f.fallbacks + (if IsFallback(x) then 1 else 0),
      f.challenges + (if IsChallenge(x) then 1 else 0))
  }

  function FactsOf(h: History): Facts {
    if |h| == 0 then Start() else Advance(FactsOf(h[..|h| - 1]), h[|h| - 1])
  }

  lemma Rejoined(h: History)
    requires |h| != 0
    ensures h[..|h| - 1] + [h[|h| - 1]] == h
  {
  }

  // ------------------------------------- the summary says what the searches say

  lemma {:induction false} AcceptedMeans(h: History)
    ensures FactsOf(h).accepted == HasCurrentAcceptedWork(h)
  {
    if |h| != 0 {
      Rejoined(h);
      AcceptedMeans(h[..|h| - 1]);
      Appended(h[..|h| - 1], h[|h| - 1], IsWorkAttempt);
    }
  }

  lemma {:induction false} PublishedMeans(h: History)
    ensures FactsOf(h).published == HasCurrentPublication(h)
  {
    if |h| != 0 {
      Rejoined(h);
      PublishedMeans(h[..|h| - 1]);
      Appended(h[..|h| - 1], h[|h| - 1], IsWorkAttempt);
      Appended(h[..|h| - 1], h[|h| - 1], IsPublication);
    }
  }

  lemma {:induction false} HeadMeans(h: History)
    ensures FactsOf(h).head ==> 0 <= PublicationIndex(h) == LatestStepIndex(h, IsPublicationAttempt)
  {
    if |h| != 0 {
      Rejoined(h);
      HeadMeans(h[..|h| - 1]);
      HeadStep(h[..|h| - 1], h[|h| - 1]);
    }
  }

  lemma HeadStep(b: History, x: Step)
    ensures IsPublication(x) ==> PublicationIndex(b + [x]) == LatestStepIndex(b + [x], IsPublicationAttempt) == |b|
    ensures !IsPublicationAttempt(x) ==>
      && PublicationIndex(b + [x]) == PublicationIndex(b)
      && LatestStepIndex(b + [x], IsPublicationAttempt) == LatestStepIndex(b, IsPublicationAttempt)
  {
    Appended(b, x, IsPublication);
    Appended(b, x, IsPublicationAttempt);
  }

  lemma {:induction false} CommentsMean(h: History)
    ensures FactsOf(h).commented == (0 <= CurrentCommentsIndex(h))
  {
    if |h| != 0 {
      Rejoined(h);
      CommentsMean(h[..|h| - 1]);
      CommentsStep(h[..|h| - 1], h[|h| - 1]);
    }
  }

  lemma CommentsStep(b: History, x: Step)
    ensures (0 <= CurrentCommentsIndex(b + [x]))
         == if IsPublication(x) then false
            else if IsComments(x) then RouteOf(x.output) == Some(Ci) else 0 <= CurrentCommentsIndex(b)
  {
    Appended(b, x, IsComments);
    Appended(b, x, IsPublication);
    LatestIsLatest(b, IsPublication);
    LatestIsLatest(b, IsComments);
  }

  predicate Ready(f: Facts) {
    f.commented && (f.ci == Some(Green) || (f.ci == Some(Red) && f.unrelated))
  }

  function LatestRoute(h: History, i: int): Option<Route> {
    if 0 <= i < |h| then RouteOf(h[i].output) else None
  }

  function CiSince(h: History): Option<Route> {
    if CommentsIndex(h) < CiIndex(h) then LatestRoute(h, CiIndex(h)) else None
  }

  predicate UnrelatedSince(h: History) {
    var k := LatestStepIndex(h, IsClassification);
    CiIndex(h) < k && LatestRoute(h, k) == Some(Unrelated)
  }

  lemma CiStep(b: History, x: Step)
    ensures CiSince(b + [x]) == if IsComments(x) then None else if IsCi(x) then RouteOf(x.output) else CiSince(b)
  {
    Appended(b, x, IsComments);
    Appended(b, x, IsCi);
  }

  lemma UnrelatedStep(b: History, x: Step)
    ensures UnrelatedSince(b + [x])
         == if IsCi(x) then false
            else if IsClassification(x) then RouteOf(x.output) == Some(Unrelated) else UnrelatedSince(b)
  {
    Appended(b, x, IsClassification);
    Appended(b, x, IsCi);
  }

  lemma {:induction false} CiMeans(h: History)
    ensures FactsOf(h).ci == CiSince(h) && FactsOf(h).unrelated == UnrelatedSince(h)
  {
    if |h| != 0 {
      Rejoined(h);
      CiMeans(h[..|h| - 1]);
      CiStep(h[..|h| - 1], h[|h| - 1]);
      UnrelatedStep(h[..|h| - 1], h[|h| - 1]);
    }
  }

  /** The summary's notion of ready is exactly the source's `hasCurrentReadyCi`. */
  lemma ReadyMeans(h: History)
    ensures Ready(FactsOf(h)) == HasCurrentReadyCi(h)
  {
    CommentsMean(h);
    CiMeans(h);
    ReadyBySearch(h);
  }

  lemma ReadyBySearch(h: History)
    ensures HasCurrentReadyCi(h)
        <==> && 0 <= CurrentCommentsIndex(h)
             && (CiSince(h) == Some(Green) || (CiSince(h) == Some(Red) && UnrelatedSince(h)))
  {
  }

  lemma {:induction false} TimeoutMeans(h: History)
    ensures FactsOf(h).timedOut == LatestTimedOut(h)
  {
    if |h| != 0 {
      Rejoined(h);
      TimeoutMeans(h[..|h| - 1]);
      TimeoutStep(h[..|h| - 1], h[|h| - 1]);
    }
  }

  lemma TimeoutStep(b: History, x: Step)
    ensures LatestTimedOut(b + [x]) == if IsSupportedTimeout(x) then Some(x.node) else LatestTimedOut(b)
  {
    Appended(b, x, IsSupportedTimeout);
  }

  lemma {:induction false} FallbacksMean(h: History)
    ensures FactsOf(h).fallbacks == Count(h, IsFallback)
  {
    if |h| != 0 {
      Rejoined(h);
      FallbacksMean(h[..|h| - 1]);
      Counted(h[..|h| - 1], h[|h| - 1], IsFallback);
    }
  }

  lemma {:induction false} ChallengesMean(h: History)
    ensures FactsOf(h).challenges == Count(h, IsChallenge)
  {
    if |h| != 0 {
      Rejoined(h);
      ChallengesMean(h[..|h| - 1]);
      Counted(h[..|h| - 1], h[|h| - 1], IsChallenge);
    }
  }

  // -------------------------------------------------------------- local verification

  function VerifiedIndex(h: History): int { LatestStepIndex(h, IsVerified) }

  lemma {:induction false} VerifiedMeans(h: History)
    ensures FactsOf(h).verified == (WorkIndex(h) < VerifiedIndex(h))
  {
    if |h| != 0 {
      Rejoined(h);
      VerifiedMeans(h[..|h| - 1]);
      Appended(h[..|h| - 1], h[|h| - 1], IsWorkAttempt);
      Appended(h[..|h| - 1], h[|h| - 1], IsVerified);
    }
  }

  /** What was published had been verified: by the local run, or by the P2 check that published it. */
  ghost predicate PublishedVerified(h: History) {
    var p := PublicationIndex(h);
    0 <= p && (h[p].node.Publish? ==> exists v :: WorkIndex(h) < v < p && IsVerified(h[v]))
  }

  lemma PublishedVerifiedStep(b: History, x: Step)
    requires !IsWorkAttempt(x)
    requires IsPublication(x) ==> x.node.Publish? ==> WorkIndex(b) < VerifiedIndex(b)
    requires !IsPublication(x) ==> PublishedVerified(b)
    ensures PublishedVerified(b + [x])
  {
    var h := b + [x];
    Appended(b, x, IsWorkAttempt);
    Appended(b, x, IsPublication);
    if IsPublication(x) {
      LatestIsLatest(b, IsVerified);
      if x.node.Publish? { assert IsVerified(h[VerifiedIndex(b)]); }
    } else if b[PublicationIndex(b)].node.Publish? {
      var v :| WorkIndex(b) < v < PublicationIndex(b) && IsVerified(b[v]);
      assert IsVerified(h[v]);
    }
  }

  lemma {:induction false} PublishedVerifiedMeans(h: History)
    ensures FactsOf(h).publishedVerified ==> PublishedVerified(h)
  {
    if |h| != 0 && FactsOf(h).publishedVerified {
      Rejoined(h);
      PublishedVerifiedMeans(h[..|h| - 1]);
      VerifiedMeans(h[..|h| - 1]);
      PublishedVerifiedStep(h[..|h| - 1], h[|h| - 1]);
    }
  }

  // ------------------------------------------------------------------------- reviews

  /** Every repository of the latest publish output has a successful review of exactly its head. */
  ghost predicate Covered(h: History) {
    && LatestOutput(h, IsPublishing).Published?
    && forall r <- LatestOutput(h, IsPublishing).repositories :: Reviewed(h, r)
  }

  /** The latest selection, with the rounds so far, accounts for all of the latest publish output. */
  ghost predicate SelectionCurrent(h: History) {
    && LatestOutput(h, IsPublishing).Published?
    && LatestOutput(h, IsSelection).Selected?
    && (forall r <- LatestOutput(h, IsSelection).repositories :: r in LatestOutput(h, IsPublishing).repositories)
    && (forall r <- LatestOutput(h, IsPublishing).repositories ::
         Reviewed(h, r) || r in LatestOutput(h, IsSelection).repositories)
  }

  lemma OutputStep(b: History, x: Step, p: Step -> bool)
    ensures LatestOutput(b + [x], p) == if p(x) then x.output else LatestOutput(b, p)
  {
    Appended(b, x, p);
  }

  lemma ReviewsStay(b: History, x: Step, r: Repo)
    requires Reviewed(b, r)
    ensures Reviewed(b + [x], r)
  {
    var k :| ReviewedAt(b, k, r);
    assert ReviewedAt(b + [x], k, r);
  }

  lemma CoveredStays(b: History, x: Step)
    requires Covered(b) && !IsPublishing(x)
    ensures Covered(b + [x])
  {
    OutputStep(b, x, IsPublishing);
    forall r <- LatestOutput(b, IsPublishing).repositories ensures Reviewed(b + [x], r) { ReviewsStay(b, x, r); }
  }

  /** Nothing left to review means everything is reviewed. */
  lemma ReuseCovers(b: History, x: Step)
    requires ReusesAll(x) && Yields(b, x.node, x.output)
    ensures Covered(b + [x])
  {
    OutputStep(b, x, IsPublishing);
    forall r <- LatestOutput(b, IsPublishing).repositories ensures Reviewed(b + [x], r) { ReviewsStay(b, x, r); }
  }

  /** No two of these repositories share an id. */
  predicate DistinctRepos(repos: seq<Repo>) {
    forall a, b :: a in repos && b in repos && a.id == b.id ==> a == b
  }

  lemma EntryOf(reviews: seq<Review>, selected: seq<Repo>, clean: set<Id>, r: Repo) returns (e: Review)
    requires RoundAccepted(reviews, selected, clean) && DistinctRepos(selected) && r in selected
    ensures e in reviews && e.repo == r
  {
    var i :| 0 <= i < |reviews| && ReviewIds(reviews)[i] == r.id;
    e := reviews[i];
  }

  /** A round in which every invocation succeeded reviews everything that was selected. */
  lemma RoundReviews(b: History, x: Step, r: Repo)
    requires RoundSucceeded(x) && Yields(b, x.node, x.output)
    requires DistinctRepos(LatestOutput(b, IsSelection).repositories)
    requires r in LatestOutput(b, IsSelection).repositories
    ensures Reviewed(b + [x], r)
  {
    var selected, clean := LatestOutput(b, IsSelection).repositories, LatestOutput(b, IsReviewRun).clean;
    var e := EntryOf(x.output.reviews, selected, clean, r);
    assert e.succeeded && SameHead(e.repo, r);
    assert ReviewedAt(b + [x], |b|, r);
  }

  lemma RoundCovers(b: History, x: Step)
    requires RoundSucceeded(x) && Yields(b, x.node, x.output)
    requires SelectionCurrent(b) && DistinctRepos(LatestOutput(b, IsPublishing).repositories)
    ensures Covered(b + [x])
  {
    OutputStep(b, x, IsPublishing);
    forall r <- LatestOutput(b, IsPublishing).repositories ensures Reviewed(b + [x], r) {
      if Reviewed(b, r) { ReviewsStay(b, x, r); } else { RoundReviews(b, x, r); }
    }
  }

  lemma SelectionStays(b: History, x: Step)
    requires SelectionCurrent(b) && !IsPublishing(x) && !IsSelection(x)
    ensures SelectionCurrent(b + [x])
  {
    OutputStep(b, x, IsPublishing);
    OutputStep(b, x, IsSelection);
    forall r <- LatestOutput(b, IsPublishing).repositories | Reviewed(b, r) ensures Reviewed(b + [x], r) {
      ReviewsStay(b, x, r);
    }
  }

  lemma SelectionAccounts(b: History, x: Step)
    requires Ok(x) && x.node.SelectReviewCommands? && Yields(b, x.node, x.output)
    ensures SelectionCurrent(b + [x])
  {
    OutputStep(b, x, IsPublishing);
    OutputStep(b, x, IsSelection);
    forall r <- LatestOutput(b, IsPublishing).repositories | Reviewed(b, r) ensures Reviewed(b + [x], r) {
      ReviewsStay(b, x, r);
    }
  }

  lemma {:induction false} PublishesOne(h: History)
    requires Valid(h)
    ensures LatestOutput(h, IsPublishing).Published? ==> |LatestOutput(h, IsPublishing).repositories| == 1
  {
    if |h| != 0 {
      Rejoined(h);
      PublishesOne(h[..|h| - 1]);
      OutputStep(h[..|h| - 1], h[|h| - 1], IsPublishing);
    }
  }

  lemma Recorded(h: History)
    requires Valid(h) && |h| != 0
    ensures Valid(h[..|h| - 1]) && Records(h[..|h| - 1], h[|h| - 1]) && Place(h[..|h| - 1]) == Some(h[|h| - 1].node)
  {
  }

  lemma SelectionStep(f: Facts, b: History, x: Step)
    requires Records(b, x)
    requires f.selection ==> SelectionCurrent(b)
    ensures Advance(f, x).selection ==> SelectionCurrent(b + [x])
  {
    if Advance(f, x).selection {
      if IsSelection(x) { SelectionAccounts(b, x); } else { SelectionStays(b, x); }
    }
  }

  lemma {:induction false} SelectionMeans(h: History)
    requires Valid(h)
    ensures FactsOf(h).selection ==> SelectionCurrent(h)
  {
    if |h| != 0 {
      Rejoined(h);
      Recorded(h);
      SelectionMeans(h[..|h| - 1]);
      SelectionStep(FactsOf(h[..|h| - 1]), h[..|h| - 1], h[|h| - 1]);
    }
  }

  lemma CoveredStep(f: Facts, b: History, x: Step)
    requires Records(b, x)
    requires f.covered ==> Covered(b)
    requires f.selection ==> SelectionCurrent(b)
    requires SelectionCurrent(b) ==> DistinctRepos(LatestOutput(b, IsPublishing).repositories)
    ensures Advance(f, x).covered ==> Covered(b + [x])
  {
    if Advance(f, x).covered {
      if f.covered {
        CoveredStays(b, x);
      } else if ReusesAll(x) {
        ReuseCovers(b, x);
      } else {
        RoundCovers(b, x);
      }
    }
  }

  lemma DistinctPublished(h: History)
    requires Valid(h)
    ensures SelectionCurrent(h) ==> DistinctRepos(LatestOutput(h, IsPublishing).repositories)
  {
    if SelectionCurrent(h) {
      PublishesOne(h);
      OneIsDistinct(LatestOutput(h, IsPublishing).repositories);
    }
  }

  lemma OneIsDistinct(repos: seq<Repo>)
    requires |repos| <= 1
    ensures DistinctRepos(repos)
  {
  }

  lemma {:induction false} CoveredMeans(h: History)
    requires Valid(h)
    ensures FactsOf(h).covered ==> Covered(h)
  {
    if |h| != 0 {
      Rejoined(h);
      Recorded(h);
      CoveredMeans(h[..|h| - 1]);
      SelectionMeans(h[..|h| - 1]);
      DistinctPublished(h[..|h| - 1]);
      CoveredStep(FactsOf(h[..|h| - 1]), h[..|h| - 1], h[|h| - 1]);
    }
  }

  // -------------------------------------------------------------------- CI evidence

  /** The repositories of the latest publication. */
  function PublishedHeads(h: History): Option<seq<Repo>> {
    if PublicationIndex(h) < 0 then None else Repositories(h[PublicationIndex(h)].output)
  }

  /** A CI result about exactly the published heads and pull requests, with the aggregate route. */
  predicate SawHeads(o: Output, heads: Option<seq<Repo>>) {
    && heads.Some? && o.CiSeen? && TargetsMatch(o.targets, heads.value) && o.route == Aggregate(o.targets)
  }

  lemma HeadsStep(b: History, x: Step)
    ensures PublishedHeads(b + [x]) == if IsPublication(x) then Repositories(x.output) else PublishedHeads(b)
  {
    Appended(b, x, IsPublication);
  }

  lemma TrackedHeads(now: seq<Target>, before: seq<Target>, repos: seq<Repo>)
    requires TargetsMatch(before, repos) && Tracked(now, before)
    ensures TargetsMatch(now, repos)
  {
    assert TargetIds(now) == TargetIds(before);
    forall t <- now ensures CiRoute(t.route) && TargetOfRepo(t, repos) {
      var i :| 0 <= i < |now| && now[i] == t;
      assert before[i] in before;
      var r :| r in repos && before[i].id == r.id && before[i].headRevision == r.headRevision && before[i].pr == r.pr;
      assert t.id == r.id && t.headRevision == r.headRevision && t.pr == r.pr;
    }
  }

  /** An inspection sees the latest attempt to publish, which must be the publication. */
  lemma InspectionSaw(b: History, x: Step)
    requires Ok(x) && x.node.InspectCi? && Records(b, x)
    requires 0 <= PublicationIndex(b) == LatestStepIndex(b, IsPublicationAttempt)
    ensures SawHeads(x.output, PublishedHeads(b))
  {
  }

  lemma WatchSaw(b: History, x: Step)
    requires Ok(x) && x.node.AssessTrackedCi? && Yields(b, x.node, x.output)
    requires SawHeads(LatestOutput(b, IsInspection), PublishedHeads(b))
    ensures SawHeads(x.output, PublishedHeads(b))
  {
    TrackedHeads(x.output.targets, LatestOutput(b, IsInspection).targets, PublishedHeads(b).value);
  }

  lemma SeenStep(f: Facts, b: History, x: Step)
    requires Records(b, x)
    requires f.head ==> 0 <= PublicationIndex(b) == LatestStepIndex(b, IsPublicationAttempt)
    requires f.seen ==> SawHeads(LatestOutput(b, IsInspection), PublishedHeads(b))
    ensures Advance(f, x).seen ==> SawHeads(LatestOutput(b + [x], IsInspection), PublishedHeads(b + [x]))
  {
    if Advance(f, x).seen {
      HeadsStep(b, x);
      OutputStep(b, x, IsInspection);
      if IsInspection(x) { InspectionSaw(b, x); }
    }
  }

  lemma {:induction false} SeenMeans(h: History)
    requires Valid(h)
    ensures FactsOf(h).seen ==> SawHeads(LatestOutput(h, IsInspection), PublishedHeads(h))
  {
    if |h| != 0 {
      Rejoined(h);
      Recorded(h);
      SeenMeans(h[..|h| - 1]);
      HeadMeans(h[..|h| - 1]);
      SeenStep(FactsOf(h[..|h| - 1]), h[..|h| - 1], h[|h| - 1]);
    }
  }

  lemma CiOfHeadStep(f: Facts, b: History, x: Step)
    requires Records(b, x)
    requires f.head ==> 0 <= PublicationIndex(b) == LatestStepIndex(b, IsPublicationAttempt)
    requires f.seen ==> SawHeads(LatestOutput(b, IsInspection), PublishedHeads(b))
    requires f.ciOfHead ==> SawHeads(LatestOutput(b, IsCi), PublishedHeads(b))
    ensures Advance(f, x).ciOfHead ==> SawHeads(LatestOutput(b + [x], IsCi), PublishedHeads(b + [x]))
  {
    if Advance(f, x).ciOfHead {
      HeadsStep(b, x);
      OutputStep(b, x, IsCi);
      if IsCi(x) {
        if IsInspection(x) { InspectionSaw(b, x); } else { WatchSaw(b, x); }
      }
    }
  }

  lemma {:induction false} CiOfHeadMeans(h: History)
    requires Valid(h)
    ensures FactsOf(h).ciOfHead ==> SawHeads(LatestOutput(h, IsCi), PublishedHeads(h))
  {
    if |h| != 0 {
      Rejoined(h);
      Recorded(h);
      CiOfHeadMeans(h[..|h| - 1]);
      SeenMeans(h[..|h| - 1]);
      HeadMeans(h[..|h| - 1]);
      CiOfHeadStep(FactsOf(h[..|h| - 1]), h[..|h| - 1], h[|h| - 1]);
    }
  }
}
