/**
 Runs of the autoimplement graph that do happen: one that delivers, and one that delivers
 a head whose only review found something critical. What lets the second one through is
 said exactly: the selection looks for a successful review of the head, not at its findings.
 */
module AutoimplementReach {
  import opened Options
  import opened AutoimplementGraph
  import opened AutoimplementGates

  function Ran(node: Node, o: Output): Step { Step(node, Succeeded, o) }

  lemma Extend(h: History, x: Step)
    requires Valid(h) && Place(h) == Some(x.node) && Records(h, x)
    ensures Valid(h + [x]) && Place(h + [x]) == Next(x)
  {
    assert (h + [x])[..|h|] == h;
  }

  /** A step that no gate reads leaves the latest publication, selection and rounds where they are. */
  lemma Later(h: History, x: Step)
    requires !IsPublicationAttempt(x) && !IsSelection(x) && !IsReviewRun(x) && !IsAssessment(x)
    ensures LatestOutput(h + [x], IsPublishing) == LatestOutput(h, IsPublishing)
    ensures LatestOutput(h + [x], IsPublicationAttempt) == LatestOutput(h, IsPublicationAttempt)
    ensures LatestOutput(h + [x], IsSelection) == LatestOutput(h, IsSelection)
    ensures LatestOutput(h + [x], IsReviewRun) == LatestOutput(h, IsReviewRun)
    ensures LatestOutput(h + [x], IsAssessment) == LatestOutput(h, IsAssessment)
  {
    OutputStep(h, x, IsPublishing);
    OutputStep(h, x, IsPublicationAttempt);
    OutputStep(h, x, IsSelection);
    OutputStep(h, x, IsReviewRun);
    OutputStep(h, x, IsAssessment);
  }

  /** From a fix to a publication of `r`, with the verification that has to come between. */
  lemma FixAndPublish(h: History, r: Repo) returns (e: History)
    requires Valid(h) && Place(h) == Some(Fix) && r.baseRevision != r.headRevision
    ensures Valid(h + e) && Place(h + e) == Some(SelectReviewCommands)
    ensures forall x <- e :: !IsReviewRound(x)
    ensures LatestOutput(h + e, IsPublishing) == Published([r])
    ensures LatestOutput(h + e, IsPublicationAttempt) == Published([r])
    ensures |e| == 5
  {
    var x1, x2 := Ran(Fix, Routed(Continue)), Ran(SelectVerificationPath, Routed(Verify));
    var x3, x4 := Ran(LocalVerification, Exited(true)), Ran(RouteVerifiedWorkspace, Routed(PullRequest));
    var x5 := Ran(Publish, Published([r]));
    var h1 := h + [x1];
    Extend(h, x1);
    var h2 := h1 + [x2];
    Extend(h1, x2);
    var h3 := h2 + [x3];
    Extend(h2, x3);
    var h4 := h3 + [x4];
    Extend(h3, x4);
    Extend(h4, x5);
    OutputStep(h4, x5, IsPublishing);
    OutputStep(h4, x5, IsPublicationAttempt);
    e := [x1, x2, x3, x4, x5];
    assert h + e == h4 + [x5];
  }

  lemma StillReviewed(h: History, e: History, r: Repo)
    requires Reviewed(h, r)
    ensures Reviewed(h + e, r)
  {
    var k :| ReviewedAt(h, k, r);
    assert ReviewedAt(h + e, k, r);
  }

  lemma NothingLeft(h: History, r: Repo)
    requires Reviewed(h, r)
    ensures SelectReviews(h, [r]) == Selected(Reuse, [])
  {
    assert [r][1..] == [];
    assert Unreviewed(h, [r][1..]) == [];
  }

  lemma Chained(h: History, a: History, b: History, c: History)
    ensures h + (a + b + c) == ((h + a) + b) + c
    ensures h + (a + b) == (h + a) + b
  {
  }

  /** A selection leaves out what has a successful review of exactly its head, and nothing else. */
  lemma {:induction false} LeftOutExactly(h: History, repos: seq<Repo>)
    ensures Unreviewed(h, repos) == [] <==> forall r <- repos :: Reviewed(h, r)
    decreases |repos|
  {
    if |repos| != 0 {
      LeftOutExactly(h, repos[1..]);
      assert repos == [repos[0]] + repos[1..];
    }
  }

  /**
   Main result: a selection skips the review run and goes on to the comments exactly when, for every
   published repository, some earlier accepted round succeeded on exactly its head, whatever it found.
   */
  lemma SkipsReviewExactly(h: History, x: Step)
    requires Valid(h + [x]) && x.node.SelectReviewCommands? && Ok(x)
    ensures LatestOutput(h, IsPublishing).Published?
    ensures Next(x) == Some(InspectComments)
       <==> forall r <- LatestOutput(h, IsPublishing).repositories :: Reviewed(h, r)
    ensures Next(x) == Some(InspectComments) || Next(x) == Some(RunReview)
  {
    assert (h + [x])[..|h|] == h;
    LeftOutExactly(h, LatestOutput(h, IsPublishing).repositories);
  }

  /** From triage of a reviewed head: publish it unchanged, and the run goes on to the comments. */
  lemma ReviewedHeadIsReused(h: History, r: Repo) returns (e: History)
    requires Valid(h) && Place(h) == Some(TriageReview)
    requires Reviewed(h, r) && r.baseRevision != r.headRevision
    ensures Valid(h + e) && Place(h + e) == Some(InspectComments)
    ensures LatestOutput(h + e, IsPublicationAttempt) == Published([r])
    ensures forall x <- e :: !IsReviewRound(x)
  {
    var triage := [Ran(TriageReview, Routed(Repairable))];
    Extend(h, triage[0]);
    var fix := FixAndPublish(h + triage, r);
    var select := [Ran(SelectReviewCommands, Selected(Reuse, []))];
    Chained(h, triage, fix, select);
    StillReviewed(h, triage + fix, r);
    ReuseSelected((h + triage) + fix, r);
    e := triage + fix + select;
  }

  lemma ReuseSelected(h: History, r: Repo)
    requires Valid(h) && Place(h) == Some(SelectReviewCommands) && Reviewed(h, r)
    requires LatestOutput(h, IsPublishing) == Published([r]) && LatestOutput(h, IsPublicationAttempt) == Published([r])
    ensures var h' := h + [Ran(SelectReviewCommands, Selected(Reuse, []))];
      Valid(h') && Place(h') == Some(InspectComments) && LatestOutput(h', IsPublicationAttempt) == Published([r])
  {
    var select := Ran(SelectReviewCommands, Selected(Reuse, []));
    NothingLeft(h, r);
    Extend(h, select);
    OutputStep(h, select, IsPublicationAttempt);
  }

  // ----------------------------------------------------------------- a run that delivers

  /** The latest publish output, with no attempt to publish after it, is `r`. */
  ghost predicate PutOut(h: History, r: Repo) {
    LatestOutput(h, IsPublishing) == Published([r]) && LatestOutput(h, IsPublicationAttempt) == Published([r])
  }

  lemma PutOutStays(h: History, x: Step, r: Repo)
    requires PutOut(h, r) || (x.node.Publish? && x.output == Published([r]))
    requires x.node.Publish? ==> x.output == Published([r])
    requires !x.node.VerifyP2?
    ensures PutOut(h + [x], r)
  {
    OutputStep(h, x, IsPublishing);
    OutputStep(h, x, IsPublicationAttempt);
  }

  lemma ToVerification() returns (h: History)
    ensures Valid(h) && Place(h) == Some(SelectVerificationPath) && forall x <- h :: !IsReviewRound(x) && !IsRepair(x)
  {
    var s1, s2 := Ran(Prepare, Routed(ToWorkspace)), Ran(Workspace, Exited(true));
    var s3, s4 := Ran(RouteWorkspace, Routed(ToImplement)), Ran(Implement, Routed(Continue));
    var s5 := Ran(ClassifyImplementation, Routed(Verify));
    Extend([], s1);
    h := [] + [s1];
    Extend(h, s2);
    h := h + [s2];
    Extend(h, s3);
    h := h + [s3];
    Extend(h, s4);
    h := h + [s4];
    Extend(h, s5);
    h := h + [s5];
  }

  lemma ToPublish() returns (h: History)
    ensures Valid(h) && Place(h) == Some(Publish) && forall x <- h :: !IsReviewRound(x) && !IsRepair(x)
  {
    h := ToVerification();
    var s6, s7, s8 := Ran(SelectVerificationPath, Routed(Verify)), Ran(LocalVerification, Exited(true)),
      Ran(RouteVerifiedWorkspace, Routed(PullRequest));
    Extend(h, s6);
    h := h + [s6];
    Extend(h, s7);
    h := h + [s7];
    Extend(h, s8);
    h := h + [s8];
  }

  lemma NotReviewed(h: History, r: Repo)
    requires forall x <- h :: !IsReviewRound(x)
    ensures !Reviewed(h, r)
    ensures SelectReviews(h, [r]) == Selected(Run, [r])
  {
    assert forall k :: 0 <= k < |h| ==> h[k] in h;
    assert [r][1..] == [];
    assert Unreviewed(h, [r][1..]) == [];
  }

  lemma NoRepairYet(h: History)
    requires forall x <- h :: !IsRepair(x)
    ensures !RepairAttempted(h)
  {
    LatestIsLatest(h, IsRepair);
  }

  /** Publish `r` and select it for review. */
  lemma ToRunReview(h0: History, r: Repo) returns (h: History)
    requires Valid(h0) && Place(h0) == Some(Publish) && (forall x <- h0 :: !IsReviewRound(x) && !IsRepair(x))
    requires r.baseRevision != r.headRevision
    ensures Valid(h) && Place(h) == Some(RunReview) && forall x <- h :: !IsReviewRound(x) && !IsRepair(x)
    ensures LatestOutput(h, IsSelection) == Selected(Run, [r])
    ensures PutOut(h, r)
  {
    var publish := Ran(Publish, Published([r]));
    Extend(h0, publish);
    var h1 := h0 + [publish];
    PutOutStays(h0, publish, r);
    var select := Ran(SelectReviewCommands, Selected(Run, [r]));
    NotReviewed(h1, r);
    Extend(h1, select);
    h := h1 + [select];
    OutputStep(h1, select, IsSelection);
    PutOutStays(h1, select, r);
  }

  lemma RanReview(h: History, r: Repo) returns (h': History)
    requires Valid(h) && Place(h) == Some(RunReview) && forall x <- h :: !IsRepair(x)
    requires LatestOutput(h, IsSelection) == Selected(Run, [r])
    requires PutOut(h, r)
    requires forall x <- h :: !IsReviewRound(x)
    ensures Valid(h') && Place(h') == Some(AssessReview) && forall x <- h' :: !IsRepair(x) && !IsReviewRound(x)
    ensures LatestOutput(h', IsSelection) == Selected(Run, [r])
    ensures LatestOutput(h', IsReviewRun) == Batch(Assess, {r.id})
    ensures PutOut(h', r)
  {
    var run := Ran(RunReview, Batch(Assess, {r.id}));
    Extend(h, run);
    h' := h + [run];
    OutputStep(h, run, IsSelection);
    OutputStep(h, run, IsReviewRun);
    PutOutStays(h, run, r);
  }

  /** One successful review of `r`, with findings of this severity. */
  function Round(r: Repo, critical: nat, p2: nat): Output {
    Assessed(if 0 < critical then Critical else if 0 < p2 then P2 else Clean, [Review(r, true, critical, p2)])
  }

  lemma Assessing(h: History, r: Repo, critical: nat, p2: nat) returns (h': History)
    requires Valid(h) && Place(h) == Some(AssessReview) && forall x <- h :: !IsRepair(x) && !IsReviewRound(x)
    requires LatestOutput(h, IsSelection) == Selected(Run, [r]) && LatestOutput(h, IsReviewRun) == Batch(Assess, {r.id})
    requires PutOut(h, r)
    ensures Valid(h') && Place(h') == Some(RouteReviewAssessment)
    ensures LatestOutput(h', IsAssessment) == Round(r, critical, p2)
    ensures PutOut(h', r) && ReviewedBy(h', r, Round(r, critical, p2))
  {
    var assess := Ran(AssessReview, Round(r, critical, p2));
    RoundFits(r, critical, p2);
    NoRepairYet(h);
    Extend(h, assess);
    h' := h + [assess];
    OutputStep(h, assess, IsAssessment);
    PutOutStays(h, assess, r);
    FirstRound(h, r, critical, p2);
  }

  /** Every review round of the history recorded `o`. */
  predicate OnlyRound(h: History, o: Output) { forall x <- h :: IsReviewRound(x) ==> x.output == o }

  lemma OnlyRoundMore(h: History, e: History, o: Output)
    requires OnlyRound(h, o) && OnlyRound(e, o)
    ensures OnlyRound(h + e, o)
  {
  }

  /** `r` was reviewed, and the only rounds are those that recorded `o`. */
  ghost predicate ReviewedBy(h: History, r: Repo, o: Output) { Reviewed(h, r) && OnlyRound(h, o) }

  lemma FirstRound(h: History, r: Repo, critical: nat, p2: nat)
    requires forall x <- h :: !IsReviewRound(x)
    ensures ReviewedBy(h + [Ran(AssessReview, Round(r, critical, p2))], r, Round(r, critical, p2))
  {
    var h' := h + [Ran(AssessReview, Round(r, critical, p2))];
    assert Review(r, true, critical, p2) in h'[|h|].output.reviews;
    assert ReviewedAt(h', |h|, r);
    OnlyRoundMore(h, [Ran(AssessReview, Round(r, critical, p2))], Round(r, critical, p2));
  }

  lemma PastRound(h: History, x: Step, q: Repo, o: Output)
    requires ReviewedBy(h, q, o) && !IsReviewRound(x)
    ensures ReviewedBy(h + [x], q, o)
  {
    StillReviewed(h, [x], q);
  }

  lemma RoutedOn(h: History, r: Repo, critical: nat, p2: nat) returns (h': History)
    requires Valid(h) && Place(h) == Some(RouteReviewAssessment)
    requires LatestOutput(h, IsAssessment) == Round(r, critical, p2)
    requires PutOut(h, r) && ReviewedBy(h, r, Round(r, critical, p2))
    ensures Valid(h')
    ensures Place(h') == Some(if 0 < critical then TriageReview else if 0 < p2 then AddressP2 else InspectComments)
    ensures PutOut(h', r) && ReviewedBy(h', r, Round(r, critical, p2))
  {
    var route := Ran(RouteReviewAssessment, Round(r, critical, p2));
    Extend(h, route);
    PutOutStays(h, route, r);
    PastRound(h, route, r, Round(r, critical, p2));
    h' := h + [route];
  }

  /** Publish `r` and have it reviewed, with findings of this severity; it is the only round so far. */
  lemma ToReviewed(h0: History, r: Repo, critical: nat, p2: nat) returns (h: History)
    requires Valid(h0) && Place(h0) == Some(Publish) && (forall x <- h0 :: !IsReviewRound(x) && !IsRepair(x))
    requires r.baseRevision != r.headRevision
    ensures Valid(h)
    ensures Place(h) == Some(if 0 < critical then TriageReview else if 0 < p2 then AddressP2 else InspectComments)
    ensures PutOut(h, r) && ReviewedBy(h, r, Round(r, critical, p2))
  {
    var h1 := ToRunReview(h0, r);
    var h2 := RanReview(h1, r);
    var h3 := Assessing(h2, r, critical, p2);
    h := RoutedOn(h3, r, critical, p2);
  }

  lemma RoundFits(r: Repo, critical: nat, p2: nat)
    ensures RoundAccepted(Round(r, critical, p2).reviews, [r], {r.id})
    ensures ReviewRoute(Round(r, critical, p2).reviews, false) == Round(r, critical, p2).route
  {
    assert ReviewIds([Review(r, true, critical, p2)]) == [r.id];
    assert r in [r];
    assert Review(r, true, critical, p2) in Round(r, critical, p2).reviews;
  }

  lemma GreenTarget(r: Repo)
    ensures TargetsMatch([Target(r.id, r.headRevision, r.pr, Green)], [r])
    ensures Aggregate([Target(r.id, r.headRevision, r.pr, Green)]) == Green
  {
    assert TargetIds([Target(r.id, r.headRevision, r.pr, Green)]) == [r.id];
    assert r in [r];
  }

  lemma JustRan(h: History, x: Step)
    requires x.outcome.Succeeded?
    ensures OutputOf(h + [x], x.node) == x.output
  {
  }

  /** What the latest attempt to publish left is `r`. */
  ghost predicate Stands(h: History, r: Repo) { Repositories(LatestOutput(h, IsPublicationAttempt)) == Some([r]) }

  lemma CommentsSeen(h: History, r: Repo, q: Repo, o: Output) returns (h': History)
    requires Valid(h) && Place(h) == Some(InspectComments) && Stands(h, r)
    requires ReviewedBy(h, q, o)
    ensures Valid(h') && Place(h') == Some(RouteInspectCommentsResult) && OutputOf(h', InspectComments) == Routed(Ci)
    ensures Stands(h', r) && ReviewedBy(h', q, o)
  {
    var comments := Ran(InspectComments, Routed(Ci));
    Extend(h, comments);
    Later(h, comments);
    JustRan(h, comments);
    PastRound(h, comments, q, o);
    h' := h + [comments];
  }

  lemma CommentsClear(h: History, r: Repo, q: Repo, o: Output) returns (h': History)
    requires Valid(h) && Place(h) == Some(InspectComments) && Stands(h, r)
    requires ReviewedBy(h, q, o)
    ensures Valid(h') && Place(h') == Some(InspectCi) && Stands(h', r)
    ensures ReviewedBy(h', q, o)
  {
    var h1 := CommentsSeen(h, r, q, o);
    var route := Ran(RouteInspectCommentsResult, Routed(Ci));
    Extend(h1, route);
    Later(h1, route);
    PastRound(h1, route, q, o);
    h' := h1 + [route];
  }

  lemma Inspected(h: History, r: Repo, seen: Output)
    requires Valid(h) && Place(h) == Some(InspectCi) && Stands(h, r)
    requires seen == CiSeen(Green, [Target(r.id, r.headRevision, r.pr, Green)])
    ensures var h' := h + [Ran(InspectCi, seen)];
      && Valid(h') && Place(h') == Some(RouteInspectCiResult) && OutputOf(h', InspectCi) == seen
      && Stands(h', r)
  {
    GreenTarget(r);
    Extend(h, Ran(InspectCi, seen));
    Later(h, Ran(InspectCi, seen));
    JustRan(h, Ran(InspectCi, seen));
  }

  lemma CiGreen(h: History, r: Repo, q: Repo, o: Output) returns (h': History)
    requires Valid(h) && Place(h) == Some(InspectCi) && Stands(h, r)
    requires ReviewedBy(h, q, o)
    ensures Valid(h') && Place(h') == Some(FinalizeDelivery) && Stands(h', r)
    ensures ReviewedBy(h', q, o)
  {
    var seen := CiSeen(Green, [Target(r.id, r.headRevision, r.pr, Green)]);
    Inspected(h, r, seen);
    PastRound(h, Ran(InspectCi, seen), q, o);
    var h1 := h + [Ran(InspectCi, seen)];
    Extend(h1, Ran(RouteInspectCiResult, seen));
    Later(h1, Ran(RouteInspectCiResult, seen));
    PastRound(h1, Ran(RouteInspectCiResult, seen), q, o);
    h' := h1 + [Ran(RouteInspectCiResult, seen)];
  }

  /** From the comments to delivery: no review round comes in between, and none is undone. */
  lemma ToDelivery(h0: History, r: Repo, q: Repo, o: Output) returns (h: History)
    requires Valid(h0) && Place(h0) == Some(InspectComments) && Stands(h0, r)
    requires ReviewedBy(h0, q, o)
    ensures Valid(h) && Place(h) == Some(FinalizeDelivery)
    ensures Stands(h, r)
    ensures ReviewedBy(h, q, o)
  {
    var h1 := CommentsClear(h0, r, q, o);
    h := CiGreen(h1, r, q, o);
  }

  /** The gates can be passed: for every head there is a run that gets to deliver it. */
  lemma DeliveryIsReachable(r: Repo) returns (h: History)
    requires r.baseRevision != r.headRevision
    ensures Valid(h) && Place(h) == Some(FinalizeDelivery)
    ensures Stands(h, r) && ReviewedBy(h, r, Round(r, 0, 0))
  {
    var h0 := ToPublish();
    var h1 := ToReviewed(h0, r, 0, 0);
    h := ToDelivery(h1, r, r, Round(r, 0, 0));
  }

  /** So can a head whose only review found something critical, without any change to it. */
  lemma CriticalHeadIsDelivered(r: Repo) returns (h: History)
    requires r.baseRevision != r.headRevision
    ensures Valid(h) && Place(h) == Some(FinalizeDelivery)
    ensures Stands(h, r) && ReviewedBy(h, r, Round(r, 1, 0))
  {
    var h0 := ToPublish();
    var h1 := ToReviewed(h0, r, 1, 0);
    var e := ReviewedHeadIsReused(h1, r);
    StillReviewed(h1, e, r);
    OnlyRoundMore(h1, e, Round(r, 1, 0));
    h := ToDelivery(h1 + e, r, r, Round(r, 1, 0));
  }

  lemma P2Fits(r: Repo, q: Repo)
    requires SameTarget(r, q) && r.baseRevision != r.headRevision
    ensures SamePublication([r], [q])
  {
    assert RepoIds([r]) == [r.id];
    assert q in [q] && SameButHead(r, [q]);
  }

  /** After findings of lesser weight in `q`: address them, and let the verification push `r`. */
  lemma ToVerifiedP2(h0: History, q: Repo, r: Repo, o: Output) returns (h: History)
    requires Valid(h0) && Place(h0) == Some(AddressP2) && PutOut(h0, q) && ReviewedBy(h0, q, o)
    requires SameTarget(r, q) && r.baseRevision != r.headRevision
    ensures Valid(h) && Place(h) == Some(RouteVerifyP2Result) && OutputOf(h, VerifyP2) == P2Checked(true, [r])
    ensures Stands(h, r) && ReviewedBy(h, q, o)
  {
    var address, verify := Ran(AddressP2, Routed(Continue)), Ran(VerifyP2, P2Checked(true, [r]));
    Extend(h0, address);
    PutOutStays(h0, address, q);
    PastRound(h0, address, q, o);
    P2Fits(r, q);
    Extend(h0 + [address], verify);
    PastRound(h0 + [address], verify, q, o);
    OutputStep(h0 + [address], verify, IsPublicationAttempt);
    JustRan(h0 + [address], verify);
    h := h0 + [address] + [verify];
  }

  lemma PastP2(h0: History, q: Repo, r: Repo, o: Output) returns (h: History)
    requires Valid(h0) && Place(h0) == Some(RouteVerifyP2Result) && OutputOf(h0, VerifyP2) == P2Checked(true, [r])
    requires Stands(h0, r) && ReviewedBy(h0, q, o)
    ensures Valid(h) && Place(h) == Some(InspectComments) && Stands(h, r) && ReviewedBy(h, q, o)
  {
    var route := Ran(RouteVerifyP2Result, P2Checked(true, [r]));
    Extend(h0, route);
    Later(h0, route);
    PastRound(h0, route, q, o);
    h := h0 + [route];
  }

  lemma OtherHeadUnreviewed(h: History, q: Repo, r: Repo, p2: nat)
    requires OnlyRound(h, Round(q, 0, p2)) && r.headRevision != q.headRevision
    ensures !Reviewed(h, r)
  {
    forall k | 0 <= k < |h| ensures !ReviewedAt(h, k, r) { assert h[k] in h; }
  }

  /** And a head that no review has seen can be delivered: one that a passed `verifyP2` pushed. */
  lemma UnreviewedHeadIsDelivered(q: Repo, r: Repo) returns (h: History)
    requires SameTarget(r, q) && r.headRevision != q.headRevision
    requires q.baseRevision != q.headRevision && r.baseRevision != r.headRevision
    ensures Valid(h) && Place(h) == Some(FinalizeDelivery)
    ensures Stands(h, r) && !Reviewed(h, r) && Reviewed(h, q)
  {
    var h0 := ToPublish();
    var h1 := ToReviewed(h0, q, 0, 1);
    var h2 := ToVerifiedP2(h1, q, r, Round(q, 0, 1));
    var h3 := PastP2(h2, q, r, Round(q, 0, 1));
    h := ToDelivery(h3, r, q, Round(q, 0, 1));
    OtherHeadUnreviewed(h, q, r, 1);
  }
}
