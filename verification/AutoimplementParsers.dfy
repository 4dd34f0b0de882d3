/**
 The loops of `autoimplement.workflow.ts` that check a model's answer against the
 published repositories: each takes entries out of a map of what it still expects.
 */
module AutoimplementParsers {
  import opened Options
  import opened AutoimplementGraph

  datatype RawReview = RawReview(id: Id, succeeded: bool, critical: nat, p2: nat)

  /** `trackable` says that a pending target comes with a tracking command that is allowed for it. */
  datatype RawTarget = RawTarget(id: Id, route: Route, trackable: bool)

  datatype RawRepo = RawRepo(repo: Repo, pushed: bool)

  const MAX_COMMAND_BATCH_ITEMS: nat := 64

  function RawReviewIds(raws: seq<RawReview>): seq<Id> {
    seq(|raws|, i requires 0 <= i < |raws| => raws[i].id)
  }

  function RawTargetIds(raws: seq<RawTarget>): seq<Id> {
    seq(|raws|, i requires 0 <= i < |raws| => raws[i].id)
  }

  function ReposOf(raws: seq<RawRepo>): seq<Repo> {
    seq(|raws|, i requires 0 <= i < |raws| => raws[i].repo)
  }

  /** What is still expected: the repositories of `repos` whose ids are not among `seen`. */
  predicate Expects(expected: map<Id, Repo>, repos: seq<Repo>, seen: seq<Id>) {
    && (forall r <- repos :: r.id in expected || r.id in seen)
    && forall id <- expected :: expected[id] in repos && expected[id].id == id && id !in seen
  }

  method ExpectedById(repos: seq<Repo>) returns (expected: map<Id, Repo>)
    ensures Expects(expected, repos, [])
  {
    expected := map[];
    for i := 0 to |repos|
      invariant forall r <- repos[..i] :: r.id in expected
      invariant forall id <- expected :: expected[id] in repos && expected[id].id == id
    {
      expected := expected[repos[i].id := repos[i]];
    }
    assert repos[..|repos|] == repos;
  }

  /** Taking an expected id out leaves exactly the rest. */
  lemma Taken(expected: map<Id, Repo>, repos: seq<Repo>, seen: seq<Id>, id: Id)
    requires Expects(expected, repos, seen) && id in expected
    ensures Expects(expected - {id}, repos, seen + [id])
  {
  }

  /** The first `i` ids are expected ones, each once, and the rest is still expected. */
  predicate Seen(expected: map<Id, Repo>, repos: seq<Repo>, ids: seq<Id>, i: nat) {
    && i <= |ids|
    && Expects(expected, repos, ids[..i]) && DistinctIds(ids[..i])
    && forall id <- ids[..i] :: HasRepo(repos, id)
  }

  lemma PrefixGrows(ids: seq<Id>, i: nat)
    requires i < |ids|
    ensures ids[..i] + [ids[i]] == ids[..i + 1]
  {
  }

  lemma SeenOne(expected: map<Id, Repo>, repos: seq<Repo>, ids: seq<Id>, i: nat)
    requires i < |ids| && Seen(expected, repos, ids, i) && ids[i] in expected
    ensures Seen(expected - {ids[i]}, repos, ids, i + 1)
  {
    Taken(expected, repos, ids[..i], ids[i]);
    PrefixGrows(ids, i);
    assert HasRepo(repos, ids[i]);
  }

  lemma SeenAll(expected: map<Id, Repo>, repos: seq<Repo>, ids: seq<Id>)
    requires Seen(expected, repos, ids, |ids|)
    ensures expected == map[] <==> Covers(ids, repos)
  {
    assert ids[..|ids|] == ids;
    if expected != map[] {
      var id :| id in expected;
      assert expected[id] in repos;
    }
  }

  /** An id that is no longer expected is foreign or repeated. */
  lemma NotExpected(expected: map<Id, Repo>, repos: seq<Repo>, ids: seq<Id>, i: nat)
    requires i < |ids| && Expects(expected, repos, ids[..i]) && ids[i] !in expected
    ensures !Covers(ids, repos)
  {
    assert HasRepo(repos, ids[i]) ==> ids[i] in ids[..i];
    assert ids[i] in ids;
  }

  /** `parseReviewAssessment` accepts exactly the answers with one entry for each selected repository. */
  method ParseReviewAssessment(raws: seq<RawReview>, selected: seq<Repo>, clean: set<Id>, repaired: bool)
    returns (r: Option<Output>)
    ensures r.Some? <==> Covers(RawReviewIds(raws), selected)
    ensures r.Some? ==>
      && r.value.Assessed? && |r.value.reviews| == |raws|
      && RoundAccepted(r.value.reviews, selected, clean)
      && r.value.route == ReviewRoute(r.value.reviews, repaired)
      && forall i :: 0 <= i < |raws| ==>
           && r.value.reviews[i].repo.id == raws[i].id
           && r.value.reviews[i].succeeded == (raws[i].id in clean && raws[i].succeeded)
           && r.value.reviews[i].critical == raws[i].critical && r.value.reviews[i].p2 == raws[i].p2
  {
    ghost var ids := RawReviewIds(raws);
    var expected := ExpectedById(selected);
    var reviews: seq<Review> := [];
    for i := 0 to |raws|
      invariant Seen(expected, selected, ids, i)
      invariant |reviews| == i
      invariant forall k :: 0 <= k < i ==>
        && reviews[k].repo in selected && reviews[k].repo.id == raws[k].id
        && reviews[k].succeeded == (raws[k].id in clean && raws[k].succeeded)
        && reviews[k].critical == raws[k].critical && reviews[k].p2 == raws[k].p2
    {
      if raws[i].id !in expected {
        NotExpected(expected, selected, ids, i);
        return None;
      }
      SeenOne(expected, selected, ids, i);
      var published := expected[raws[i].id];
      expected := expected - {raws[i].id};
      reviews := reviews +
        [Review(published, published.id in clean && raws[i].succeeded, raws[i].critical, raws[i].p2)];
    }
    assert ids == ReviewIds(reviews);
    SeenAll(expected, selected, ids);
    if expected != map[] { return None; }
    return Some(Assessed(ReviewRoute(reviews, repaired), reviews));
  }

  predicate UniqueIds(repos: seq<Repo>) {
    forall a, b :: a in repos && b in repos && a.id == b.id ==> a == b
  }

  lemma OnlyPrior(r: Repo, previous: seq<Repo>, prior: Repo)
    requires UniqueIds(previous) && prior in previous && prior.id == r.id
    ensures SameButHead(r, previous) <==> SameTarget(r, prior)
  {
    if SameButHead(r, previous) {
      var p :| p in previous && SameTarget(r, p);
      assert p == prior;
    }
  }

  /** What the loop has checked of the first `i` repositories. */
  predicate Checked(expected: map<Id, Repo>, refreshed: seq<Repo>, previous: seq<Repo>, i: nat) {
    && i <= |refreshed| && Seen(expected, previous, RepoIds(refreshed), i)
    && forall k :: 0 <= k < i ==> SameButHead(refreshed[k], previous)
  }

  predicate Proper(raw: RawRepo) { raw.pushed && raw.repo.baseRevision != raw.repo.headRevision }

  predicate Publishable(raws: seq<RawRepo>) {
    0 < |raws| <= MAX_COMMAND_BATCH_ITEMS && DistinctIds(RepoIds(ReposOf(raws))) && forall raw <- raws :: Proper(raw)
  }

  /** `parsePublishedRepositories`: pushed repositories, each once, with a head that is not its base. */
  method ParsePublishedRepositories(raws: seq<RawRepo>) returns (r: Option<seq<Repo>>)
    ensures r.Some? <==> Publishable(raws)
    ensures r.Some? ==> r.value == ReposOf(raws)
  {
    if |raws| == 0 || MAX_COMMAND_BATCH_ITEMS < |raws| { return None; }
    ghost var all := RepoIds(ReposOf(raws));
    var ids: set<Id> := {};
    var repositories: seq<Repo> := [];
    for i := 0 to |raws|
      invariant repositories == ReposOf(raws)[..i]
      invariant forall id :: id in ids <==> id in all[..i]
      invariant DistinctIds(all[..i]) && forall k :: 0 <= k < i ==> Proper(raws[k])
    {
      if raws[i].repo.id in ids {
        ghost var k :| 0 <= k < i && all[k] == raws[i].repo.id;
        assert all[k] == all[i];
        return None;
      }
      if !raws[i].pushed || raws[i].repo.baseRevision == raws[i].repo.headRevision {
        assert raws[i] in raws && !Proper(raws[i]);
        return None;
      }
      assert all[..i + 1] == all[..i] + [raws[i].repo.id];
      ids := ids + {raws[i].repo.id};
      repositories := repositories + [raws[i].repo];
    }
    assert all[..|raws|] == all && ReposOf(raws)[..|raws|] == ReposOf(raws);
    return Some(repositories);
  }

  lemma CheckedOne(expected: map<Id, Repo>, refreshed: seq<Repo>, previous: seq<Repo>, i: nat, id: Id)
    requires UniqueIds(previous) && i < |refreshed| && Checked(expected, refreshed, previous, i)
    requires id == refreshed[i].id && id in expected && SameTarget(refreshed[i], expected[id])
    ensures Checked(expected - {id}, refreshed, previous, i + 1)
  {
    SeenOne(expected, previous, RepoIds(refreshed), i);
    assert SameButHead(refreshed[i], previous);
  }

  lemma Differs(expected: map<Id, Repo>, refreshed: seq<Repo>, previous: seq<Repo>, i: nat, id: Id)
    requires UniqueIds(previous) && i < |refreshed| && Checked(expected, refreshed, previous, i)
    requires id == refreshed[i].id && id in expected && !SameTarget(refreshed[i], expected[id])
    ensures !SamePublication(refreshed, previous)
  {
    OnlyPrior(refreshed[i], previous, expected[id]);
    assert refreshed[i] in refreshed;
  }

  lemma Foreign(expected: map<Id, Repo>, refreshed: seq<Repo>, previous: seq<Repo>, i: nat)
    requires i < |refreshed| && Checked(expected, refreshed, previous, i) && refreshed[i].id !in expected
    ensures !SamePublication(refreshed, previous)
  {
    NotExpected(expected, previous, RepoIds(refreshed), i);
  }

  lemma NoneChecked(expected: map<Id, Repo>, refreshed: seq<Repo>, previous: seq<Repo>)
    requires Expects(expected, previous, [])
    ensures Checked(expected, refreshed, previous, 0)
  {
    assert RepoIds(refreshed)[..0] == [];
  }

  lemma CheckedAll(expected: map<Id, Repo>, refreshed: seq<Repo>, previous: seq<Repo>)
    requires Checked(expected, refreshed, previous, |refreshed|)
    requires forall r <- refreshed :: r.baseRevision != r.headRevision
    ensures expected == map[] <==> SamePublication(refreshed, previous)
  {
    SeenAll(expected, previous, RepoIds(refreshed));
  }

  lemma RawsAreProper(raws: seq<RawRepo>, previous: seq<Repo>)
    ensures (&& (forall raw <- raws :: raw.pushed) && SamePublication(ReposOf(raws), previous)
             && 0 < |raws| <= MAX_COMMAND_BATCH_ITEMS)
      ==> Publishable(raws)
    ensures Publishable(raws) ==> forall r <- ReposOf(raws) :: r.baseRevision != r.headRevision
    ensures Publishable(raws) ==> forall raw <- raws :: raw.pushed
  {
    forall i | 0 <= i < |raws| ensures raws[i].repo in ReposOf(raws) { assert ReposOf(raws)[i] == raws[i].repo; }
    if Publishable(raws) {
      forall r <- ReposOf(raws) ensures r.baseRevision != r.headRevision {
        var i :| 0 <= i < |raws| && ReposOf(raws)[i] == r;
        assert Proper(raws[i]);
      }
    }
  }

  /** `parseP2Verification` lets nothing change but the head, and loses or adds no repository. */
  method ParseP2Verification(raws: seq<RawRepo>, pushed: bool, previous: seq<Repo>) returns (r: Option<seq<Repo>>)
    requires UniqueIds(previous)
    ensures r.Some? <==>
      && pushed && (forall raw <- raws :: raw.pushed) && 0 < |raws| <= MAX_COMMAND_BATCH_ITEMS
      && SamePublication(ReposOf(raws), previous)
    ensures r.Some? ==> r.value == ReposOf(raws)
  {
    if !pushed { return None; }
    var parsed := ParsePublishedRepositories(raws);
    RawsAreProper(raws, previous);
    if parsed.None? { return None; }
    var same := MatchesPublication(parsed.value, previous);
    return if same then parsed else None;
  }

  method MatchesPublication(refreshed: seq<Repo>, previous: seq<Repo>) returns (ok: bool)
    requires UniqueIds(previous) && forall r <- refreshed :: r.baseRevision != r.headRevision
    ensures ok <==> SamePublication(refreshed, previous)
  {
    var expected := ExpectedById(previous);
    NoneChecked(expected, refreshed, previous);
    for i := 0 to |refreshed|
      invariant Checked(expected, refreshed, previous, i)
    {
      var id := refreshed[i].id;
      if id !in expected {
        Foreign(expected, refreshed, previous, i);
        return false;
      }
      if !SameTarget(refreshed[i], expected[id]) {
        Differs(expected, refreshed, previous, i, id);
        return false;
      }
      CheckedOne(expected, refreshed, previous, i, id);
      expected := expected - {id};
    }
    CheckedAll(expected, refreshed, previous);
    return expected == map[];
  }

  predicate AnyRoute(raws: seq<RawTarget>, route: Route) { exists t <- raws :: t.route == route }

  /** The worst entry decides the route of the answer: failed, then pending, then unavailable, and green if all are. */
  predicate Decides(raws: seq<RawTarget>, route: Route) {
    && (route == Red <==> AnyRoute(raws, Red))
    && (route == Pending <==> !AnyRoute(raws, Red) && AnyRoute(raws, Pending))
    && (route == Unavailable <==> !AnyRoute(raws, Red) && !AnyRoute(raws, Pending) && AnyRoute(raws, Unavailable))
    && (route == Green <==> forall t <- raws :: t.route == Green)
  }

  lemma SameRoutes(raws: seq<RawTarget>, targets: seq<Target>, route: Route)
    requires |raws| == |targets| && forall i :: 0 <= i < |raws| ==> targets[i].route == raws[i].route
    ensures AnyRoute(raws, route) <==> exists t <- targets :: t.route == route
  {
    if AnyRoute(raws, route) {
      var i :| 0 <= i < |raws| && raws[i].route == route;
      assert targets[i] in targets;
    }
    if t :| t in targets && t.route == route {
      var i :| 0 <= i < |targets| && targets[i] == t;
      assert raws[i] in raws;
    }
  }

  lemma RoutesDecide(raws: seq<RawTarget>, targets: seq<Target>)
    requires |raws| == |targets| && forall i :: 0 <= i < |raws| ==> targets[i].route == raws[i].route
    requires forall t <- raws :: CiRoute(t.route)
    ensures Decides(raws, Aggregate(targets))
  {
    forall i | 0 <= i < |targets| ensures CiRoute(targets[i].route) { assert raws[i] in raws; }
    AggregateMeans(targets);
    SameRoutes(raws, targets, Red);
    SameRoutes(raws, targets, Pending);
    SameRoutes(raws, targets, Unavailable);
    forall i | 0 <= i < |raws| ensures targets[i] in targets && raws[i] in raws { }
  }

  predicate Watchable(t: RawTarget) { CiRoute(t.route) && (t.route.Pending? ==> t.trackable) }

  /** One target for each published pull request, with the route that the answer gives it. */
  predicate TargetsOf(raws: seq<RawTarget>, targets: seq<Target>, published: seq<Repo>) {
    && |targets| == |raws| && TargetsMatch(targets, published)
    && forall i :: 0 <= i < |raws| ==> targets[i].id == raws[i].id && targets[i].route == raws[i].route
  }

  predicate InspectionAccepted(raws: seq<RawTarget>, published: seq<Repo>) {
    && Covers(RawTargetIds(raws), published) && |raws| <= MAX_COMMAND_BATCH_ITEMS
    && forall t <- raws :: Watchable(t)
  }

  method CiTargets(raws: seq<RawTarget>, published: seq<Repo>) returns (r: Option<seq<Target>>)
    ensures r.Some? <==> InspectionAccepted(raws, published)
    ensures r.Some? ==> TargetsOf(raws, r.value, published)
  {
    if MAX_COMMAND_BATCH_ITEMS < |raws| { return None; }
    ghost var ids := RawTargetIds(raws);
    var expected := ExpectedById(published);
    var targets: seq<Target> := [];
    for i := 0 to |raws|
      invariant Seen(expected, published, ids, i)
      invariant |targets| == i
      invariant forall k :: 0 <= k < i ==>
        && targets[k].id == raws[k].id && targets[k].route == raws[k].route
        && Watchable(raws[k]) && TargetOfRepo(targets[k], published)
    {
      if raws[i].id !in expected {
        NotExpected(expected, published, ids, i);
        return None;
      }
      if !Watchable(raws[i]) {
        assert raws[i] in raws;
        return None;
      }
      SeenOne(expected, published, ids, i);
      var repository := expected[raws[i].id];
      expected := expected - {raws[i].id};
      targets := targets + [Target(repository.id, repository.headRevision, repository.pr, raws[i].route)];
    }
    assert ids == TargetIds(targets);
    SeenAll(expected, published, ids);
    if expected != map[] { return None; }
    return Some(targets);
  }

  /**
   `parseCiInspectionForPublished`: head and pull request come from the publication, not from the model, and the
   worst entry decides the route.
   */
  method ParseCiInspection(raws: seq<RawTarget>, published: seq<Repo>) returns (r: Option<Output>)
    requires published != []
    ensures r.Some? <==> InspectionAccepted(raws, published)
    ensures r.Some? ==> r.value.CiSeen? && TargetsOf(raws, r.value.targets, published)
    ensures r.Some? ==> Decides(raws, r.value.route) && r.value.route == Aggregate(r.value.targets)
  {
    var targets := CiTargets(raws, published);
    if targets.None? { return None; }
    RoutesDecide(raws, targets.value);
    return Some(CiSeen(Aggregate(targets.value), targets.value));
  }
}
