/** The public review list of a worker, walked while the marketplace goes on
    (crud_reviews.get_public_reviews_for_worker over the runs of the protocol). */
module ReviewList {
  import opened Prelude
  import opened Tables
  import opened Ratings
  import opened Invariant
  import opened Keyset
  import opened Reviewing
  import opened Marketplace

  datatype SortBy = Recent | HighestRated

  function KeyOf(r: Review, id: nat, sort: SortBy): Key {
    Key(if sort.HighestRated? then r.rating else r.createdAt, id)
  }

  /** The keys of the reviews the list may show. */
  function Visible(reviews: seq<Review>, user: nat, sort: SortBy): set<Key> {
    set i: nat | i < |reviews| && IsVisible(reviews[i], user) :: KeyOf(reviews[i], i, sort)
  }

  /** There are as many visible keys as the rating snapshot counts reviews. */
  lemma {:induction false} VisibleMatchesCount(reviews: seq<Review>, user: nat, sort: SortBy)
    ensures |Visible(reviews, user, sort)| == ReviewCount(reviews, user)
  {
    if reviews != [] {
      var n := |reviews| - 1;
      var init, last := reviews[..n], reviews[n];
      VisibleMatchesCount(init, user, sort);
      AppendReview(init, last, user);
      assert init + [last] == reviews;
      var before, after := Visible(init, user, sort), Visible(reviews, user, sort);
      assert forall k: Key :: k in before ==> k.id < n;
      if IsVisible(last, user) {
        assert after == before + {KeyOf(last, n, sort)};
      } else {
        assert after == before;
      }
    }
  }

  /** The list shows the unflagged reviews of the user, by their rating or by their time. */
  lemma ShownMeans(reviews: seq<Review>, user: nat, sort: SortBy, k: Key)
    ensures k in Visible(reviews, user, sort)
            <==> && k.id < |reviews| && reviews[k.id].reviewee == user && !reviews[k.id].flagged
                 && k.value == match sort case HighestRated => reviews[k.id].rating case Recent =>
                    reviews[k.id].createdAt
  {
    if k.id < |reviews| && reviews[k.id].reviewee == user && !reviews[k.id].flagged {
      assert IsVisible(reviews[k.id], user);
    }
  }

  /** A removed review leaves every list, and nothing else does. */
  lemma RemovedIsGone(db: Db, review: nat, user: nat, sort: SortBy)
    requires RemoveReview(db, review).Ok?
    ensures Visible(RemoveReview(db, review).db.reviews, user, sort)
            == set k: Key | k in Visible(db.reviews, user, sort) && k.id != review
  {
    var after := RemoveReview(db, review).db.reviews;
    forall k: Key
      ensures k in Visible(after, user, sort) <==> k in Visible(db.reviews, user, sort) && k.id != review
    {
      ShownMeans(after, user, sort, k);
      ShownMeans(db.reviews, user, sort, k);
    }
  }

  /** Paging through an unchanging list, in terms of the review count. */
  lemma WalkMatchesCount(reviews: seq<Review>, user: nat, sort: SortBy, limit: nat, fetches: nat)
    requires limit > 0 && fetches > ReviewCount(reviews, user) / limit
    ensures var pages := Walk(seq(fetches, (i: nat) => Visible(reviews, user, sort)), None, limit);
            && ReviewCount(reviews, user) >= 0
            && |pages| == ReviewCount(reviews, user) / limit + 1
            && NonEmpty(pages) == TotalPages(ReviewCount(reviews, user), limit)
            && IsFinished(pages, limit)
  {
    VisibleMatchesCount(reviews, user, sort);
    FetchesOfAStableWalk(seq(fetches, (i: nat) => Visible(reviews, user, sort)), Visible(reviews, user, sort), limit);
  }

  lemma SnapshotIsTheCount(cfg: Settings, steps: seq<Step>, worker: nat)
    requires AllSafe(steps) && worker < |Run(cfg, EMPTY, steps).workers|
    ensures var db := Run(cfg, EMPTY, steps);
            && db.workers[worker].reviewCount == ReviewCount(db.reviews, db.workers[worker].user)
            && db.workers[worker].averageRating == Average(db.reviews, db.workers[worker].user)
            && RatingsInRange(db.reviews)
  {
    ReachableIsSound(cfg, steps);
  }

  /** The page metadata agrees with the walk: in every reachable state a client that pages through an
      unchanging list makes review_count / limit + 1 fetches, total_pages of them with rows. */
  lemma MetadataMatchesWalk(cfg: Settings, steps: seq<Step>, worker: nat, sort: SortBy, limit: nat, fetches: nat)
    requires AllSafe(steps) && worker < |Run(cfg, EMPTY, steps).workers| && limit > 0
    requires fetches > Run(cfg, EMPTY, steps).workers[worker].reviewCount / limit
    ensures var db := Run(cfg, EMPTY, steps);
            var profile := db.workers[worker];
            var pages := Walk(seq(fetches, (i: nat) => Visible(db.reviews, profile.user, sort)), None, limit);
            && profile.reviewCount >= 0
            && |pages| == profile.reviewCount / limit + 1
            && NonEmpty(pages) == TotalPages(profile.reviewCount, limit)
            && IsFinished(pages, limit)
  {
    SnapshotIsTheCount(cfg, steps, worker);
    var db := Run(cfg, EMPTY, steps);
    WalkMatchesCount(db.reviews, db.workers[worker].user, sort, limit, fetches);
  }

  /** In every reachable state the stored rating is the rounded mean of the visible reviews, and the
      star breakdown shown next to it adds up to it. */
  lemma RatingInEveryRun(cfg: Settings, steps: seq<Step>, worker: nat)
    requires AllSafe(steps) && worker < |Run(cfg, EMPTY, steps).workers|
    ensures var db := Run(cfg, EMPTY, steps);
            var profile := db.workers[worker];
            var star := (s: int) => StarCount(db.reviews, profile.user, s);
            && (profile.averageRating.None? <==> profile.reviewCount == 0)
            && profile.reviewCount == star(1) + star(2) + star(3) + star(4) + star(5)
            && (profile.averageRating.Some? ==>
                  && 100 <= profile.averageRating.value <= 500
                  && IsRounded(100 * (star(1) + 2 * star(2) + 3 * star(3) + 4 * star(4) + 5 * star(5)),
                               profile.reviewCount, profile.averageRating.value))
  {
    SnapshotIsTheCount(cfg, steps, worker);
    var db := Run(cfg, EMPTY, steps);
    AverageIsClose(db.reviews, db.workers[worker].user);
    BreakdownAddsUp(db.reviews, db.workers[worker].user, |db.reviews|);
  }

  // ─── A walk during a run ────────────────────────────────────────────────────

  /** The states at the client's fetches, when batches[i] happens between fetch i and fetch i + 1. */
  function States(cfg: Settings, db: Db, batches: seq<seq<Step>>): (dbs: seq<Db>)
    ensures |dbs| == |batches| + 1 && dbs[0] == db
    decreases |batches|
  {
    if batches == [] then [db] else [db] + States(cfg, Run(cfg, db, batches[0]), batches[1..])
  }

  function Snapshots(dbs: seq<Db>, user: nat, sort: SortBy): seq<set<Key>> {
    seq(|dbs|, (i: nat) requires i < |dbs| => Visible(dbs[i].reviews, user, sort))
  }

  predicate AllBatchesSafe(batches: seq<seq<Step>>) {
    forall i: nat | i < |batches| :: AllSafe(batches[i])
  }

  lemma BatchKeeps(cfg: Settings, db: Db, batch: seq<Step>)
    requires Inv(db) && AllSafe(batch)
    ensures Inv(Run(cfg, db, batch)) && ReviewsEvolve(db.reviews, Run(cfg, db, batch).reviews)
  {
    RunKeeps(cfg, db, batch);
  }

  lemma ReviewsEvolveTransitive(a: seq<Review>, b: seq<Review>, c: seq<Review>)
    requires ReviewsEvolve(a, b) && ReviewsEvolve(b, c)
    ensures ReviewsEvolve(a, c)
  {
  }

  lemma {:induction false} NextStateEvolves(cfg: Settings, db: Db, batches: seq<seq<Step>>, k: nat)
    requires Inv(db) && AllBatchesSafe(batches) && k < |batches|
    ensures ReviewsEvolve(States(cfg, db, batches)[k].reviews, States(cfg, db, batches)[k + 1].reviews)
    decreases k
  {
    BatchKeeps(cfg, db, batches[0]);
    if k > 0 { NextStateEvolves(cfg, Run(cfg, db, batches[0]), batches[1..], k - 1); }
  }

  lemma {:induction false} StatesEvolve(cfg: Settings, db: Db, batches: seq<seq<Step>>, i: nat, j: nat)
    requires Inv(db) && AllBatchesSafe(batches) && i <= j <= |batches|
    ensures ReviewsEvolve(States(cfg, db, batches)[i].reviews, States(cfg, db, batches)[j].reviews)
    decreases j
  {
    if i < j {
      var dbs := States(cfg, db, batches);
      StatesEvolve(cfg, db, batches, i, j - 1);
      NextStateEvolves(cfg, db, batches, j - 1);
      ReviewsEvolveTransitive(dbs[i].reviews, dbs[j - 1].reviews, dbs[j].reviews);
    }
  }

  /** A key names one review for ever: neither its rating nor its time changes. */
  lemma SameReviewSameKey(cfg: Settings, db: Db, batches: seq<seq<Step>>, user: nat, sort: SortBy, i: nat, j: nat,
                          a: Key, b: Key)
    requires Inv(db) && AllBatchesSafe(batches) && i <= |batches| && j <= |batches|
    requires a in Visible(States(cfg, db, batches)[i].reviews, user, sort)
    requires b in Visible(States(cfg, db, batches)[j].reviews, user, sort)
    requires a.id == b.id
    ensures a == b
  {
    StatesEvolve(cfg, db, batches, if i <= j then i else j, if i <= j then j else i);
  }

  /** Flags are never lowered and rows never removed: what is visible at two fetches is visible between them. */
  lemma VisibleInBetween(cfg: Settings, db: Db, batches: seq<seq<Step>>, user: nat, sort: SortBy, k: Key, j: nat,
                         last: nat)
    requires Inv(db) && AllBatchesSafe(batches) && j <= last <= |batches|
    requires k in Visible(db.reviews, user, sort)
    requires k in Visible(States(cfg, db, batches)[last].reviews, user, sort)
    ensures k in Visible(States(cfg, db, batches)[j].reviews, user, sort)
  {
    StatesEvolve(cfg, db, batches, 0, j);
    StatesEvolve(cfg, db, batches, j, last);
    var dbs := States(cfg, db, batches);
    assert IsVisible(dbs[j].reviews[k.id], user);
    assert KeyOf(dbs[j].reviews[k.id], k.id, sort) == k;
  }

  lemma KeysAreStableInRun(cfg: Settings, db: Db, batches: seq<seq<Step>>, user: nat, sort: SortBy)
    requires Inv(db) && AllBatchesSafe(batches)
    ensures KeysAreStable(Snapshots(States(cfg, db, batches), user, sort))
  {
    var snaps := Snapshots(States(cfg, db, batches), user, sort);
    forall i: nat, j: nat, a: Key, b: Key | i < |snaps| && j < |snaps| && a in snaps[i] && b in snaps[j] && a.id == b.id
      ensures a == b
    {
      SameReviewSameKey(cfg, db, batches, user, sort, i, j, a, b);
    }
  }

  lemma StillVisible(cfg: Settings, db: Db, batches: seq<seq<Step>>, user: nat, sort: SortBy, k: Key, last: nat)
    requires Inv(db) && AllBatchesSafe(batches) && last <= |batches|
    requires var snaps := Snapshots(States(cfg, db, batches), user, sort); k in snaps[0] && k in snaps[last]
    ensures var snaps := Snapshots(States(cfg, db, batches), user, sort); forall i: nat | i <= last :: k in snaps[i]
  {
    var snaps := Snapshots(States(cfg, db, batches), user, sort);
    forall i: nat | i <= last ensures k in snaps[i] {
      VisibleInBetween(cfg, db, batches, user, sort, k, i, last);
    }
  }

  /** A client walks the list in either order while anything happens between its fetches: reviews are
      submitted, removed, ratings recalculated. It never sees the same review twice; and once it has
      finished, it has seen every review that was visible at its first and at its last fetch. */
  lemma WalkDuringRun(cfg: Settings, db: Db, batches: seq<seq<Step>>, user: nat, sort: SortBy, limit: nat)
    requires Inv(db) && AllBatchesSafe(batches) && limit > 0
    ensures var snaps := Snapshots(States(cfg, db, batches), user, sort);
            var pages := Walk(snaps, None, limit);
            var shown := Flatten(pages);
            && Descending(shown)
            && (forall x: nat, y: nat | x < y < |shown| :: shown[x].id != shown[y].id)
            && (IsFinished(pages, limit) ==>
                  forall k: Key | k in snaps[0] && k in snaps[|pages| - 1] :: k in shown)
  {
    var snaps := Snapshots(States(cfg, db, batches), user, sort);
    var pages := Walk(snaps, None, limit);
    WalkDescends(snaps, None, limit);
    KeysAreStableInRun(cfg, db, batches, user, sort);
    WalkShowsOnce(snaps, limit);
    if IsFinished(pages, limit) {
      forall k: Key | k in snaps[0] && k in snaps[|pages| - 1] ensures k in Flatten(pages) {
        StillVisible(cfg, db, batches, user, sort, k, |pages| - 1);
        WalkMissesNothing(snaps, None, limit, k);
      }
    }
  }

  /** The same from any reachable state on. */
  lemma WalkInEveryRun(cfg: Settings, steps: seq<Step>, batches: seq<seq<Step>>, user: nat, sort: SortBy, limit: nat)
    requires AllSafe(steps) && AllBatchesSafe(batches) && limit > 0
    ensures var snaps := Snapshots(States(cfg, Run(cfg, EMPTY, steps), batches), user, sort);
            var pages := Walk(snaps, None, limit);
            var shown := Flatten(pages);
            && Descending(shown)
            && (forall x: nat, y: nat | x < y < |shown| :: shown[x].id != shown[y].id)
            && (IsFinished(pages, limit) ==>
                  forall k: Key | k in snaps[0] && k in snaps[|pages| - 1] :: k in shown)
  {
    ReachableIsSound(cfg, steps);
    WalkDuringRun(cfg, Run(cfg, EMPTY, steps), batches, user, sort, limit);
  }

  /** What the walk shows comes best rated first, or newest first, and of equals the later review first. */
  lemma ShownInOrder(cfg: Settings, db: Db, batches: seq<seq<Step>>, user: nat, sort: SortBy, limit: nat,
                     x: nat, y: nat)
    requires Inv(db) && AllBatchesSafe(batches) && limit > 0
    requires x < y < |Flatten(Walk(Snapshots(States(cfg, db, batches), user, sort), None, limit))|
    ensures var rows := States(cfg, db, batches)[|batches|].reviews;
            var shown := Flatten(Walk(Snapshots(States(cfg, db, batches), user, sort), None, limit));
            var i, j := shown[x].id, shown[y].id;
            && i < |rows| && j < |rows| && rows[i].reviewee == user && rows[j].reviewee == user
            && match sort
               case HighestRated => rows[i].rating > rows[j].rating || (rows[i].rating == rows[j].rating && i > j)
               case Recent => rows[i].createdAt > rows[j].createdAt || (rows[i].createdAt == rows[j].createdAt && i > j)
  {
    var snaps := Snapshots(States(cfg, db, batches), user, sort);
    var shown := Flatten(Walk(snaps, None, limit));
    WalkDescends(snaps, None, limit);
    ShownRow(cfg, db, batches, user, sort, limit, shown[x]);
    ShownRow(cfg, db, batches, user, sort, limit, shown[y]);
    assert Before(shown[x], shown[y]);
  }

  /** A key that was shown still says what its row says at the end. */
  lemma ShownRow(cfg: Settings, db: Db, batches: seq<seq<Step>>, user: nat, sort: SortBy, limit: nat, k: Key)
    requires Inv(db) && AllBatchesSafe(batches) && limit > 0
    requires k in Flatten(Walk(Snapshots(States(cfg, db, batches), user, sort), None, limit))
    ensures var rows := States(cfg, db, batches)[|batches|].reviews;
            && k.id < |rows| && rows[k.id].reviewee == user
            && k.value == match sort case HighestRated => rows[k.id].rating case Recent => rows[k.id].createdAt
  {
    var i := WalkShowsVisible(Snapshots(States(cfg, db, batches), user, sort), None, limit, k);
    ShownMeans(States(cfg, db, batches)[i].reviews, user, sort, k);
    StatesEvolve(cfg, db, batches, i, |batches|);
  }
}
