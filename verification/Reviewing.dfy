/** Who may review whom, submitting a review and removing one
    (review_eligibility_service, crud_reviews.submit_review, review_moderation_service). */
module Reviewing {
  import opened Prelude
  import opened Tables
  import opened Ratings
  import opened Invariant

  datatype Verdict = CanReview | NotAParticipant | JobNotComplete | AlreadySubmitted

  function ReviewedBy(reviews: seq<Review>, job: nat, user: nat): nat -> bool {
    (i: nat) => i < |reviews| && reviews[i].job == job && reviews[i].reviewer == user
  }

  /** The three guards of a submission, in the order in which they are checked. */
  function Eligibility(db: Db, user: nat, job: nat): Verdict
    requires job < |db.jobs|
  {
    if db.jobs[job].owner != user && AcceptedUser(db, job) != Some(user) then NotAParticipant
    else if !db.jobs[job].status.Completed? then JobNotComplete
    else if First(|db.reviews|, ReviewedBy(db.reviews, job, user)).Some? then AlreadySubmitted
    else CanReview
  }

  function AcceptedFrom(apps: seq<Application>, job: nat, worker: nat): nat -> bool {
    (a: nat) => IsAccepted(apps, job)(a) && apps[a].worker == worker
  }

  /** The rows the profile-page query selects: completed jobs of the caller with an accepted
      application of this worker, which the caller has not reviewed. */
  function Reviewable(db: Db, user: nat, worker: nat): nat -> bool {
    (j: nat) =>
      && j < |db.jobs| && db.jobs[j].owner == user && db.jobs[j].status.Completed?
      && First(|db.apps|, AcceptedFrom(db.apps, j, worker)).Some?
      && First(|db.reviews|, ReviewedBy(db.reviews, j, user)).None?
  }

  /** ORDER BY created_at DESC LIMIT 1 over the first n jobs that satisfy p. */
  function Newest(jobs: seq<Job>, p: nat -> bool, n: nat): (r: Option<nat>)
    requires n <= |jobs|
    ensures r.Some? ==> r.value < n && p(r.value) && forall j: nat | j < n && p(j) ::
            jobs[j].createdAt <= jobs[r.value].createdAt
    ensures r.None? ==> forall j: nat | j < n :: !p(j)
  {
    if n == 0 then None
    else
      var r := Newest(jobs, p, n - 1);
      if p(n - 1) && (r.None? || jobs[r.value].createdAt <= jobs[n - 1].createdAt) then Some(n - 1) else r
  }

  /** What check_worker_review_eligibility may answer: any reviewable job without a newer one. Jobs of the
      same time are not ordered. */
  predicate MayOffer(db: Db, user: nat, worker: nat, offer: Option<nat>) {
    var p := Reviewable(db, user, worker);
    match offer
    case None => forall j: nat | j < |db.jobs| :: !p(j)
    case Some(j) =>
      j < |db.jobs| && p(j) && forall k: nat | k < |db.jobs| && p(k) :: db.jobs[k].createdAt <= db.jobs[j].createdAt
  }

  lemma SomethingMayBeOffered(db: Db, user: nat, worker: nat)
    ensures MayOffer(db, user, worker, Newest(db.jobs, Reviewable(db, user, worker), |db.jobs|))
  {
  }

  function SubmitReview(db: Db, user: nat, job: nat, rating: int): Outcome {
    if user >= |db.users| then Fail(Unauthorized)
    else if !(1 <= rating <= 5) then Fail(InvalidPayload)
    else if job >= |db.jobs| then Fail(NotFound)
    else match Eligibility(db, user, job)
      case NotAParticipant => Fail(Forbidden)
      case JobNotComplete => Fail(BadRequest)
      case AlreadySubmitted => Fail(BadRequest)
      case CanReview =>
        if db.jobs[job].owner == user then
          var worker := AcceptedUser(db, job);
          if worker.None? then Fail(AssertionFailure)
          else
            var reviews := db.reviews + [Review(job, user, worker.value, Customer, rating, db.now, false)];
            Ok(db.(reviews := reviews, workers := Recalculate(db.workers, reviews, worker.value)))
        else
          Ok(db.(reviews := db.reviews + [Review(job, user, db.jobs[job].owner, Worker, rating, db.now, false)]))
  }

  /** remove_flagged_review: raises the flag, and recalculates when the review is about a worker. */
  function RemoveReview(db: Db, review: nat): Outcome {
    if review >= |db.reviews| then Fail(NotFound)
    else if db.reviews[review].flagged then Fail(BadRequest)
    else
      var reviews := db.reviews[review := db.reviews[review].(flagged := true)];
      if db.reviews[review].role.Customer?
      then Ok(db.(reviews := reviews, workers := Recalculate(db.workers, reviews, db.reviews[review].reviewee)))
      else Ok(db.(reviews := reviews))
  }

  // ─── Preservation ───────────────────────────────────────────────────────────

  /** A change of the reviews that recalculates the one worker it may concern keeps every snapshot right. */
  lemma RecalculatedRatings(workers: seq<WorkerProfile>, old': seq<Review>, new': seq<Review>, user: nat)
    requires RatingsAgree(workers, old')
    requires forall u: nat | u != user ::
             ReviewCount(new', u) == ReviewCount(old', u) && RatingTotal(new', u) == RatingTotal(old', u)
    ensures RatingsAgree(Recalculate(workers, new', user), new')
    ensures (forall w: nat | w < |workers| :: workers[w].user != user) ==> RatingsAgree(workers, new')
  {
  }

  lemma SubmitReviewKeeps(db: Db, user: nat, job: nat, rating: int)
    requires Inv(db) && SubmitReview(db, user, job, rating).Ok?
    ensures var db' := SubmitReview(db, user, job, rating).db; Inv(db') && Evolves(db, db')
  {
    var db' := SubmitReview(db, user, job, rating).db;
    SubmitReviewEvolves(db, user, job, rating);
    KeysAfterUpdate(db, db');
    SubmitReviewRatings(db, user, job, rating);
    SubmitReviewPairs(db, user, job, rating);
    SubmitReviewRows(db, user, job, rating);
    CarryBilling(db, db');
    CarryBalance(db, db');
  }

  lemma SubmitReviewEvolves(db: Db, user: nat, job: nat, rating: int)
    requires SubmitReview(db, user, job, rating).Ok?
    ensures Evolves(db, SubmitReview(db, user, job, rating).db)
  {
  }

  lemma SubmitReviewRatings(db: Db, user: nat, job: nat, rating: int)
    requires Keys(db) && RatingsAgree(db.workers, db.reviews) && SubmitReview(db, user, job, rating).Ok?
    ensures var db' := SubmitReview(db, user, job, rating).db; RatingsAgree(db'.workers, db'.reviews)
  {
    var db' := SubmitReview(db, user, job, rating).db;
    var r := db'.reviews[|db.reviews|];
    forall u: nat | u != r.reviewee
      ensures ReviewCount(db'.reviews, u) == ReviewCount(db.reviews, u)
              && RatingTotal(db'.reviews, u) == RatingTotal(db.reviews, u)
    {
      AppendReview(db.reviews, r, u);
    }
    RecalculatedRatings(db.workers, db.reviews, db'.reviews, r.reviewee);
  }

  lemma SubmitReviewPairs(db: Db, user: nat, job: nat, rating: int)
    requires ReviewPairs(db.reviews) && SubmitReview(db, user, job, rating).Ok?
    ensures ReviewPairs(SubmitReview(db, user, job, rating).db.reviews)
  {
    forall i: nat | i < |db.reviews| ensures db.reviews[i].job != job || db.reviews[i].reviewer != user {
      assert !ReviewedBy(db.reviews, job, user)(i);
    }
  }

  lemma SubmitReviewRows(db: Db, user: nat, job: nat, rating: int)
    requires Keys(db) && HasSoleAcceptances(db.apps) && ReviewRows(db)
    requires SubmitReview(db, user, job, rating).Ok? && Keys(SubmitReview(db, user, job, rating).db)
    ensures ReviewRows(SubmitReview(db, user, job, rating).db)
  {
    var db' := SubmitReview(db, user, job, rating).db;
    var r := db'.reviews[|db.reviews|];
    forall a: nat | a < |db.apps| && db.apps[a].job == job && db.apps[a].status.Accepted?
      ensures BetweenParticipants(r, db.jobs[job].owner, db.workers[db.apps[a].worker].user)
    {
      LookupIsAFunction(db.apps, job, Some(db.apps[a].worker)) by {
        assert IsAccepted(db.apps, job)(a);
      }
    }
    NewReviewRow(db, db', r);
  }

  lemma NewReviewRow(db: Db, db': Db, r: Review)
    requires Keys(db) && Keys(db') && ReviewRows(db) && db'.reviews == db.reviews + [r]
    requires db'.jobs == db.jobs && db'.apps == db.apps && |db'.workers| == |db.workers|
    requires forall w: nat | w < |db.workers| :: db'.workers[w].user == db.workers[w].user
    requires r.job < |db.jobs| && db.jobs[r.job].status.Completed?
    requires forall a: nat | a < |db.apps| && db.apps[a].job == r.job && db.apps[a].status.Accepted? ::
               BetweenParticipants(r, db.jobs[r.job].owner, db.workers[db.apps[a].worker].user)
    ensures ReviewRows(db')
  {
  }

  lemma RemoveReviewKeeps(db: Db, review: nat)
    requires Inv(db) && RemoveReview(db, review).Ok?
    ensures var db' := RemoveReview(db, review).db; Inv(db') && Evolves(db, db')
  {
    var db' := RemoveReview(db, review).db;
    RemoveReviewEvolves(db, review);
    KeysAfterUpdate(db, db');
    RemoveReviewRatings(db, review);
    RemoveReviewPairs(db, review);
    RemoveReviewRows(db, review);
    CarryBilling(db, db');
    CarryBalance(db, db');
  }

  lemma RemoveReviewEvolves(db: Db, review: nat)
    requires RemoveReview(db, review).Ok?
    ensures Evolves(db, RemoveReview(db, review).db)
  {
  }

  lemma RemoveReviewPairs(db: Db, review: nat)
    requires ReviewPairs(db.reviews) && RemoveReview(db, review).Ok?
    ensures ReviewPairs(RemoveReview(db, review).db.reviews)
  {
  }

  lemma RemoveReviewRows(db: Db, review: nat)
    requires Keys(db) && ReviewRows(db)
    requires RemoveReview(db, review).Ok? && Keys(RemoveReview(db, review).db)
    ensures ReviewRows(RemoveReview(db, review).db)
  {
    FlagIsNoKey(db, RemoveReview(db, review).db);
  }

  /** What is known of the parties of a review does not look at its flag. */
  lemma FlagIsNoKey(db: Db, db': Db)
    requires Keys(db) && Keys(db') && ReviewRows(db)
    requires db'.jobs == db.jobs && db'.apps == db.apps && |db'.workers| == |db.workers|
    requires forall w: nat | w < |db.workers| :: db'.workers[w].user == db.workers[w].user
    requires |db'.reviews| == |db.reviews|
    requires forall i: nat | i < |db.reviews| :: db'.reviews[i] == db.reviews[i].(flagged := db'.reviews[i].flagged)
    ensures ReviewRows(db')
  {
    forall i: nat, a: nat | i < |db'.reviews| && a < |db'.apps| && db'.apps[a].job == db'.reviews[i].job
      ensures db'.apps[a].status.Accepted? ==>
                BetweenParticipants(db'.reviews[i], db'.jobs[db'.apps[a].job].owner,
                                    db'.workers[db'.apps[a].worker].user)
    {
      assert db.apps[a].job == db.reviews[i].job;
    }
  }

  lemma RemoveReviewRatings(db: Db, review: nat)
    requires Keys(db) && Handshake(db.jobs, db.apps) && ReviewRows(db) && RatingsAgree(db.workers, db.reviews)
    requires RemoveReview(db, review).Ok?
    ensures var db' := RemoveReview(db, review).db; RatingsAgree(db'.workers, db'.reviews)
  {
    var r := db.reviews[review];
    var reviews := db.reviews[review := r.(flagged := true)];
    forall u: nat | u != r.reviewee
      ensures ReviewCount(reviews, u) == ReviewCount(db.reviews, u)
              && RatingTotal(reviews, u) == RatingTotal(db.reviews, u)
    {
      UpdateReview(db.reviews, review, r.(flagged := true), u);
    }
    if r.role.Worker? {
      var a := WinnerIsFound(db, r.job);
      assert r.reviewee == db.jobs[r.job].owner;
    }
    RecalculatedRatings(db.workers, db.reviews, reviews, r.reviewee);
  }

  // ─── What the guards mean ───────────────────────────────────────────────────

  /** The assert of submit_review never fails. */
  lemma SubmitReviewNeverBreaks(db: Db, user: nat, job: nat, rating: int)
    requires Keys(db) && Handshake(db.jobs, db.apps)
    ensures !Raises(SubmitReview(db, user, job, rating), AssertionFailure)
  {
    if job < |db.jobs| && db.jobs[job].status.Completed? {
      var a := WinnerIsFound(db, job);
    }
  }

  /** For a job of the caller, the rows of the profile-page query are exactly the jobs that pass
      the per-job guards and whose accepted worker is this one. */
  lemma ReviewableMeansEligible(db: Db, user: nat, worker: nat, j: nat)
    requires Inv(db) && j < |db.jobs| && db.jobs[j].owner == user
    ensures Reviewable(db, user, worker)(j)
            <==> Eligibility(db, user, j) == CanReview && AcceptedWorker(db.apps, j) == Some(worker)
  {
    if db.jobs[j].status.Completed? {
      var a := WinnerIsFound(db, j);
      if db.apps[a].worker == worker {
        assert AcceptedFrom(db.apps, j, worker)(a);
      }
    }
  }

  /** Whichever newest job the query picks: the profile page offers a review exactly when some job of the
      caller passes the per-job guards with this worker as its accepted worker; and submitting on the offered
      job succeeds and reviews that very worker. */
  lemma OfferIsExact(db: Db, user: nat, worker: nat, rating: int, offer: Option<nat>)
    requires Inv(db) && user < |db.users| && 1 <= rating <= 5 && MayOffer(db, user, worker, offer)
    ensures offer.Some? <==>
              exists j: nat :: j < |db.jobs| && db.jobs[j].owner == user
                               && Eligibility(db, user, j) == CanReview && AcceptedWorker(db.apps, j) == Some(worker)
    ensures offer.Some? ==>
              var after := SubmitReview(db, user, offer.value, rating);
              && after.Ok? && |after.db.reviews| == |db.reviews| + 1
              && worker < |db.workers|
              && after.db.reviews[|db.reviews|].reviewee == db.workers[worker].user
  {
    var p := Reviewable(db, user, worker);
    forall j: nat | j < |db.jobs| && db.jobs[j].owner == user
      ensures p(j) <==> Eligibility(db, user, j) == CanReview && AcceptedWorker(db.apps, j) == Some(worker)
    {
      ReviewableMeansEligible(db, user, worker, j);
    }
    if offer.Some? {
      var j := offer.value;
      assert Eligibility(db, user, j) == CanReview && AcceptedWorker(db.apps, j) == Some(worker);
      var a := WinnerIsFound(db, j);
    }
  }
}
