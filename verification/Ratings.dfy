/** The denormalised rating of a worker (rating_service) and the figures of the
    public review list that must agree with it. */
module Ratings {
  import opened Prelude
  import opened Tables

  predicate IsVisible(r: Review, user: nat) {
    r.reviewee == user && !r.flagged
  }

  function VisibleOne(reviews: seq<Review>, user: nat): nat -> int {
    (i: nat) => if i < |reviews| && IsVisible(reviews[i], user) then 1 else 0
  }

  function VisibleRating(reviews: seq<Review>, user: nat): nat -> int {
    (i: nat) => if i < |reviews| && IsVisible(reviews[i], user) then reviews[i].rating else 0
  }

  function VisibleStar(reviews: seq<Review>, user: nat, star: int): nat -> int {
    (i: nat) => if i < |reviews| && IsVisible(reviews[i], user) && reviews[i].rating == star then 1 else 0
  }

  function ReviewCount(reviews: seq<Review>, user: nat): int { SumTo(|reviews|, VisibleOne(reviews, user)) }

  function RatingTotal(reviews: seq<Review>, user: nat): int { SumTo(|reviews|, VisibleRating(reviews, user)) }

  /** One entry of the star breakdown. */
  function StarCount(reviews: seq<Review>, user: nat, star: int): int {
    SumTo(|reviews|, VisibleStar(reviews, user, star))
  }

  /** q is a / n rounded to the nearest integer, a tie going to the even neighbour. */
  predicate IsRounded(a: int, n: int, q: int) {
    var rest := a - q * n;
    -n <= 2 * rest <= n && (2 * rest == n || 2 * rest == -n ==> q % 2 == 0)
  }

  /** Decimal's round, applied to a / n. */
  function RoundHalfEven(a: int, n: int): (q: int)
    requires n > 0
    ensures IsRounded(a, n, q)
  {
    EuclideanDivision(a, n);
    var q, rest := a / n, a % n;
    if 2 * rest < n || (2 * rest == n && q % 2 == 0) then q else q + 1
  }

  /** There is only one way to round. */
  lemma RoundingIsUnique(a: int, n: int, p: int, q: int)
    requires n > 0 && IsRounded(a, n, p) && IsRounded(a, n, q)
    ensures p == q
  {
    if p < q {
      Multiples(n, p, q);
    } else if q < p {
      Multiples(n, q, p);
    }
  }

  lemma {:induction false} TotalsInRange(reviews: seq<Review>, user: nat, n: nat)
    requires n <= |reviews|
    requires forall i: nat | i < |reviews| :: 1 <= reviews[i].rating <= 5
    ensures 0 <= SumTo(n, VisibleOne(reviews, user))
    ensures SumTo(n, VisibleOne(reviews, user)) <= SumTo(n, VisibleRating(reviews, user))
            <= 5 * SumTo(n, VisibleOne(reviews, user))
  {
    if n > 0 { TotalsInRange(reviews, user, n - 1); }
  }

  /** The mean rating in hundredths; NULL when no review is visible. */
  function Average(reviews: seq<Review>, user: nat): Option<int> {
    var count := ReviewCount(reviews, user);
    if count <= 0 then None else Some(RoundHalfEven(100 * RatingTotal(reviews, user), count))
  }

  /** recalculate_worker_rating: one UPDATE of the worker's snapshot columns. */
  function Recalculate(workers: seq<WorkerProfile>, reviews: seq<Review>, user: nat): seq<WorkerProfile> {
    seq(|workers|, (w: nat) requires w < |workers| =>
      if workers[w].user == user
      then workers[w].(averageRating := Average(reviews, user), reviewCount := ReviewCount(reviews, user))
      else workers[w])
  }

  predicate RatingsInRange(reviews: seq<Review>) {
    forall i: nat | i < |reviews| :: 1 <= reviews[i].rating <= 5
  }

  /** The stored mean lies in 1.00 .. 5.00 and within half a hundredth of the exact one. */
  lemma AverageIsClose(reviews: seq<Review>, user: nat)
    requires RatingsInRange(reviews)
    ensures Average(reviews, user).None? <==> ReviewCount(reviews, user) == 0
    ensures Average(reviews, user).Some? ==>
              var a, n := Average(reviews, user).value, ReviewCount(reviews, user);
              && 100 <= a <= 500
              && IsRounded(100 * RatingTotal(reviews, user), n, a)
  {
    TotalsInRange(reviews, user, |reviews|);
    var n := ReviewCount(reviews, user);
    if n > 0 {
      var a := Average(reviews, user).value;
      if a < 100 { Multiples(n, a, 100); }
      if a > 500 { Multiples(n, 500, a); }
    }
  }

  /** The star breakdown sums to the review count and reproduces the rating total. */
  lemma {:induction false} BreakdownAddsUp(reviews: seq<Review>, user: nat, n: nat)
    requires n <= |reviews| && RatingsInRange(reviews)
    ensures var s := (star: int) => SumTo(n, VisibleStar(reviews, user, star));
            && s(1) + s(2) + s(3) + s(4) + s(5) == SumTo(n, VisibleOne(reviews, user))
            && s(1) + 2 * s(2) + 3 * s(3) + 4 * s(4) + 5 * s(5) == SumTo(n, VisibleRating(reviews, user))
  {
    if n > 0 { BreakdownAddsUp(reviews, user, n - 1); }
  }

  /** The review count is the number of unflagged reviews of the user. */
  lemma CountMeans(reviews: seq<Review>, user: nat)
    ensures ReviewCount(reviews, user)
            == |set i: nat | i < |reviews| && reviews[i].reviewee == user && !reviews[i].flagged|
  {
    var p := (i: nat) => i < |reviews| && reviews[i].reviewee == user && !reviews[i].flagged;
    SumIsCount(|reviews|, VisibleOne(reviews, user), p);
    assert (set i: nat | i < |reviews| && p(i))
        == set i: nat | i < |reviews| && reviews[i].reviewee == user && !reviews[i].flagged;
  }

  /** One entry of the breakdown is the number of unflagged reviews of the user with that many stars. */
  lemma StarMeans(reviews: seq<Review>, user: nat, star: int)
    ensures StarCount(reviews, user, star)
            == |set i: nat | i < |reviews| && reviews[i].reviewee == user && !reviews[i].flagged
                && reviews[i].rating == star|
  {
    var p := (i: nat) =>
      i < |reviews| && reviews[i].reviewee == user && !reviews[i].flagged && reviews[i].rating == star;
    SumIsCount(|reviews|, VisibleStar(reviews, user, star), p);
    assert (set i: nat | i < |reviews| && p(i))
        == set i: nat | i < |reviews| && reviews[i].reviewee == user && !reviews[i].flagged
            && reviews[i].rating == star;
  }

  /** Flagging an unflagged review takes it out of its reviewee's count and total, whoever else is reviewed. */
  lemma FlagTakesOut(reviews: seq<Review>, k: nat, user: nat)
    requires k < |reviews| && !reviews[k].flagged
    ensures var after := reviews[k := reviews[k].(flagged := true)];
            var hit := user == reviews[k].reviewee;
            && ReviewCount(after, user) == ReviewCount(reviews, user) - (if hit then 1 else 0)
            && RatingTotal(after, user) == RatingTotal(reviews, user) - (if hit then reviews[k].rating else 0)
  {
    var after := reviews[k := reviews[k].(flagged := true)];
    SumChange(|reviews|, VisibleOne(reviews, user), VisibleOne(after, user), k);
    SumChange(|reviews|, VisibleRating(reviews, user), VisibleRating(after, user), k);
  }

  /** Adding an unflagged review adds it to its reviewee's count and total only. */
  lemma AppendAdds(reviews: seq<Review>, r: Review, user: nat)
    requires !r.flagged
    ensures var hit := user == r.reviewee;
            && ReviewCount(reviews + [r], user) == ReviewCount(reviews, user) + (if hit then 1 else 0)
            && RatingTotal(reviews + [r], user) == RatingTotal(reviews, user) + (if hit then r.rating else 0)
  {
    AppendReview(reviews, r, user);
  }

  /** Adding a review moves the aggregates of its reviewee only. */
  lemma AppendReview(reviews: seq<Review>, r: Review, user: nat)
    ensures ReviewCount(reviews + [r], user) == ReviewCount(reviews, user) + if IsVisible(r, user) then 1 else 0
    ensures RatingTotal(reviews + [r], user) == RatingTotal(reviews, user) + if IsVisible(r, user) then r.rating else 0
  {
    SumSame(|reviews|, VisibleOne(reviews, user), VisibleOne(reviews + [r], user));
    SumSame(|reviews|, VisibleRating(reviews, user), VisibleRating(reviews + [r], user));
  }

  /** Changing one review without changing what another user sees of it leaves that user's aggregates alone. */
  lemma UpdateReview(reviews: seq<Review>, k: nat, r: Review, user: nat)
    requires k < |reviews| && reviews[k].reviewee == r.reviewee && user != r.reviewee
    ensures ReviewCount(reviews[k := r], user) == ReviewCount(reviews, user)
    ensures RatingTotal(reviews[k := r], user) == RatingTotal(reviews, user)
  {
    SumSame(|reviews|, VisibleOne(reviews, user), VisibleOne(reviews[k := r], user));
    SumSame(|reviews|, VisibleRating(reviews, user), VisibleRating(reviews[k := r], user));
  }
}
