# Marketplace protocols, verified

A Dafny model of the backend of a marketplace where customers post jobs and workers apply for them, of
the token refresh in its browser client, and proofs of what these protocols guarantee over whole runs.

## What is modelled

**The job protocol** (`Tables`, `Ratings`, `Invariant`, `Jobs`, `Lifecycle`, `Timeouts`, `Reviewing`,
`Billings`, `Marketplace`, `Effects`, `Refusals`, `Provenance`, `Services`, `Findings`, `Funnel`). The state is the database: users, profiles,
jobs, applications, reviews, billing rows, payments, and a clock. Every endpoint that writes one of these
tables, and both hourly sweeps, is a step of one state machine (`Marketplace.Next`); a request that fails
leaves behind what it had committed, which is nothing except in `mark_job_complete`.
`Invariant.Inv` collects what no function of the repository checks and several rely on, and
`Marketplace.RunKeeps` proves it over every run. `Effects` says of each request, in terms of the rows alone, when it
succeeds, whom it turns away and which columns change, `Refusals` what stands behind each error; `Provenance` finds behind every acceptance, confirmation and
start of a run a successful call of the party it is up to. `Services.Session` holds the same operations
as the code has them, statements that change tables row by row, with the `LIMIT 1` lookups answering
anything the unordered query may answer, the sweeps working through their rows in any order, and the
service's own `assert` statements proved; each method is shown to perform exactly its step, and `Perform`
puts them together.

Three findings about the code are stated as lemmas, each with a concrete run and an exact condition:

- A job PATCH may write any status on an OPEN job. It keeps the invariant exactly when it does not write
  ASSIGNED, IN_PROGRESS or COMPLETED (`Jobs.UpdateJobKeepsExactlyWhen`). It lets a later request fail an
  `assert` exactly when it writes IN_PROGRESS or COMPLETED, or ASSIGNED while an application is accepted
  (`Findings.PatchBreaksExactlyWhen`): the assignment sweep, which reads no job status, takes an unconfirmed
  acceptance away behind the running job. Runs of the short cases are
  `Findings.StatusPatchReachesTheAssert` and `Findings.StatusPatchReachesTheReviewAssert`. The results about
  runs are therefore restricted to steps that are `IsSafe`. Writing CANCELLED is harmless.
- The completion sweep completes a job without a billing row, although the docstring of the billing model
  (src/app/models/worker_billing.py:24-29) promises exactly one row per completed job. A completed job has
  one exactly when no sweep completed it (`Marketplace.BilledExactlyWhenNotSwept`);
  `Findings.SweptJobIsUnbilled` is a run that ends without.
- A refund leaves the billing row PAID (`Billings.HeldExactlyWhenNotRefunded`, with the run
  `Findings.RefundedRowIsPaid`). The provider implements the refund, but no endpoint calls it today.

The funnel's docstring calls each stage a strict subset of the one before; the stages are nested, and may
be equal (`Funnel.EmptyStagesAreEqual`, with the exact conditions in `Funnel.StrictExactlyWhen`). Soft-deleted jobs stay reachable through the lifecycle endpoints, as in the code.

**The public review list** (`Keyset`, `ReviewList`). A client follows cursors over a table that changes
between its fetches.

**The token refresh** (`TokenRefresh`). Requests, 401 replies, the reply to the refresh call, and logins and
logouts that set or clear the token interleave freely; `ApiClient` is the module with its variables, proved
against the event machine. A successful refresh also writes the default header, which nothing clears: a new
request sent without a token in memory carries the token of the last successful refresh, and none exactly when
there was no such refresh (`TokenRefresh.TokenlessRequestCarries`, with the run
`TokenRefresh.FailedRefreshLeavesTheHeader`).

**One-time codes and rate limits on expiring keys** (`RedisStore`, `Windows`, `RateLimit`, `Otp`). A store
with a clock and expiries, and the two services written against its commands. Their ghost log records
what happened; the class invariants tie every key to it. The count a call to the rate limiter finds is
the true number of calls in its window exactly when all of them counted on the same key and the key the first
one set has not expired (`RateLimit.LiveIsRightExactlyWhen`). A caller whose period on a path changes can break
that for the window in progress (`RateLimit.ChangedPeriodLetsThrough`); from the next window on the counter is
right again (`RateLimit.SteadyAgrees`).

**Trade categories** (`Categories`, `CategoryTree`). The table with its parent column, and the nested
listing, linked in place as nodes that share their children. `update` only refuses a category as its own
parent, so it can close a longer circle (`Categories.MovingUpClosesACircle`); the exact condition is
`Categories.UpdateKeepsForestExactlyWhen`, and the categories of a circle are missing from the listing.

## Model

| member | source | states |
|---|---|---|
| Marketplace.RunKeeps | src/app/services/job_lifecycle_service.py:39-254 | over every run of safe steps the whole invariant holds; no job moves backwards, no application of a settled job changes, no review is edited, no paid row reopens |
| Marketplace.HandshakeInEveryRun | src/app/services/job_lifecycle_service.py:62-79 | in every reachable state a job has at most one ACCEPTED application; from ASSIGNED on exactly one, confirmed, all others REJECTED; COMPLETED iff both marks are set; the owner has at most 10 active jobs |
| Marketplace.NothingBreaks | src/app/services/job_lifecycle_service.py:192-215 | in a state that satisfies the invariant no step fails an assert, none fails after a commit, and only a PATCH with a null title, a null status or a budget that does not fit the stored end hits a constraint of the modelled columns |
| Marketplace.NothingBreaksInAnyRun | src/app/services/job_lifecycle_service.py:192-215 | the same after any run of safe steps from the empty database |
| Marketplace.LoginsInEveryRun | src/app/api/v1/auth.py:45-62 | after any run no e-mail and no username is used twice |
| Marketplace.ReviewsInEveryRun | src/app/services/review_eligibility_service.py:30-55 | in every reachable state a review sits on a COMPLETED job, between its owner and its accepted worker, two different users, and is the only one of its reviewer |
| Marketplace.JobsMoveForwards | src/app/services/job_lifecycle_service.py:152-207 | after any run, whatever follows, a job's status only moves forwards, and COMPLETED and CANCELLED are final |
| Provenance.EachHalfWasAsked | src/app/services/job_lifecycle_service.py:62-160 | in every reachable state the owner successfully accepted the winning application, its worker, somebody else, confirmed it, and that worker started the job before it ran or was completed |
| Provenance.ConfirmationsComeFromWorkers | src/app/services/job_lifecycle_service.py:68-78 | over every run an application that became confirmed has the confirmation by its worker's user among the successful calls |
| Provenance.AcceptancesComeFromOwners | src/app/crud/crud_job_applications.py:97-131 | over every run an application that became ACCEPTED has the acceptance by its job's owner among the successful calls |
| Provenance.StartsComeFromWorkers | src/app/services/job_lifecycle_service.py:149-160 | over every run a job that came to run or be completed has the start by its accepted worker among the successful calls |
| Effects.ConfirmDoes | src/app/services/job_lifecycle_service.py:62-81 | only the applicant confirms, only an accepted application of an open job; the time is noted, every other unrejected application of the job loses with that reason, and no other row changes |
| Effects.DecisionDoes | src/app/crud/crud_job_applications.py:97-131 | only the owner decides, with a reason iff rejecting, and never a second acceptance; accepting notes the time |
| Effects.WithdrawDoes | src/app/services/job_lifecycle_service.py:112-131 | only the applicant withdraws, while the job is open; only that row changes |
| Effects.ApplyDoes | src/app/crud/crud_job_applications.py:29-53 | a worker applies as themselves, once per open job |
| Effects.StartDoes | src/app/services/job_lifecycle_service.py:149-160 | the accepted worker of an assigned job and nobody else starts it |
| Effects.MarkCompleteSucceedsWhen | src/app/services/job_lifecycle_service.py:184-207 | owner and accepted worker, and nobody else, mark a running job, once each |
| Effects.MarkCompleteDoes | src/app/services/job_lifecycle_service.py:197-224 | the caller's mark gets the time of the call; the second mark completes the job and adds one due row: the flat commission, the accepted worker, the grace period |
| Effects.CompletionSweepDoes | src/app/services/job_timeout_service.py:66-97 | a job changes iff it is IN_PROGRESS with exactly one mark, set at some time no later than now minus the timeout; then the missing mark is now and the job COMPLETED |
| Effects.SweepChargesOwner | src/app/services/job_timeout_service.py:87-91 | the owner's counter rises by the number of their jobs whose missing mark was the customer's |
| Effects.SweepChargesWorker | src/app/services/job_timeout_service.py:92-96 | a worker's counter rises by the number of swept jobs with their accepted application whose missing mark was the worker's |
| Effects.AssignmentSweepDoes | src/app/services/job_timeout_service.py:36-54 | a worker's counter rises by the number of their acceptances left unconfirmed for the timeout |
| Effects.SubmitReviewDoes | src/app/crud/crud_reviews.py:132-182 | a party of a completed job reviews the other once with 1 to 5 stars; the appended row holds the job, the caller, the submitted rating, the time and the role, and moves count and total of its reviewee by 1 and the rating |
| Effects.SubmitReviewMovesSnapshot | src/app/services/rating_service.py:26-39 | the reviewed worker's count rises by one and the mean is the rounded new mean; every other profile stays |
| Effects.RemoveReviewDoes | src/app/services/review_moderation_service.py:76-91 | succeeds iff the review is there and not flagged; only its flag changes, and its reviewee's count and total fall by 1 and its rating |
| Effects.RemoveReviewMovesSnapshot | src/app/services/rating_service.py:26-39 | the reviewed worker's count falls by one, with the rounded mean of the rest, or NULL when none is left |
| Effects.MarkPaidDoes | src/app/services/worker_billing_service.py:23-65 | records one settled cash payment of all that is owed, by the worker's user, linked both ways, and the money is held |
| Effects.RefundDoes | src/app/services/payments/providers.py:107-120 | succeeds for cash payments and changes nothing but the ledger row's status |
| Effects.CreateJobDoes | src/app/crud/crud_jobs.py:33-56 | a customer with fewer than 10 undeleted jobs that are not over posts a well-formed job in a known category, as OPEN and from now |
| Effects.UpdateJobDoes | src/app/crud/crud_jobs.py:58-91 | only the owner's open, undeleted job; given fields take their value, null clears what may be empty, the rest stays, and the stored budget fits |
| Effects.UpdateJobSucceedsWhen | src/app/crud/crud_jobs.py:58-91 | an owner's well-formed PATCH is refused exactly for a null title or status or a budget that does not fit the stored end |
| Effects.DeleteJobDoes | src/app/crud/crud_jobs.py:93-105 | the owner deletes an undeleted job, once, and only the mark changes |
| Effects.RegisterDoes | src/app/api/v1/auth.py:45-62 | succeeds iff neither the e-mail nor the username is taken, and adds the user and the one profile of the role |
| Refusals.CreateJobRefusals | src/app/api/v1/jobs.py:62-73 | a new job is refused with each error only for the reasons that error stands for |
| Refusals.UpdateJobRefusals | src/app/crud/crud_jobs.py:58-91 | a PATCH of a job is refused with each error only for the reasons that error stands for |
| Refusals.DeleteJobRefusals | src/app/crud/crud_jobs.py:93-105 | a deletion is refused with each error only for the reasons that error stands for |
| Refusals.ApplyRefusals | src/app/crud/crud_job_applications.py:29-47 | an application is refused with each error only for the reasons that error stands for |
| Refusals.DecisionRefusals | src/app/crud/crud_job_applications.py:97-125 | a decision of the owner is refused with each error only for the reasons that error stands for |
| Refusals.ConfirmRefusals | src/app/services/job_lifecycle_service.py:68-76 | a confirmation is refused with each error only for the reasons that error stands for |
| Refusals.WithdrawRefusals | src/app/services/job_lifecycle_service.py:120-128 | a withdrawal is refused with each error only for the reasons that error stands for |
| Refusals.StartRefusals | src/app/services/job_lifecycle_service.py:152-157 | a start is refused with each error only for the reasons that error stands for |
| Refusals.MarkCompleteRefusals | src/app/services/job_lifecycle_service.py:184-204 | a completion mark is refused with each error only for the reasons that error stands for |
| Refusals.SubmitReviewRefusals | src/app/crud/crud_reviews.py:148-155 | a review is refused with each error only for the reasons that error stands for |
| Refusals.RemoveReviewRefusals | src/app/services/review_moderation_service.py:81-85 | a removal is refused with each error only for the reasons that error stands for |
| Refusals.MarkPaidRefusals | src/app/services/worker_billing_service.py:27-56 | marking a row paid is refused with each error only for the reasons that error stands for |
| Refusals.RefundRefusals | src/app/services/payments/providers.py:107-115 | a refund is refused with each error only for the reasons that error stands for |
| Findings.PatchBreaksExactlyWhen | src/app/crud/crud_jobs.py:58-91 | a successful PATCH lets some later request fail an assert if and only if it writes IN_PROGRESS or COMPLETED, or ASSIGNED while an application of the job is accepted |
| Findings.StuckNeverBreaks | src/app/services/job_lifecycle_service.py:149-197 | a job patched to ASSIGNED without an acceptance behaves like a cancelled one in every run, so no assert is reached |
| Findings.HollowBreaks | src/app/services/job_timeout_service.py:38-51 | a running or completed job without a confirmed acceptance reaches an assert: the sweep takes any unconfirmed one away |
| Findings.StatusPatchReachesTheAssert | src/app/crud/crud_jobs.py:58-91 | a concrete run in which the owner patches a job to IN_PROGRESS makes mark_job_complete fail its assert |
| Findings.StatusPatchReachesTheReviewAssert | src/app/crud/crud_reviews.py:157-165 | a concrete run in which the owner patches a job to COMPLETED makes submit_review fail its assert |
| Findings.SweptJobIsUnbilled | src/app/services/job_timeout_service.py:87-97 | a concrete run, with the default settings, ends with a COMPLETED job and no billing row |
| Findings.RefundedRowIsPaid | src/app/services/payments/providers.py:107-120 | a concrete run ends with a PAID row while none of its cash is held |
| Jobs.UpdateJobKeepsExactlyWhen | src/app/crud/crud_jobs.py:58-91 | a successful PATCH keeps the invariant if and only if it does not write ASSIGNED, IN_PROGRESS or COMPLETED |
| Marketplace.NoShowsAreTheCharges | src/app/services/job_timeout_service.py:11-26 | over any run a profile's no_show_count grows by exactly the expirations charged to it, with multiplicity |
| Marketplace.NoShowsAreTheCounts | src/app/services/job_timeout_service.py:103-107 | over any run the total of all counters grows by exactly the sum of the counts the sweeps returned |
| Marketplace.NoShowsInEveryRun | src/app/services/job_timeout_service.py:11-26 | in every reachable state each profile's no_show_count is the number of expirations charged to it, and all counters together are what the sweeps returned |
| Marketplace.BilledExactlyWhenNotSwept | src/app/services/job_timeout_service.py:87-97 | after any run a job that became completed has a billing row iff no completion sweep completed it; unfinished jobs have none |
| Marketplace.MarksComeFromParties | src/app/services/job_lifecycle_service.py:184-207 | outside the sweep, the customer's mark takes a call by the owner and the worker's mark one by the accepted worker |
| Marketplace.CompletionAndBilling | src/app/services/job_lifecycle_service.py:178-224 | every completed job of every run was either swept and has no billing row, or was marked by two different users, its owner and its confirmed worker, and has exactly one row, naming that worker |
| Services.Session.Perform | src/app/api/v1/jobs.py:62-374 | every request and sweep, by dispatch to its handler (create, update and delete job, apply, decide, confirm, withdraw, start, complete, review, remove, pay, refund, register): the tables change exactly as the step says, no assert fails, and after a safe step the invariant stands |
| Services.Session.RejectOtherApplications | src/app/services/job_lifecycle_service.py:39-59 | the loop, in any order of the selected rows, rejects exactly the other unrejected applications of the job |
| Services.Session.ConfirmApplication | src/app/services/job_lifecycle_service.py:62-81 | guards in order, then the confirmation, ASSIGNED and the rejections; a failure changes nothing |
| Services.Session.StartJob | src/app/services/job_lifecycle_service.py:149-160 | the start step, through the unordered accepted-worker lookup |
| Services.Session.MarkJobComplete | src/app/services/job_lifecycle_service.py:178-224 | the completion step including the commission row, inserted after the completion is committed; both asserts of the service are proved |
| Services.Session.ExpireUnconfirmedAssignments | src/app/services/job_timeout_service.py:29-54 | whatever the row order, the loop ends in the swept state, and returns how many applications it expired |
| Services.Session.ExpireUnconfirmedCompletions | src/app/services/job_timeout_service.py:57-100 | whatever the row order, the loop ends in the swept state, and returns how many jobs it completed |
| Services.Session.RunJobTimeoutChecks | src/app/services/job_timeout_service.py:103-107 | both sweeps in turn, with both counts |
| Services.ChecksKeep | src/app/services/job_timeout_service.py:103-107 | the hourly checks keep the invariant |
| Services.ChecksCount | src/app/services/job_timeout_service.py:103-107 | one run of the checks raises the total of all no-show counters by exactly the two counts it returns |
| Services.ExpiringOneSweepsOn | src/app/services/job_timeout_service.py:48-51 | expiring any one expired application leaves the result of sweeping the rest unchanged, so the order does not matter |
| Services.FinishingOneSweepsOn | src/app/services/job_timeout_service.py:87-97 | completing any one stale job leaves the result of sweeping the rest unchanged |
| Services.Session.RecalculateWorkerRating | src/app/services/rating_service.py:15-41 | the UPDATE writes count and mean to the rows of that user and to no other |
| Services.Session.SubmitReview | src/app/crud/crud_reviews.py:132-182 | the review row in the caller's direction and, for a worker, the recalculated snapshot; the assert on the reviewee is proved |
| Services.Session.CheckReviewEligibility | src/app/services/review_eligibility_service.py:30-55 | the three guards in order, through the unordered lookup |
| Services.Session.RemoveFlaggedReview | src/app/services/review_moderation_service.py:76-91 | raises the flag once and recalculates when the review is about a worker |
| Services.Session.MarkWorkerBillingPaid | src/app/services/worker_billing_service.py:23-65 | records the outstanding amount and links it, or fails without a payment |
| Services.Session.AcceptedProfileId | src/app/services/review_eligibility_service.py:19-27 | any accepted application's worker may be the answer of the unordered LIMIT 1 query |
| Invariant.LookupIsAFunction | src/app/services/review_eligibility_service.py:8-27 | with one acceptance per job the LIMIT 1 lookups have exactly one possible answer |
| Invariant.WinnerIsFound | src/app/services/review_eligibility_service.py:8-27 | from ASSIGNED on the lookups find the worker who confirmed, and every other application is REJECTED |
| Invariant.EvolvesTransitive | src/app/services/job_lifecycle_service.py:62-224 | what no step undoes, no sequence of steps undoes |
| Lifecycle.ConfirmKeeps | src/app/services/job_lifecycle_service.py:62-81 | confirming keeps the invariant and moves the job forwards |
| Lifecycle.UpdateApplicationKeeps | src/app/crud/crud_job_applications.py:97-131 | the owner's decision keeps the invariant, in particular at most one acceptance |
| Lifecycle.MarkCompleteKeeps | src/app/services/job_lifecycle_service.py:178-224 | marking complete keeps the invariant, including one billing row per job naming the accepted worker |
| Lifecycle.MarkCompleteNeverBreaks | src/app/services/job_lifecycle_service.py:192-215 | the handshake makes both asserts hold and the unique constraint on the billing row unreachable, so nothing fails after the commit |
| Timeouts.SweepSparesSettledJobs | src/app/services/job_timeout_service.py:38-51 | the assignment sweep, which reads no job status, selects no application of an assigned, running or completed job |
| Timeouts.SweepAssignmentsKeeps | src/app/services/job_timeout_service.py:29-54 | the assignment sweep keeps the invariant |
| Timeouts.SweepCompletionsKeeps | src/app/services/job_timeout_service.py:57-100 | the completion sweep keeps the invariant |
| Timeouts.AssignmentSweepIsComplete | src/app/services/job_timeout_service.py:29-54 | afterwards no unconfirmed acceptance as old as the timeout is left, and nothing else changed |
| Timeouts.AssignmentSweepIsIdempotent | src/app/services/job_timeout_service.py:29-54 | a second sweep at the same time changes nothing and counts nothing |
| Timeouts.CompletionSweepIsComplete | src/app/services/job_timeout_service.py:57-100 | afterwards no running job has a mark as old as the timeout; exactly the running jobs with one such mark changed, by the missing mark at the current time and COMPLETED |
| Timeouts.CompletionSweepIsIdempotent | src/app/services/job_timeout_service.py:57-100 | a second sweep at the same time changes nothing and counts nothing |
| Timeouts.AssignmentSweepCharges | src/app/services/job_timeout_service.py:48-54 | the sweep raises the total of no-show counters by what it returns |
| Timeouts.CompletionSweepCharges | src/app/services/job_timeout_service.py:87-100 | likewise, given every silent party has a profile |
| Timeouts.SilentPartiesAddUp | src/app/services/job_timeout_service.py:87-96 | under the invariant every stale job has exactly one silent party, and that party has a profile |
| Reviewing.SubmitReviewKeeps | src/app/crud/crud_reviews.py:132-182 | a submission keeps the invariant: reviews on completed jobs, between owner and accepted worker, one per reviewer, snapshots right |
| Reviewing.RemoveReviewKeeps | src/app/services/review_moderation_service.py:76-91 | a removal keeps the invariant, in particular every snapshot |
| Reviewing.SubmitReviewNeverBreaks | src/app/crud/crud_reviews.py:157-165 | the assert on the reviewee never fails |
| Reviewing.ReviewableMeansEligible | src/app/services/review_eligibility_service.py:58-87 | a row of the profile-page query is exactly a job that passes the per-job guards with this worker accepted |
| Reviewing.OfferIsExact | src/app/services/review_eligibility_service.py:58-87 | whichever of the newest jobs the query picks: a review is offered iff some job qualifies, and submitting on the offered job succeeds and reviews exactly that worker |
| Services.Session.CheckWorkerReviewEligibility | src/app/services/review_eligibility_service.py:58-87 | the answer is some reviewable job without a newer one, or none when there is no reviewable job |
| Ratings.AverageIsClose | src/app/services/rating_service.py:26-32 | the stored mean lies in 1.00 to 5.00, is the exact mean rounded to hundredths (ties to even), and is NULL iff there is no visible review |
| Ratings.RoundingIsUnique | src/app/services/rating_service.py:32 | rounding determines the stored value |
| Ratings.BreakdownAddsUp | src/app/crud/crud_reviews.py:115-128 | the star breakdown sums to the review count and reproduces the rating total |
| Ratings.CountMeans | src/app/services/rating_service.py:28-31 | the review count is the number of rows of the reviewee that are not flagged |
| Ratings.StarMeans | src/app/crud/crud_reviews.py:115-120 | an entry of the breakdown is the number of unflagged rows of the reviewee with that rating |
| ReviewList.ShownMeans | src/app/crud/crud_reviews.py:71-77 | the list holds exactly the unflagged rows of the reviewee, under their rating or their time |
| ReviewList.RemovedIsGone | src/app/services/review_moderation_service.py:87-91 | a removal takes exactly that review out of every list |
| ReviewList.ShownInOrder | src/app/crud/crud_reviews.py:71-98 | in terms of the rows, during any run: best rated or newest first, and of equals the later row first |
| ReviewList.RatingInEveryRun | src/app/services/rating_service.py:26-41 | in every reachable state the snapshot columns equal count and rounded mean of the unflagged reviews, and agree with the breakdown |
| ReviewList.WalkDuringRun | src/app/crud/crud_reviews.py:63-113 | whatever requests run between the fetches, in both sort orders, the walk is strictly descending, shows no review twice, and a finished one has shown every review visible at its first and last fetch |
| ReviewList.WalkInEveryRun | src/app/crud/crud_reviews.py:63-113 | the same from any reachable state on |
| ReviewList.MetadataMatchesWalk | src/app/crud/crud_reviews.py:109-128 | in every reachable state a walk over an unchanging list makes review_count / limit + 1 fetches, of which exactly total_pages have rows |
| ReviewList.VisibleMatchesCount | src/app/crud/crud_reviews.py:78-98 | the list has as many rows as the snapshot counts |
| Keyset.WalkDescends | src/app/crud/crud_reviews.py:80-98 | over arbitrary snapshots the walk's keys strictly descend |
| Keyset.WalkMissesNothing | src/app/crud/crud_reviews.py:80-113 | a finished walk over arbitrary snapshots has shown every key visible throughout |
| Keyset.WalkShowsVisible | src/app/crud/crud_reviews.py:80-98 | every key shown was visible at the fetch that showed it |
| Keyset.WalkShowsOnce | src/app/crud/crud_reviews.py:80-113 | with stable keys no row is shown twice |
| Keyset.FetchesOfAStableWalk | src/app/crud/crud_reviews.py:109-128 | floor(n / limit) + 1 fetches, ceil(n / limit) of them non-empty |
| Billings.PaymentsAddUp | src/app/services/worker_billing_service.py:39-65 | the payments recorded against a row sum to its amount_paid, which is 0 or amount_owed; PAID iff a payment is linked |
| Billings.HeldExactlyWhenNotRefunded | src/app/services/payments/providers.py:107-120 | the cash still held for a row equals its amount_paid iff its payment has not been refunded |
| Billings.MarkPaidExactlyWhen | src/app/services/worker_billing_service.py:23-65 | marking paid succeeds iff the row is due and owes something, and never twice |
| Billings.MarkPaidKeeps | src/app/services/worker_billing_service.py:23-65 | marking paid keeps the invariant, in particular rows and payments in balance |
| Funnel.StagesInEveryRun | src/app/services/analytics_service.py:154-180 | in every reachable state and for every range completed, accepted, applied and posted are nested sets, so the counts never increase |
| Funnel.StagesMean | src/app/services/analytics_service.py:22-28 | which rows each stage counts for a range |
| Funnel.StrictExactlyWhen | src/app/services/analytics_service.py:154-158 | a stage is strictly smaller exactly when some job of the range stopped before it |
| Funnel.EmptyStagesAreEqual | src/app/services/analytics_service.py:154-158 | without jobs all stages are equal, so none is a strict subset |
| TokenRefresh.RunsTerminate | frontend/src/lib/api/apiClient.ts:72-119 | n requests, any interleaving, logins and logouts at any time: at most 4n(n+1) events of the protocol and at most n refresh calls |
| TokenRefresh.EventsDecrease | frontend/src/lib/api/apiClient.ts:72-119 | every event of the protocol decreases the lexicographic measure (possible leaders, refresh in flight, work) |
| TokenRefresh.RefreshesAreBounded | frontend/src/lib/api/apiClient.ts:78-98 | at most one refresh per request, although queued requests are not marked for retry |
| TokenRefresh.RunKeeps | frontend/src/lib/api/apiClient.ts:42-119 | over every run: no refresh in flight means an empty queue, one leader at most, every promise settled at most once |
| TokenRefresh.NobodyIsStuck | frontend/src/lib/api/apiClient.ts:82-115 | while a promise is open some event of the protocol can happen |
| TokenRefresh.CompleteRunsSettleEveryRequestOnce | frontend/src/lib/api/apiClient.ts:72-119 | a run that cannot continue has settled every request exactly once |
| TokenRefresh.FailureDoes | frontend/src/lib/api/apiClient.ts:74-118 | only a 401 for a request that is no retry and whose url names no authentication path joins the refresh in flight or starts one; every other failure rejects its request once and touches nothing else |
| TokenRefresh.RefreshesAnswer401s | frontend/src/lib/api/apiClient.ts:77-98 | over a run there are at most as many refreshes as 401 replies |
| TokenRefresh.SuccessDoes | frontend/src/lib/api/apiClient.ts:73 | a reply without failure resolves its request once and touches nothing else |
| TokenRefresh.SendDoes | frontend/src/lib/api/apiClient.ts:32-38 | a request goes out with the token in memory, if there is one |
| TokenRefresh.RefreshIsNeverQueued | frontend/src/lib/api/apiClient.ts:59-81 | whatever its reply, the refresh call itself is passed on: never queued, never refreshed for |
| TokenRefresh.FailedRefreshRejectsTheWaiting | frontend/src/lib/api/apiClient.ts:108-114 | a failed refresh rejects exactly the leader and the queued requests and clears the token |
| TokenRefresh.RefreshResendsTheWaiting | frontend/src/lib/api/apiClient.ts:98-107 | a successful one resends exactly those with the new token and settles nobody |
| TokenRefresh.TokenlessRequestCarries | frontend/src/lib/api/apiClient.ts:98-114 | a new request sent while no token is in memory carries the token of the last successful refresh, and none iff no refresh ever succeeded |
| TokenRefresh.FailedRefreshLeavesTheHeader | frontend/src/lib/api/apiClient.ts:104-111 | a concrete run: one refresh succeeds, the next fails, and a third request goes out with the token of the first |
| TokenRefresh.ApiClient.OnFailure | frontend/src/lib/api/apiClient.ts:72-118 | the interceptor performs exactly the failure event |
| TokenRefresh.ApiClient.SetAccessToken | frontend/src/lib/api/apiClient.ts:14-16 | setting or clearing the token touches nothing else and keeps the invariant |
| TokenRefresh.ApiClient.ProcessQueue | frontend/src/lib/api/apiClient.ts:48-57 | the loop resolves or rejects exactly the queued requests and empties the queue |
| TokenRefresh.ApiClient.OnRefreshed | frontend/src/lib/api/apiClient.ts:98-114 | the leader's handler performs exactly the event of a successful refresh, the default header included |
| TokenRefresh.ApiClient.OnRefreshFailed | frontend/src/lib/api/apiClient.ts:108-114 | the leader's handler performs exactly the event of a failed refresh |
| Otp.AcceptedExactlyWhenGenuine | src/app/services/otp.py:114-142 | a verification succeeds iff the code is the last one issued to the phone, unexpired, with fewer than the maximum of guesses since, and not tried before |
| Otp.AcceptedOnce | src/app/services/otp.py:140-142 | an accepted code is refused afterwards |
| Otp.CodesAreACooldownApart | src/app/services/otp.py:82-100 | two codes of a phone are at least a cooldown apart |
| Otp.CoolingExactlyWhen | src/app/services/otp.py:82-85 | a phone is refused for cooling down exactly while a code was issued to it less than the cooldown ago |
| Otp.SendCountMeans | src/app/services/otp.py:87-92 | the cap counts the issued codes of the window and the sends over the cap, not the sends refused during a cooldown |
| Otp.CodesAreCapped | src/app/services/otp.py:87-92 | at most the cap of codes per aligned window and twice the cap in any stretch of that length |
| Otp.OtpService.Verify | src/app/services/otp.py:114-142 | the answer is what the abstract record of the phone says, and the keys go on representing the records of all phones |
| Otp.OtpService.Send | src/app/services/otp.py:70-112 | cooldown, cap and issue as the history of the phone says, with the remaining seconds; keys and records stay tied |
| RateLimit.LiveIsRightExactlyWhen | src/app/core/utils/rate_limit.py:44-53 | for every history of calls: the count found on the key equals the number of calls since the window's start iff every one of them counted on that key and the key set by the first has not expired |
| RateLimit.CallsSinceMeans | src/app/core/utils/rate_limit.py:44-53 | the true number of calls is the number of rows of the history with that caller and path since the start |
| RateLimit.LimitInWindow | src/app/core/utils/rate_limit.py:42-62 | at most limit calls pass in an aligned window whose calls met that condition |
| RateLimit.LimitBounds | src/app/core/utils/rate_limit.py:42-62 | at most (m + 1) * limit calls pass in any m periods whose calls met it |
| RateLimit.SteadyAgrees | src/app/core/utils/rate_limit.py:44-53 | calls meet the condition from the first window on in which the period is steady, whatever it was before |
| RateLimit.RateLimiter.IsRateLimited | src/app/core/utils/rate_limit.py:42-62 | with any limit and period: refuses iff the current window's key holds the limit, which is the number of calls made in the window iff the window is intact; other keys untouched |
| RateLimit.ChangedPeriodLetsThrough | src/app/core/utils/rate_limit.py:44-62 | two concrete calls: a period of 10 at second 5, then of 100 at second 20 with limit 1, which is let through although its window already holds one |
| RateLimit.RateLimiter.Wait | src/app/core/utils/rate_limit.py:51-53 | time passing leaves every key what the history makes it |
| Windows.RollingBound | src/app/core/utils/rate_limit.py:44-59 | the bound behind both: aligned windows of at most limit give a bound for every stretch of m windows |
| Categories.UpdateKeepsForestExactlyWhen | src/app/crud/crud_trade_categories.py:46-83 | an update keeps parents closed, and keeps the forest iff the new parent is not the category or below it |
| Categories.MovingUpClosesACircle | src/app/crud/crud_trade_categories.py:69-83 | two rows, 2 below 1, and 1 moved below 2: a forest before, and afterwards neither is rooted |
| Categories.CreateKeepsForest | src/app/crud/crud_trade_categories.py:21-44 | creating keeps the forest |
| Categories.DeleteKeepsForest | src/app/crud/crud_trade_categories.py:85-116 | deleting a childless category keeps the forest |
| Categories.CategoryStore.Create | src/app/crud/crud_trade_categories.py:21-44 | refusals in order, else one new row; closure, unique names and the forest kept |
| Categories.CategoryStore.Update | src/app/crud/crud_trade_categories.py:46-83 | refusals in order, else exactly the fields given; whether a forest stays one |
| Categories.CategoryStore.Delete | src/app/crud/crud_trade_categories.py:85-116 | refusals in order, else one row less |
| CategoryTree.NestedHoldsTheRootedOnce | src/app/crud/crud_trade_categories.py:147-170 | whatever the row order, the listing holds every category whose chain ends in a root exactly once, and no other |
| CategoryTree.NestedIsCompleteExactlyForForests | src/app/crud/crud_trade_categories.py:147-170 | it holds every category once iff the table is a forest |
| CategoryTree.NestedHangsTogether | src/app/crud/crud_trade_categories.py:160-168 | roots are parentless and nesting is the parent relation |
| CategoryTree.GetNested | src/app/crud/crud_trade_categories.py:147-170 | the nodes linked in place in any row order are laid out as that listing |
| CategoryTree.LinkNodes | src/app/crud/crud_trade_categories.py:159-168 | after the second pass every node lists the nodes of its children, and the roots are collected |

## Left out

- Database isolation inside an endpoint: each request and each sweep is one atomic step with one clock reading. Two requests that interleave between read and commit are not covered.
- Jobs.Register: the password, the name and the normal form of the e-mail address are not part of the user.
- Services.Session.Perform: the columns of users and jobs that no guard and no invariant reads (names, description, place) are not part of the state; see the lines of the single operations.
- Jobs.CreateJob: takes whether the trade category exists as an input, because the job tables do not hold the categories.
- Jobs.UpdateJob: models title, budget and status, and takes whether the trade category exists as an input; description, place and the column widths of the database are not part of the state.
- Billings.RecordPayment: the provider that records anything is the cash one; get_status and the provider that is not implemented yet are not modelled.
- Ratings.Average: takes the exact mean before rounding; the finite precision of the database's avg is not modelled.
- Keyset.Page: takes the cursor as the pair it encodes; its base64 and JSON form, and limit 0, are left out.
- TokenRefresh.Next: a refresh reply without an access token, an empty token, and the merging of request configurations by the HTTP library beyond the Authorization header are left out; a handler runs to completion, as on one JavaScript thread.
- Otp.OtpService.Send: takes the generated code and the gateway's answer as parameters and the hash as injective; phones, paths and windows are structured keys, so formatting and sanitize_path are not modelled.
- RateLimit.RateLimiter.IsRateLimited: a period that is not positive is not modelled.
- RedisStore.Redis: whole seconds on one shared clock; failing commands and commands of concurrent requests between two of ours are left out.
- Categories.CategoryStore.Update: models name, display name and parent; the two translated names, the icon and the length limits are not part of the rows.
- CategoryTree.GetNested: shows the linked layout for the rows reachable from roots; the names copied into the nodes are left out.
- Reports, the approval of a report and the admin log (review_moderation_service): a report adds a row that only the moderation queue reads, an approval deletes such rows; neither changes a flag or a rating.
- Roles of administrators on remove_review and mark_paid, user suspension, hard deletion with its cascades, and seed scripts.
- Notifications, mail, SMS, WebSocket, object storage, PDF export, alerts and CSV: I/O.
- Geographic search, the other list endpoints, breakdown and overview analytics: queries without a protocol.
