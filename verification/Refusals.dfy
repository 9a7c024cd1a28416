/** Every error has its own reasons: a request is refused with one only if a condition that it stands for holds of
    the rows. */
module Refusals {
  import opened Prelude
  import opened Tables
  import opened Invariant
  import opened Jobs
  import opened Lifecycle
  import opened Reviewing
  import opened Billings
  import opened Effects

  /** The reasons that stand behind each error of a refused request; a request that succeeds needs none. */
  datatype Reasons = Reasons(unauthorized: bool, notFound: bool, forbidden: bool, badRequest: bool, invalid: bool,
                             duplicate: bool, integrity: bool)

  const NONE := Reasons(false, false, false, false, false, false, false)

  predicate HasReason(o: Outcome, r: Reasons) {
    o.Fail? ==>
      match o.error
      case Unauthorized => r.unauthorized
      case NotFound => r.notFound
      case Forbidden => r.forbidden
      case BadRequest => r.badRequest
      case InvalidPayload => r.invalid
      case DuplicateValue => r.duplicate
      case IntegrityError => r.integrity
      case AssertionFailure => false
  }

  /** The caller is not a known user, or a known user of the other role. */
  predicate IsUnknown(db: Db, user: nat) { user >= |db.users| }

  predicate HasOtherRole(db: Db, user: nat, role: Role) { user < |db.users| && db.users[user].role != role }

  predicate IsMissing(db: Db, job: nat) { job >= |db.jobs| }

  predicate BelongsToOther(db: Db, user: nat, job: nat) { job < |db.jobs| && db.jobs[job].owner != user }

  predicate HasLeftOpen(db: Db, job: nat) { job < |db.jobs| && db.jobs[job].status != Open }

  /** There is no such application of the job. */
  predicate IsNotOf(db: Db, a: nat, job: nat) { a >= |db.apps| || db.apps[a].job != job }

  // ─── Jobs ───────────────────────────────────────────────────────────────────

  lemma CreateJobRefusals(db: Db, user: nat, d: Draft)
    ensures HasReason(CreateJob(db, user, d),
              NONE.(unauthorized := IsUnknown(db, user),
                    forbidden := HasOtherRole(db, user, Customer),
                    badRequest := |Running(db.jobs, user)| >= 10,
                    notFound := !d.categoryKnown,
                    invalid := !(1 <= |d.title| <= 255)
                               || (d.budgetMin.Some? && d.budgetMin.value < 0)
                               || (d.budgetMax.Some? && d.budgetMax.value < 0)
                               || (d.budgetMin.Some? && d.budgetMax.Some? && d.budgetMin.value > d.budgetMax.value)))
  {
    ActiveMeansRunning(db.jobs, user);
  }

  lemma UpdateJobRefusals(db: Db, user: nat, job: nat, p: JobPatch)
    ensures HasReason(UpdateJob(db, user, job, p),
              NONE.(unauthorized := IsUnknown(db, user),
                    forbidden := HasOtherRole(db, user, Customer) || BelongsToOther(db, user, job),
                    badRequest := HasLeftOpen(db, job),
                    notFound := IsMissing(db, job) || db.jobs[job].deleted || !p.categoryKnown,
                    invalid := (p.title.To? && !(1 <= |p.title.value| <= 255))
                               || (p.budgetMin.To? && p.budgetMin.value < 0)
                               || (p.budgetMax.To? && p.budgetMax.value < 0)
                               || (p.budgetMin.To? && p.budgetMax.To? && p.budgetMin.value > p.budgetMax.value),
                    integrity := p.title.Null? || p.status.Null?
                                 || (job < |db.jobs| && MisfitsBudget(db.jobs[job], p))))
  {
    if job < |db.jobs| {
      var row := db.jobs[job];
      assert IsColumn(Patched(p.budgetMin, row.budgetMin), row.budgetMin, p.budgetMin);
      assert IsColumn(Patched(p.budgetMax, row.budgetMax), row.budgetMax, p.budgetMax);
    }
  }

  /** The budget would end up with its lower end above its upper one. */
  ghost predicate MisfitsBudget(row: Job, p: JobPatch) {
    exists low: Option<int>, high: Option<int> ::
      && IsColumn(low, row.budgetMin, p.budgetMin) && IsColumn(high, row.budgetMax, p.budgetMax)
      && low.Some? && high.Some? && low.value > high.value
  }

  lemma DeleteJobRefusals(db: Db, user: nat, job: nat)
    ensures HasReason(DeleteJob(db, user, job),
              NONE.(unauthorized := IsUnknown(db, user),
                    forbidden := HasOtherRole(db, user, Customer) || BelongsToOther(db, user, job),
                    notFound := IsMissing(db, job) || db.jobs[job].deleted))
  {
  }

  // ─── Applications ───────────────────────────────────────────────────────────

  ghost function ApplyReasons(db: Db, user: nat, job: nat): Reasons {
    NONE.(unauthorized := IsUnknown(db, user),
          forbidden := HasOtherRole(db, user, Worker),
          notFound := IsMissing(db, job),
          badRequest := HasLeftOpen(db, job)
                        || exists a: nat :: a < |db.apps| && db.apps[a].job == job && Sent(db, user, a))
  }

  lemma ApplyRefusals(db: Db, user: nat, job: nat)
    requires Keys(db) && Unique(db)
    ensures HasReason(Apply(db, user, job), ApplyReasons(db, user, job))
  {
    ApplicantRefusals(db, user, job);
  }

  lemma ApplicantRefusals(db: Db, user: nat, job: nat)
    requires user < |db.users| && db.users[user].role == Worker ==> FindWorker(db.workers, user).Some?
    ensures HasReason(Apply(db, user, job), ApplyReasons(db, user, job))
  {
    var profile := FindWorker(db.workers, user);
    if profile.Some? {
      var mine := First(|db.apps|, AppliedBy(db.apps, job, profile.value));
      if mine.Some? { assert db.apps[mine.value].job == job && Sent(db, user, mine.value); }
    }
  }

  lemma DecisionRefusals(db: Db, user: nat, job: nat, a: nat, status: ApplicationStatus, reason: Option<DeclineReason>)
    ensures HasReason(UpdateApplication(db, user, job, a, status, reason),
              NONE.(unauthorized := IsUnknown(db, user),
                    forbidden := HasOtherRole(db, user, Customer) || BelongsToOther(db, user, job),
                    notFound := IsMissing(db, job) || IsNotOf(db, a, job),
                    badRequest := HasLeftOpen(db, job)
                                  || exists b: nat :: b < |db.apps| && db.apps[b].job == job
                                      && db.apps[b].status == Accepted && b != a,
                    invalid := (status == Rejected) != (reason != None)))
  {
    var first := AcceptedApp(db.apps, job);
    if first.Some? { assert db.apps[first.value].job == job && db.apps[first.value].status == Accepted; }
  }

  lemma ConfirmRefusals(db: Db, user: nat, job: nat, a: nat)
    ensures HasReason(Confirm(db, user, job, a),
              NONE.(unauthorized := IsUnknown(db, user),
                    forbidden := !Sent(db, user, a),
                    notFound := IsMissing(db, job) || IsNotOf(db, a, job),
                    badRequest := HasLeftOpen(db, job) || (a < |db.apps| && db.apps[a].status != Accepted)))
  {
  }

  lemma WithdrawRefusals(db: Db, user: nat, job: nat, a: nat, reason: DeclineReason)
    ensures HasReason(Withdraw(db, user, job, a, reason),
              NONE.(unauthorized := IsUnknown(db, user),
                    forbidden := !Sent(db, user, a),
                    notFound := IsMissing(db, job) || IsNotOf(db, a, job),
                    badRequest := HasLeftOpen(db, job) || (a < |db.apps| && db.apps[a].status == Rejected)))
  {
  }

  // ─── The work and the reviews ───────────────────────────────────────────────

  lemma StartRefusals(db: Db, user: nat, job: nat)
    requires Keys(db) && HasSoleAcceptances(db.apps)
    ensures HasReason(Start(db, user, job),
              NONE.(unauthorized := IsUnknown(db, user),
                    forbidden := !WorksOn(db, user, job),
                    notFound := IsMissing(db, job),
                    badRequest := job < |db.jobs| && db.jobs[job].status != Assigned))
  {
    LookupFindsWorker(db, user, job);
  }

  lemma MarkCompleteRefusals(cfg: Settings, db: Db, user: nat, job: nat)
    requires Keys(db) && Handshake(db.jobs, db.apps) && BillingRows(db)
    ensures HasReason(MarkComplete(cfg, db, user, job),
              NONE.(unauthorized := IsUnknown(db, user),
                    forbidden := BelongsToOther(db, user, job) && !WorksOn(db, user, job),
                    notFound := IsMissing(db, job),
                    badRequest :=
                      job < |db.jobs| &&
                      (db.jobs[job].status != InProgress
                       || (if db.jobs[job].owner == user then db.jobs[job].customerDoneAt
                           else db.jobs[job].workerDoneAt) != None)))
  {
    LookupFindsWorker(db, user, job);
    MarkCompleteNeverBreaks(cfg, db, user, job);
  }

  lemma SubmitReviewRefusals(db: Db, user: nat, job: nat, rating: int)
    requires Keys(db) && Handshake(db.jobs, db.apps)
    ensures HasReason(SubmitReview(db, user, job, rating),
              NONE.(unauthorized := IsUnknown(db, user),
                    forbidden := BelongsToOther(db, user, job) && !WorksOn(db, user, job),
                    notFound := IsMissing(db, job),
                    badRequest :=
                      || (job < |db.jobs| && db.jobs[job].status != Completed)
                      || exists i: nat :: i < |db.reviews| && db.reviews[i].job == job
                          && db.reviews[i].reviewer == user,
                    invalid := rating < 1 || rating > 5))
  {
    LookupFindsWorker(db, user, job);
    SubmitReviewNeverBreaks(db, user, job, rating);
    var mine := First(|db.reviews|, ReviewedBy(db.reviews, job, user));
    if mine.Some? { assert db.reviews[mine.value].job == job && db.reviews[mine.value].reviewer == user; }
  }

  lemma RemoveReviewRefusals(db: Db, review: nat)
    ensures HasReason(RemoveReview(db, review),
              NONE.(notFound := review >= |db.reviews|,
                    badRequest := review < |db.reviews| && db.reviews[review].flagged))
  {
  }

  // ─── Commission ─────────────────────────────────────────────────────────────

  lemma MarkPaidRefusals(db: Db, b: nat, admin: nat)
    requires Keys(db) && BillingRows(db)
    ensures HasReason(MarkPaid(db, b, admin),
              NONE.(notFound := b >= |db.billings|,
                    badRequest := b < |db.billings|
                        && (db.billings[b].status == Paid || db.billings[b].owed <= db.billings[b].paid)))
  {
  }

  lemma RefundRefusals(db: Db, p: nat)
    ensures HasReason(Refund(db, p),
              NONE.(notFound := p >= |db.payments|,
                    badRequest := p < |db.payments| && db.payments[p].means != Cash))
  {
  }
}
