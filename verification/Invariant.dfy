/** What holds between the tables in every reachable state, and what no step undoes.
    No function of the repository checks these facts; the services rely on them. */
module Invariant {
  import opened Prelude
  import opened Tables
  import opened Ratings

  const MAX_ACTIVE_JOBS := 10

  /** Foreign keys point at rows, profiles belong to users of the matching role, customers own jobs. */
  ghost predicate Keys(db: Db) {
    && (forall c: nat | c < |db.customers| ::
       db.customers[c].user < |db.users| && db.users[db.customers[c].user].role.Customer?)
    && (forall w: nat | w < |db.workers| ::
       db.workers[w].user < |db.users| && db.users[db.workers[w].user].role.Worker?)
    && (forall j: nat | j < |db.jobs| :: db.jobs[j].owner < |db.users| && db.users[db.jobs[j].owner].role.Customer?)
    && (forall a: nat | a < |db.apps| :: db.apps[a].job < |db.jobs| && db.apps[a].worker < |db.workers|)
  }

  /** Exactly one profile per user, and one application per job and worker. */
  ghost predicate Unique(db: Db) {
    && (forall c: nat, d: nat | c < d < |db.customers| :: db.customers[c].user != db.customers[d].user)
    && (forall v: nat, w: nat | v < w < |db.workers| :: db.workers[v].user != db.workers[w].user)
    && (forall u: nat | u < |db.users| && db.users[u].role.Customer? :: FindCustomer(db.customers, u).Some?)
    && (forall u: nat | u < |db.users| && db.users[u].role.Worker? :: FindWorker(db.workers, u).Some?)
    && (forall a: nat, b: nat | a < b < |db.apps| ::
       db.apps[a].job != db.apps[b].job || db.apps[a].worker != db.apps[b].worker)
  }

  /** Application a is the confirmed one of the job. */
  predicate IsWinner(apps: seq<Application>, job: nat, a: nat) {
    a < |apps| && apps[a].job == job && apps[a].status.Accepted? && apps[a].confirmedAt.Some?
  }

  /** A job has at most one ACCEPTED application; from ASSIGNED to COMPLETED it has exactly one,
      confirmed by its worker, and the others are REJECTED; before that nothing is confirmed. */
  ghost predicate Handshake(jobs: seq<Job>, apps: seq<Application>) {
    && (forall a: nat | a < |apps| :: apps[a].job < |jobs|)
    && (forall a: nat | a < |apps| && apps[a].status.Accepted? :: apps[a].acceptedAt.Some?)
    && (forall a: nat | a < |apps| && apps[a].confirmedAt.Some? ::
          apps[a].status.Accepted? && IsSettled(jobs[apps[a].job].status))
    && (forall a: nat, b: nat | a < |apps| && b < |apps| && apps[a].job == apps[b].job ::
          apps[a].status.Accepted? && apps[b].status.Accepted? ==> a == b)
    && (forall j: nat | j < |jobs| && IsSettled(jobs[j].status) :: exists a: nat :: IsWinner(apps, j, a))
    && (forall a: nat | a < |apps| && IsSettled(jobs[apps[a].job].status) :: !apps[a].status.Pending?)
  }

  /** COMPLETED exactly when both completion marks are set, and no mark before IN_PROGRESS. */
  predicate MarksMatch(job: Job) {
    && (job.status.Completed? <==> job.customerDoneAt.Some? && job.workerDoneAt.Some?)
    && (job.customerDoneAt.Some? || job.workerDoneAt.Some? ==> job.status.InProgress? || job.status.Completed?)
  }

  ghost predicate Marks(jobs: seq<Job>) {
    forall j: nat | j < |jobs| :: MarksMatch(jobs[j])
  }

  /** r was written by one participant of the job about the other. */
  predicate BetweenParticipants(r: Review, owner: nat, worker: nat) {
    if r.role.Customer?
    then r.reviewer == owner && r.reviewee == worker
    else r.reviewer == worker && r.reviewee == owner
  }

  /** Reviews sit on completed jobs, between the owner and the accepted worker. */
  ghost predicate ReviewRows(db: Db)
    requires Keys(db)
  {
    && (forall i: nat | i < |db.reviews| ::
       db.reviews[i].job < |db.jobs| && db.jobs[db.reviews[i].job].status.Completed?)
    && (forall i: nat, a: nat | i < |db.reviews| && a < |db.apps| && db.apps[a].job == db.reviews[i].job
       && db.apps[a].status.Accepted? ::
          BetweenParticipants(db.reviews[i], db.jobs[db.apps[a].job].owner, db.workers[db.apps[a].worker].user))
  }

  /** Ratings are 1 to 5 and a participant reviews a job at most once. */
  ghost predicate ReviewPairs(reviews: seq<Review>) {
    && RatingsInRange(reviews)
    && (forall i: nat, k: nat | i < k < |reviews| ::
       reviews[i].job != reviews[k].job || reviews[i].reviewer != reviews[k].reviewer)
  }

  /** Every worker's snapshot columns agree with the rows they summarise. */
  ghost predicate RatingsAgree(workers: seq<WorkerProfile>, reviews: seq<Review>) {
    forall w: nat | w < |workers| ::
      && workers[w].reviewCount == ReviewCount(reviews, workers[w].user)
      && workers[w].averageRating == Average(reviews, workers[w].user)
  }

  /** PAID exactly when a payment of the whole amount is linked, and then everything is paid. */
  predicate Balanced(db: Db, b: nat)
    requires b < |db.billings|
  {
    var row := db.billings[b];
    match row.status
    case Due => row.paid == 0 && row.payment.None?
    case Paid =>
      && row.paid == row.owed > 0
      && row.payment.Some? && row.payment.value < |db.payments|
      && db.payments[row.payment.value].billing == Some(b)
      && db.payments[row.payment.value].amount == row.owed
      && row.worker < |db.workers|
      && db.payments[row.payment.value].payer == db.workers[row.worker].user
  }

  /** Billing rows sit on completed jobs and name the accepted worker. */
  ghost predicate BillingRows(db: Db)
    requires Keys(db)
  {
    && (forall b: nat | b < |db.billings| ::
       db.billings[b].worker < |db.workers| && db.billings[b].job < |db.jobs|
       && db.jobs[db.billings[b].job].status.Completed?)
    && (forall b: nat, a: nat | b < |db.billings| && a < |db.apps| && db.apps[a].job == db.billings[b].job
       && db.apps[a].status.Accepted? ::
          db.billings[b].worker == db.apps[a].worker)
  }

  /** One row per job; rows and payments balance, and a payment belongs to the row that links it. */
  ghost predicate BillingBalance(db: Db) {
    && (forall b: nat, c: nat | b < c < |db.billings| :: db.billings[b].job != db.billings[c].job)
    && (forall b: nat | b < |db.billings| :: Balanced(db, b))
    && (forall p: nat | p < |db.payments| && db.payments[p].billing.Some? ::
          db.payments[p].billing.value < |db.billings| && db.billings[db.payments[p].billing.value].payment == Some(p))
  }

  ghost predicate ActiveLimit(jobs: seq<Job>) {
    forall u: nat :: ActiveCount(jobs, u) <= MAX_ACTIVE_JOBS
  }

  ghost predicate Inv(db: Db) {
    && Keys(db)
    && Unique(db)
    && Handshake(db.jobs, db.apps)
    && Marks(db.jobs)
    && ReviewRows(db)
    && ReviewPairs(db.reviews)
    && RatingsAgree(db.workers, db.reviews)
    && BillingRows(db)
    && BillingBalance(db)
    && ActiveLimit(db.jobs)
  }

  // ─── What no step undoes ────────────────────────────────────────────────────

  function Rank(s: JobStatus): nat {
    match s
    case Open => 0
    case Assigned => 1
    case InProgress => 2
    case Completed => 3
    case Cancelled => 4
  }

  /** A job moves forwards only, and a cancelled one never moves again. */
  predicate CanFollow(s: JobStatus, t: JobStatus) {
    s == t || (Rank(s) < Rank(t) <= 3) || (s.Open? && t.Cancelled?)
  }

  predicate JobEvolves(j: Job, k: Job) {
    && k.owner == j.owner && k.createdAt == j.createdAt
    && CanFollow(j.status, k.status)
    && (j.deleted ==> k.deleted)
    && (j.customerDoneAt.Some? ==> k.customerDoneAt == j.customerDoneAt)
    && (j.workerDoneAt.Some? ==> k.workerDoneAt == j.workerDoneAt)
  }

  ghost predicate JobsEvolve(s: seq<Job>, t: seq<Job>) {
    |s| <= |t| && forall j: nat | j < |s| :: JobEvolves(s[j], t[j])
  }

  /** Applications keep their job and worker, and those of a settled job do not change at all. */
  ghost predicate AppsEvolve(jobs: seq<Job>, s: seq<Application>, t: seq<Application>) {
    && |s| <= |t|
    && (forall a: nat | a < |s| :: t[a].job == s[a].job && t[a].worker == s[a].worker)
    && (forall a: nat | a < |s| && s[a].job < |jobs| && IsSettled(jobs[s[a].job].status) :: t[a] == s[a])
  }

  /** Nobody applies to a settled job. */
  ghost predicate NewcomersWait(jobs: seq<Job>, s: seq<Application>, t: seq<Application>) {
    forall a: nat | |s| <= a < |t| :: t[a].job < |jobs| ==> !IsSettled(jobs[t[a].job].status)
  }

  /** Reviews are immutable but for the flag, which is only ever raised. */
  ghost predicate ReviewsEvolve(s: seq<Review>, t: seq<Review>) {
    |s| <= |t| && forall i: nat | i < |s| :: t[i] == s[i] || t[i] == s[i].(flagged := true)
  }

  ghost predicate ProfilesEvolve(db: Db, db': Db) {
    && |db.users| <= |db'.users| && |db.workers| <= |db'.workers| && |db.customers| <= |db'.customers|
    && (forall u: nat | u < |db.users| :: db'.users[u] == db.users[u])
    && (forall w: nat | w < |db.workers| :: db'.workers[w].user == db.workers[w].user)
    && (forall c: nat | c < |db.customers| :: db'.customers[c].user == db.customers[c].user)
  }

  ghost predicate LedgerEvolves(db: Db, db': Db) {
    && |db.billings| <= |db'.billings| && |db.payments| <= |db'.payments|
    && (forall b: nat | b < |db.billings| ::
          && db'.billings[b].job == db.billings[b].job && db'.billings[b].worker == db.billings[b].worker
          && db'.billings[b].owed == db.billings[b].owed && db'.billings[b].dueAt == db.billings[b].dueAt
          && (db.billings[b].status.Paid? ==> db'.billings[b] == db.billings[b]))
    && (forall p: nat | p < |db.payments| ::
          db'.payments[p] == db.payments[p] || db'.payments[p] == db.payments[p].(status := Refunded))
  }

  ghost predicate Evolves(db: Db, db': Db) {
    && JobsEvolve(db.jobs, db'.jobs)
    && AppsEvolve(db.jobs, db.apps, db'.apps)
    && NewcomersWait(db.jobs, db.apps, db'.apps)
    && ReviewsEvolve(db.reviews, db'.reviews)
    && ProfilesEvolve(db, db')
    && LedgerEvolves(db, db')
    && db.now <= db'.now
  }

  lemma EvolvesTransitive(a: Db, b: Db, c: Db)
    requires Keys(a) && Evolves(a, b) && Evolves(b, c)
    ensures Evolves(a, c)
  {
  }

  // ─── Shared steps of the preservation proofs ────────────────────────────────

  /** A step that leaves reviews alone keeps what is known of them: they belong to completed jobs. */
  lemma CarryReviews(db: Db, db': Db)
    requires Keys(db) && Keys(db') && ReviewRows(db) && Evolves(db, db') && db'.reviews == db.reviews
    ensures ReviewRows(db')
  {
  }

  lemma CarryBilling(db: Db, db': Db)
    requires Keys(db) && Keys(db') && BillingRows(db) && Evolves(db, db') && db'.billings == db.billings
    ensures BillingRows(db')
  {
  }

  lemma CarryBalance(db: Db, db': Db)
    requires BillingBalance(db) && ProfilesEvolve(db, db')
    requires db'.billings == db.billings && db'.payments == db.payments
    ensures BillingBalance(db')
  {
    forall b: nat | b < |db.billings| ensures Balanced(db', b) {
      assert Balanced(db, b);
    }
  }

  /** A step that leaves reviews, billing rows and payments alone keeps what is known of them. */
  lemma Carry(db: Db, db': Db)
    requires Keys(db) && Keys(db') && Evolves(db, db')
    requires ReviewRows(db) && BillingRows(db) && BillingBalance(db)
    requires db'.reviews == db.reviews && db'.billings == db.billings && db'.payments == db.payments
    ensures ReviewRows(db') && BillingRows(db') && BillingBalance(db')
  {
    CarryReviews(db, db');
    CarryBilling(db, db');
    CarryBalance(db, db');
  }

  lemma JobUpdateEvolves(db: Db, job: nat, row: Job)
    requires job < |db.jobs| && JobEvolves(db.jobs[job], row)
    ensures Evolves(db, db.(jobs := db.jobs[job := row]))
  {
  }

  lemma AppUpdateEvolves(db: Db, app: nat, row: Application)
    requires Keys(db) && app < |db.apps| && !IsSettled(db.jobs[db.apps[app].job].status)
    requires row.job == db.apps[app].job && row.worker == db.apps[app].worker
    ensures Evolves(db, db.(apps := db.apps[app := row]))
  {
  }

  /** Replacing one job by one that is no more active. */
  lemma ActiveAfterUpdate(jobs: seq<Job>, j: nat, job: Job)
    requires j < |jobs| && ActiveLimit(jobs)
    requires job.owner == jobs[j].owner && (IsActive(job) ==> IsActive(jobs[j]))
    ensures ActiveLimit(jobs[j := job])
  {
    var jobs' := jobs[j := job];
    forall u: nat ensures ActiveCount(jobs', u) <= MAX_ACTIVE_JOBS {
      SumAtMost(|jobs|, ActiveJob(jobs', u), ActiveJob(jobs, u));
      assert ActiveCount(jobs, u) <= MAX_ACTIVE_JOBS;
    }
  }

  /** Keys and Unique only look at the profiles' users, at owners, and at the keys of applications. */
  lemma KeysAfterUpdate(db: Db, db': Db)
    requires Keys(db) && Unique(db) && db'.users == db.users
    requires |db'.customers| == |db.customers| && |db'.workers| == |db.workers|
    requires |db'.jobs| == |db.jobs| && |db'.apps| == |db.apps|
    requires Evolves(db, db')
    ensures Keys(db') && Unique(db')
  {
    forall j: nat | j < |db.jobs| ensures db'.jobs[j].owner == db.jobs[j].owner {
      assert JobEvolves(db.jobs[j], db'.jobs[j]);
    }
    forall u: nat | u < |db.users| && db.users[u].role.Customer? ensures FindCustomer(db'.customers, u).Some? {
      assert HasCustomerUser(db'.customers, u)(FindCustomer(db.customers, u).value);
    }
    forall u: nat | u < |db.users| && db.users[u].role.Worker? ensures FindWorker(db'.workers, u).Some? {
      assert HasWorkerUser(db'.workers, u)(FindWorker(db.workers, u).value);
    }
  }

  /** The part of the handshake that is about applications alone: at most one acceptance per job. */
  ghost predicate HasSoleAcceptances(apps: seq<Application>) {
    forall a: nat, b: nat | a < |apps| && b < |apps| && apps[a].job == apps[b].job ::
      apps[a].status.Accepted? && apps[b].status.Accepted? ==> a == b
  }

  /** Then the LIMIT 1 lookups of the accepted worker have one possible answer. */
  lemma LookupIsAFunction(apps: seq<Application>, job: nat, r: Option<nat>)
    requires HasSoleAcceptances(apps) && MayAnswer(apps, job, r)
    ensures r == AcceptedWorker(apps, job)
  {
  }

  /** From ASSIGNED on, the lookups find the worker who confirmed. */
  lemma WinnerIsFound(db: Db, job: nat) returns (a: nat)
    requires Keys(db) && Handshake(db.jobs, db.apps) && job < |db.jobs| && IsSettled(db.jobs[job].status)
    ensures IsWinner(db.apps, job, a) && AcceptedApp(db.apps, job) == Some(a)
    ensures AcceptedWorker(db.apps, job) == Some(db.apps[a].worker)
    ensures AcceptedUser(db, job) == Some(db.workers[db.apps[a].worker].user)
    ensures forall b: nat | b < |db.apps| && db.apps[b].job == job && b != a :: db.apps[b].status.Rejected?
  {
    a :| IsWinner(db.apps, job, a);
    assert IsAccepted(db.apps, job)(a);
  }
}
