/** The services as they run: endpoint functions and sweeps that change the tables row by row.
    Each is proved against the step of the state machine it implements. */
module Services {
  import opened Prelude
  import opened Tables
  import opened Ratings
  import opened Invariant
  import opened Timeouts
  import opened Reviewing
  import opened Marketplace
  import Jobs
  import Lifecycle
  import Billings

  /** The request met its specification: it succeeded with that state, or failed with that error. */
  predicate Did(o: Outcome, before: Db, error: Option<Error>, after: Db) {
    after == After(before, o) && error == if o.Ok? then None else Some(o.error)
  }

  // ─── Queries ────────────────────────────────────────────────────────────────

  /** rows are the indices below n that satisfy p, each once, in any order. */
  ghost predicate IsSelection(n: nat, p: nat -> bool, rows: seq<nat>) {
    && (forall i: nat :: i in rows <==> i < n && p(i))
    && (forall i: nat, j: nat | i < j < |rows| :: rows[i] != rows[j])
  }

  /** A SELECT without ORDER BY. */
  method Select(n: nat, p: nat -> bool) returns (rows: seq<nat>)
    ensures IsSelection(n, p, rows)
  {
    rows := [];
    var k := 0;
    while k < n
      invariant k <= n && IsSelection(k, p, rows)
    {
      if p(k) { rows := rows + [k]; }
      k := k + 1;
    }
  }

  /** Once the first selected row no longer satisfies the condition, the others are the selection. */
  lemma SelectionShrinks(n: nat, p: nat -> bool, q: nat -> bool, rows: seq<nat>)
    requires rows != [] && IsSelection(n, p, rows)
    requires forall i: nat | i < n :: q(i) <==> p(i) && i != rows[0]
    ensures IsSelection(n, q, rows[1..])
  {
    assert rows == [rows[0]] + rows[1..];
    forall i: nat ensures i in rows[1..] <==> i < n && q(i) {
      assert i in rows <==> i < n && p(i);
    }
  }

  lemma NoCharge(workers: seq<WorkerProfile>, customers: seq<CustomerProfile>, charge: nat -> int)
    requires forall i: nat :: charge(i) == 0
    ensures ChargeWorkers(workers, charge) == workers && ChargeCustomers(customers, charge) == customers
  {
  }

  // ─── One row at a time ──────────────────────────────────────────────────────

  function Losing(apps: seq<Application>, job: nat, winner: nat): nat -> bool {
    (a: nat) => a < |apps| && Lifecycle.LosesTo(apps, job, winner, a)
  }

  function Expired(apps: seq<Application>, cutoff: int): nat -> bool {
    (a: nat) => a < |apps| && IsExpired(apps[a], cutoff)
  }

  function Stale(jobs: seq<Job>, cutoff: int): nat -> bool {
    (j: nat) => j < |jobs| && IsStale(jobs[j], cutoff)
  }

  function Charged(workers: seq<WorkerProfile>, w: nat): seq<WorkerProfile> {
    if w < |workers| then workers[w := workers[w].(noShows := workers[w].noShows + 1)] else workers
  }

  function ChargedCustomer(customers: seq<CustomerProfile>, c: nat): seq<CustomerProfile> {
    if c < |customers| then customers[c := customers[c].(noShows := customers[c].noShows + 1)] else customers
  }

  function ExpiringOne(db: Db, a: nat): Db
    requires a < |db.apps|
  {
    db.(apps := db.apps[a := Expire(db.apps[a])], workers := Charged(db.workers, db.apps[a].worker))
  }

  /** Expiring one application leaves the result of sweeping the rest unchanged, whichever comes first. */
  lemma ExpiringOneSweepsOn(cfg: Settings, db: Db, a: nat)
    requires a < |db.apps| && IsExpired(db.apps[a], db.now - cfg.timeout)
    ensures SweepAssignments(cfg, ExpiringOne(db, a)) == SweepAssignments(cfg, db)
    ensures ExpiredCount(ExpiringOne(db, a).apps, db.now - cfg.timeout)
            == ExpiredCount(db.apps, db.now - cfg.timeout) - 1
  {
    var cutoff, db' := db.now - cfg.timeout, ExpiringOne(db, a);
    SumChange(|db.apps|, ExpiredOne(db.apps, cutoff), ExpiredOne(db'.apps, cutoff), a);
    forall w: nat
      ensures AssignmentCharge(db'.apps, cutoff, w) == AssignmentCharge(db.apps, cutoff, w) - if db.apps[a].worker == w
              then 1 else 0
    {
      SumChange(|db.apps|, ExpiredOf(db.apps, cutoff, w), ExpiredOf(db'.apps, cutoff, w), a);
    }
    assert ExpireAll(db'.apps, cutoff) == ExpireAll(db.apps, cutoff);
    assert ChargeWorkers(db'.workers, AssignmentCharges(db'.apps, cutoff))
        == ChargeWorkers(db.workers, AssignmentCharges(db.apps, cutoff));
  }

  /** A sweep that selects nothing changes nothing. */
  lemma NothingToExpire(cfg: Settings, db: Db)
    requires forall a: nat | a < |db.apps| :: !IsExpired(db.apps[a], db.now - cfg.timeout)
    ensures SweepAssignments(cfg, db) == db && ExpiredCount(db.apps, db.now - cfg.timeout) == 0
  {
    var cutoff := db.now - cfg.timeout;
    SumConstant(|db.apps|, ExpiredOne(db.apps, cutoff), 0);
    assert ExpireAll(db.apps, cutoff) == db.apps;
    forall w: nat ensures AssignmentCharge(db.apps, cutoff, w) == 0 {
      SumConstant(|db.apps|, ExpiredOf(db.apps, cutoff, w), 0);
    }
    NoCharge(db.workers, db.customers, AssignmentCharges(db.apps, cutoff));
  }

  function FinishingOne(db: Db, j: nat, cutoff: int): Db
    requires j < |db.jobs|
  {
    var c, w := SilentCustomer(db, cutoff, j), SilentWorker(db, cutoff, j);
    db.(jobs := db.jobs[j := Finish(db.jobs[j], db.now)],
        customers := if c.Some? then ChargedCustomer(db.customers, c.value) else db.customers,
        workers := if w.Some? then Charged(db.workers, w.value) else db.workers)
  }

  /** The silent party of another job is the same after one job is finished. */
  lemma OthersStaySilent(db: Db, j: nat, cutoff: int, k: nat)
    requires j < |db.jobs|
    ensures var db' := FinishingOne(db, j, cutoff);
            && SilentCustomer(db', cutoff, k) == (if k == j then None else SilentCustomer(db, cutoff, k))
            && SilentWorker(db', cutoff, k) == (if k == j then None else SilentWorker(db, cutoff, k))
  {
    var db' := FinishingOne(db, j, cutoff);
    forall u: nat ensures FindCustomer(db'.customers, u) == FindCustomer(db.customers, u)
        && FindWorker(db'.workers, u) == FindWorker(db.workers, u) {
      SameFirst(|db.customers|, HasCustomerUser(db'.customers, u), HasCustomerUser(db.customers, u));
      SameFirst(|db.workers|, HasWorkerUser(db'.workers, u), HasWorkerUser(db.workers, u));
    }
  }

  lemma FinishingOneCharges(db: Db, j: nat, cutoff: int, i: nat)
    requires j < |db.jobs|
    ensures var db' := FinishingOne(db, j, cutoff);
            && CustomerCharge(db', cutoff, i)
               == CustomerCharge(db, cutoff, i) - (if SilentCustomer(db, cutoff, j) == Some(i) then 1 else 0)
            && WorkerCharge(db', cutoff, i)
               == WorkerCharge(db, cutoff, i) - (if SilentWorker(db, cutoff, j) == Some(i) then 1 else 0)
  {
    var db' := FinishingOne(db, j, cutoff);
    forall k: nat
      ensures SilentCustomer(db', cutoff, k) == (if k == j then None else SilentCustomer(db, cutoff, k))
      ensures SilentWorker(db', cutoff, k) == (if k == j then None else SilentWorker(db, cutoff, k))
    {
      OthersStaySilent(db, j, cutoff, k);
    }
    SumChange(|db.jobs|, ChargesCustomer(db, cutoff, i), ChargesCustomer(db', cutoff, i), j);
    SumChange(|db.jobs|, ChargesWorker(db, cutoff, i), ChargesWorker(db', cutoff, i), j);
  }

  lemma FinishingOneProfiles(db: Db, j: nat, cutoff: int)
    requires j < |db.jobs|
    ensures var db' := FinishingOne(db, j, cutoff);
            && ChargeCustomers(db'.customers, CustomerCharges(db', cutoff))
               == ChargeCustomers(db.customers, CustomerCharges(db, cutoff))
            && ChargeWorkers(db'.workers, WorkerCharges(db', cutoff))
               == ChargeWorkers(db.workers, WorkerCharges(db, cutoff))
  {
    forall i: nat
      ensures var db' := FinishingOne(db, j, cutoff);
              && CustomerCharge(db', cutoff, i)
                 == CustomerCharge(db, cutoff, i) - (if SilentCustomer(db, cutoff, j) == Some(i) then 1 else 0)
              && WorkerCharge(db', cutoff, i)
                 == WorkerCharge(db, cutoff, i) - (if SilentWorker(db, cutoff, j) == Some(i) then 1 else 0)
    {
      FinishingOneCharges(db, j, cutoff, i);
    }
  }

  lemma FinishingOneJobs(jobs: seq<Job>, j: nat, cutoff: int, now: int)
    requires j < |jobs| && IsStale(jobs[j], cutoff)
    ensures var jobs' := jobs[j := Finish(jobs[j], now)];
            && FinishAll(jobs', cutoff, now) == FinishAll(jobs, cutoff, now)
            && StaleCount(jobs', cutoff) == StaleCount(jobs, cutoff) - 1
  {
    SumChange(|jobs|, StaleOne(jobs, cutoff), StaleOne(jobs[j := Finish(jobs[j], now)], cutoff), j);
  }

  /** Finishing one job leaves the result of sweeping the rest unchanged. */
  lemma FinishingOneSweepsOn(cfg: Settings, db: Db, j: nat)
    requires j < |db.jobs| && IsStale(db.jobs[j], db.now - cfg.timeout)
    ensures var db' := FinishingOne(db, j, db.now - cfg.timeout);
            && SweepCompletions(cfg, db') == SweepCompletions(cfg, db)
            && StaleCount(db'.jobs, db.now - cfg.timeout) == StaleCount(db.jobs, db.now - cfg.timeout) - 1
  {
    FinishingOneJobs(db.jobs, j, db.now - cfg.timeout, db.now);
    FinishingOneProfiles(db, j, db.now - cfg.timeout);
  }

  lemma NothingToFinish(cfg: Settings, db: Db)
    requires forall j: nat | j < |db.jobs| :: !IsStale(db.jobs[j], db.now - cfg.timeout)
    ensures SweepCompletions(cfg, db) == db && StaleCount(db.jobs, db.now - cfg.timeout) == 0
  {
    var cutoff := db.now - cfg.timeout;
    SumConstant(|db.jobs|, StaleOne(db.jobs, cutoff), 0);
    forall i: nat ensures CustomerCharge(db, cutoff, i) == 0 && WorkerCharge(db, cutoff, i) == 0 {
      SumConstant(|db.jobs|, ChargesCustomer(db, cutoff, i), 0);
      SumConstant(|db.jobs|, ChargesWorker(db, cutoff, i), 0);
    }
    assert FinishAll(db.jobs, cutoff, db.now) == db.jobs;
    NoCharge(db.workers, db.customers, CustomerCharges(db, cutoff));
    NoCharge(db.workers, db.customers, WorkerCharges(db, cutoff));
  }

  /** If the job is running, it has an accepted worker. */
  predicate RunningJobHasWorker(db: Db, job: nat) {
    job < |db.jobs| && db.jobs[job].status.InProgress? ==> AcceptedUser(db, job).Some?
  }

  /** If the job is completed, it has an accepted worker. */
  predicate CompletedJobHasWorker(db: Db, job: nat) {
    job < |db.jobs| && db.jobs[job].status.Completed? ==> AcceptedUser(db, job).Some?
  }

  /** What the asserts and lookups on the way of a step need. */
  ghost predicate IsPrepared(db: Db, step: Step) {
    && HasSoleAcceptances(db.apps)
    && (step.DoMarkComplete? ==> RunningJobHasWorker(db, step.job))
    && (step.DoSubmitReview? ==> CompletedJobHasWorker(db, step.job))
  }

  lemma EveryStepIsPrepared(db: Db, step: Step)
    requires Keys(db) && Handshake(db.jobs, db.apps) && BillingRows(db)
    ensures IsPrepared(db, step)
  {
    if (step.DoMarkComplete? || step.DoSubmitReview?) && step.job < |db.jobs| && IsSettled(db.jobs[step.job].status) {
      var a := WinnerIsFound(db, step.job);
      assert db.jobs[step.job].status.InProgress? ==>
          forall b: nat | b < |db.billings| :: !Lifecycle.BilledFor(db.billings, step.job)(b);
    }
  }

  /** Both sweeps, as the hourly job runs them. */
  function Checked(cfg: Settings, db: Db): Db { SweepCompletions(cfg, SweepAssignments(cfg, db)) }

  lemma ChecksKeep(cfg: Settings, db: Db)
    requires Inv(db)
    ensures Inv(Checked(cfg, db))
  {
    SweepAssignmentsKeeps(cfg, db);
    SweepCompletionsKeeps(cfg, SweepAssignments(cfg, db));
  }

  const CHECKS := [DoSweepAssignments, DoSweepCompletions]

  lemma ChecksAreARun(cfg: Settings, db: Db)
    ensures Run(cfg, db, CHECKS) == Checked(cfg, db)
    ensures RunCount(cfg, db, CHECKS) == ExpiredCount(db.apps, db.now - cfg.timeout)
            + StaleCount(db.jobs, db.now - cfg.timeout)
  {
    var mid := SweepAssignments(cfg, db);
    assert CHECKS[1..] == [DoSweepCompletions] && [DoSweepCompletions][1..] == [];
    assert Following(cfg, db, DoSweepAssignments) == mid;
    assert Run(cfg, mid, [DoSweepCompletions]) == Checked(cfg, db);
    assert RunCount(cfg, mid, [DoSweepCompletions]) == StaleCount(db.jobs, db.now - cfg.timeout);
  }

  /** The hourly checks raise the total of all no-show counters by exactly the two counts they return. */
  lemma ChecksCount(cfg: Settings, db: Db)
    requires Inv(db)
    ensures TotalNoShows(Checked(cfg, db))
            == TotalNoShows(db) + ExpiredCount(db.apps, db.now - cfg.timeout)
                + StaleCount(db.jobs, db.now - cfg.timeout)
  {
    NoShowsAreTheCounts(cfg, db, CHECKS);
    ChecksAreARun(cfg, db);
  }

  // ─── The session ────────────────────────────────────────────────────────────

  class Session {
    const cfg: Settings
    var users: seq<User>
    var customers: seq<CustomerProfile>
    var workers: seq<WorkerProfile>
    var jobs: seq<Job>
    var apps: seq<Application>
    var reviews: seq<Review>
    var billings: seq<Billing>
    var payments: seq<Payment>
    var now: int

    function Snapshot(): Db
      reads this
    {
      Db(users, customers, workers, jobs, apps, reviews, billings, payments, now)
    }

    ghost predicate Valid()
      reads this
    {
      Inv(Snapshot())
    }

    constructor (cfg: Settings)
      ensures this.cfg == cfg && Snapshot() == EMPTY
    {
      this.cfg := cfg;
      users, customers, workers, jobs := [], [], [], [];
      apps, reviews, billings, payments := [], [], [], [];
      now := 0;
    }

    // ─── Lookups ──────────────────────────────────────────────────────────────

    /** get_accepted_worker_profile_id: LIMIT 1 without an order. */
    method AcceptedProfileId(job: nat) returns (r: Option<nat>)
      ensures MayAnswer(apps, job, r)
    {
      if a: nat :| a < |apps| && IsAccepted(apps, job)(a) {
        r := Some(apps[a].worker);
      } else {
        r := None;
      }
    }

    /** get_accepted_worker_user_id: the same lookup joined to the profiles. */
    method AcceptedUserId(job: nat) returns (r: Option<nat>)
      requires HasSoleAcceptances(apps)
      ensures r == AcceptedUser(Snapshot(), job)
    {
      var profile := AcceptedProfileId(job);
      LookupIsAFunction(apps, job, profile);
      r := if profile.Some? && profile.value < |workers| then Some(workers[profile.value].user) else None;
    }

    // ─── crud_job_applications ────────────────────────────────────────────────

    method CreateJobApplication(user: nat, job: nat) returns (error: Option<Error>)
      modifies this`apps
      ensures Did(Lifecycle.Apply(old(Snapshot()), user, job), old(Snapshot()), error, Snapshot())
    {
      if user >= |users| { return Some(Unauthorized); }
      if !users[user].role.Worker? { return Some(Forbidden); }
      if job >= |jobs| { return Some(NotFound); }
      if !jobs[job].status.Open? { return Some(BadRequest); }
      var profile := FindWorker(workers, user);
      if profile.None? { return Some(NotFound); }
      if First(|apps|, Lifecycle.AppliedBy(apps, job, profile.value)).Some? { return Some(BadRequest); }
      apps := apps + [Application(job, profile.value, Pending, None, None, None)];
      return None;
    }

    method UpdateJobApplication(user: nat, job: nat, app: nat, status: ApplicationStatus, reason: Option<DeclineReason>)
      returns (error: Option<Error>)
      modifies this`apps
      ensures Did(Lifecycle.UpdateApplication(old(Snapshot()), user, job, app, status, reason), old(Snapshot()), error,
              Snapshot())
    {
      if user >= |users| { return Some(Unauthorized); }
      if status.Rejected? != reason.Some? { return Some(InvalidPayload); }
      if !users[user].role.Customer? { return Some(Forbidden); }
      if job >= |jobs| { return Some(NotFound); }
      if jobs[job].owner != user { return Some(Forbidden); }
      if !jobs[job].status.Open? { return Some(BadRequest); }
      if app >= |apps| { return Some(NotFound); }
      if apps[app].job != job { return Some(NotFound); }
      if status.Accepted? {
        var alreadyAccepted := AcceptedApp(apps, job).Some?;
        if alreadyAccepted && !apps[app].status.Accepted? { return Some(BadRequest); }
        apps := apps[app := apps[app].(acceptedAt := Some(now))];
      }
      apps := apps[app := apps[app].(status := status, reason := reason)];
      return None;
    }

    // ─── job_lifecycle_service ────────────────────────────────────────────────

    method RejectOtherApplications(job: nat, winner: nat)
      modifies this`apps
      ensures apps == Lifecycle.RejectOthers(old(apps), job, winner)
    {
      var others := Select(|apps|, Losing(apps, job, winner));
      var n := 0;
      while n < |others|
        invariant n <= |others| && |apps| == |old(apps)|
        invariant IsSelection(|apps|, Losing(apps, job, winner), others[n..])
        invariant Lifecycle.RejectOthers(apps, job, winner) == Lifecycle.RejectOthers(old(apps), job, winner)
      {
        var other := others[n];
        assert other in others[n..];
        ghost var was := apps;
        apps := apps[other := apps[other].(status := Rejected, reason := Some(AnotherApplicantSelected))];
        assert Lifecycle.RejectOthers(apps, job, winner) == Lifecycle.RejectOthers(was, job, winner);
        SelectionShrinks(|apps|, Losing(was, job, winner), Losing(apps, job, winner), others[n..]);
        n := n + 1;
      }
      forall a: nat | a < |apps| ensures !Lifecycle.LosesTo(apps, job, winner, a) {
        assert Losing(apps, job, winner)(a) <==> a in others[n..];
      }
      assert Lifecycle.RejectOthers(apps, job, winner) == apps;
    }

    method ConfirmApplication(user: nat, job: nat, app: nat) returns (error: Option<Error>)
      modifies this`jobs, this`apps
      ensures Did(Lifecycle.Confirm(old(Snapshot()), user, job, app), old(Snapshot()), error, Snapshot())
    {
      if user >= |users| { return Some(Unauthorized); }
      if job >= |jobs| || app >= |apps| || apps[app].job != job { return Some(NotFound); }
      if apps[app].worker >= |workers| || workers[apps[app].worker].user != user { return Some(Forbidden); }
      if !apps[app].status.Accepted? { return Some(BadRequest); }
      if !jobs[job].status.Open? { return Some(BadRequest); }
      apps := apps[app := apps[app].(confirmedAt := Some(now))];
      jobs := jobs[job := jobs[job].(status := Assigned)];
      RejectOtherApplications(job, app);
      return None;
    }

    method WithdrawApplication(user: nat, job: nat, app: nat, reason: DeclineReason) returns (error: Option<Error>)
      modifies this`apps
      ensures Did(Lifecycle.Withdraw(old(Snapshot()), user, job, app, reason), old(Snapshot()), error, Snapshot())
    {
      if user >= |users| { return Some(Unauthorized); }
      if job >= |jobs| || app >= |apps| || apps[app].job != job { return Some(NotFound); }
      if apps[app].worker >= |workers| || workers[apps[app].worker].user != user { return Some(Forbidden); }
      if apps[app].status.Rejected? { return Some(BadRequest); }
      if !jobs[job].status.Open? { return Some(BadRequest); }
      apps := apps[app := apps[app].(status := Rejected, reason := Some(reason))];
      return None;
    }

    method StartJob(user: nat, job: nat) returns (error: Option<Error>)
      requires HasSoleAcceptances(apps)
      modifies this`jobs
      ensures Did(Lifecycle.Start(old(Snapshot()), user, job), old(Snapshot()), error, Snapshot())
    {
      if user >= |users| { return Some(Unauthorized); }
      if job >= |jobs| { return Some(NotFound); }
      var worker := AcceptedUserId(job);
      if worker != Some(user) { return Some(Forbidden); }
      if !jobs[job].status.Assigned? { return Some(BadRequest); }
      jobs := jobs[job := jobs[job].(status := InProgress)];
      return None;
    }

    /** crud_worker_billing.create: the unique constraint refuses a second row of a job. */
    method CreateBilling(worker: nat, job: nat) returns (created: bool)
      modifies this`billings
      ensures created <==> First(|old(billings)|, Lifecycle.BilledFor(old(billings), job)).None?
      ensures billings == if created then old(billings) + [Lifecycle.BillingFor(cfg, old(Snapshot()), job, worker)]
              else old(billings)
    {
      created := First(|billings|, Lifecycle.BilledFor(billings, job)).None?;
      if !created { return; }
      billings := billings + [Billing(worker, job, cfg.commission, now + cfg.grace, 0, Due, None)];
    }

    /** Sets the caller's completion mark, unless it is set already; the second of the two completes the job. */
    method SetMark(job: nat, isCustomer: bool) returns (already: bool)
      requires job < |jobs|
      modifies this`jobs
      ensures already == (if isCustomer then old(jobs)[job].customerDoneAt else old(jobs)[job].workerDoneAt).Some?
      ensures jobs == if already then old(jobs) else old(jobs)[job := Lifecycle.Mark(old(jobs)[job], isCustomer, now)]
    {
      if isCustomer {
        if jobs[job].customerDoneAt.Some? { return true; }
        jobs := jobs[job := jobs[job].(customerDoneAt := Some(now))];
      } else {
        if jobs[job].workerDoneAt.Some? { return true; }
        jobs := jobs[job := jobs[job].(workerDoneAt := Some(now))];
      }
      if jobs[job].customerDoneAt.Some? && jobs[job].workerDoneAt.Some? {
        jobs := jobs[job := jobs[job].(status := Completed)];
      }
      return false;
    }

    /** The two asserts on the accepted worker are those of mark_job_complete. A refused insert comes after
        the commit of the completion, which stands. */
    method MarkJobComplete(user: nat, job: nat) returns (error: Option<Error>)
      requires HasSoleAcceptances(apps) && RunningJobHasWorker(Snapshot(), job)
      modifies this`jobs, this`billings
      ensures Did(Lifecycle.MarkComplete(cfg, old(Snapshot()), user, job), old(Snapshot()), error, Snapshot())
    {
      if user >= |users| { return Some(Unauthorized); }
      if job >= |jobs| { return Some(NotFound); }
      var isCustomer := jobs[job].owner == user;
      var worker := AcceptedUserId(job);
      var isWorker := worker == Some(user);
      if !isCustomer && !isWorker { return Some(Forbidden); }
      if !jobs[job].status.InProgress? { return Some(BadRequest); }
      assert worker.Some?;
      var already := SetMark(job, isCustomer);
      if already { return Some(BadRequest); }
      if jobs[job].status.Completed? {
        var profile := AcceptedProfileId(job);
        LookupIsAFunction(apps, job, profile);
        assert profile.Some?;
        var created := CreateBilling(profile.value, job);
        if !created { return Some(IntegrityError); }
      }
      return None;
    }

    // ─── job_timeout_service ──────────────────────────────────────────────────

    method IncrementWorkerNoShowByProfileId(profile: nat)
      modifies this`workers
      ensures workers == Charged(old(workers), profile)
    {
      if profile < |workers| {
        workers := workers[profile := workers[profile].(noShows := workers[profile].noShows + 1)];
      }
    }

    method IncrementWorkerNoShowByUserId(user: nat)
      modifies this`workers
      ensures var w := FindWorker(old(workers), user);
              workers == if w.Some? then Charged(old(workers), w.value) else old(workers)
    {
      var profile := FindWorker(workers, user);
      if profile.Some? { IncrementWorkerNoShowByProfileId(profile.value); }
    }

    method IncrementCustomerNoShow(user: nat)
      modifies this`customers
      ensures var c := FindCustomer(old(customers), user);
              customers == if c.Some? then ChargedCustomer(old(customers), c.value) else old(customers)
    {
      var profile := FindCustomer(customers, user);
      if profile.Some? {
        customers := customers[profile.value :=
            customers[profile.value].(noShows := customers[profile.value].noShows + 1)];
      }
    }

    /** One iteration of the assignment sweep. */
    method ExpireApplication(a: nat)
      requires a < |apps| && IsExpired(apps[a], now - cfg.timeout)
      modifies this`apps, this`workers
      ensures apps == old(apps)[a := Expire(old(apps)[a])]
      ensures ExpiredCount(apps, now - cfg.timeout) == ExpiredCount(old(apps), now - cfg.timeout) - 1
      ensures SweepAssignments(cfg, Snapshot()) == SweepAssignments(cfg, old(Snapshot()))
    {
      ExpiringOneSweepsOn(cfg, Snapshot(), a);
      apps := apps[a := apps[a].(status := Rejected, reason := Some(Unresponsive))];
      IncrementWorkerNoShowByProfileId(apps[a].worker);
      assert Snapshot() == ExpiringOne(old(Snapshot()), a);
    }

    /** Whatever the order of the selected rows, the loop ends in the state the sweep specifies. */
    method ExpireUnconfirmedAssignments() returns (count: nat)
      modifies this`apps, this`workers
      ensures Snapshot() == SweepAssignments(cfg, old(Snapshot()))
      ensures count == ExpiredCount(old(apps), now - cfg.timeout)
    {
      var cutoff := now - cfg.timeout;
      var rows := Select(|apps|, Expired(apps, cutoff));
      var n := 0;
      while n < |rows|
        invariant n <= |rows| && Snapshot() == old(Snapshot()).(apps := apps, workers := workers)
        invariant IsSelection(|apps|, Expired(apps, cutoff), rows[n..])
        invariant SweepAssignments(cfg, Snapshot()) == SweepAssignments(cfg, old(Snapshot()))
        invariant n + ExpiredCount(apps, cutoff) == ExpiredCount(old(apps), cutoff)
      {
        var a := rows[n];
        assert a in rows[n..];
        ghost var was := apps;
        ExpireApplication(a);
        SelectionShrinks(|apps|, Expired(was, cutoff), Expired(apps, cutoff), rows[n..]);
        n := n + 1;
      }
      forall a: nat | a < |apps| ensures !IsExpired(apps[a], cutoff) {
        assert Expired(apps, cutoff)(a) <==> a in rows[n..];
      }
      NothingToExpire(cfg, Snapshot());
      count := |rows|;
    }

    /** One iteration of the completion sweep. */
    method FinishJob(job: nat)
      requires HasSoleAcceptances(apps) && job < |jobs| && IsStale(jobs[job], now - cfg.timeout)
      modifies this`jobs, this`customers, this`workers
      ensures jobs == old(jobs)[job := Finish(old(jobs)[job], now)]
      ensures StaleCount(jobs, now - cfg.timeout) == StaleCount(old(jobs), now - cfg.timeout) - 1
      ensures SweepCompletions(cfg, Snapshot()) == SweepCompletions(cfg, old(Snapshot()))
    {
      FinishingOneSweepsOn(cfg, Snapshot(), job);
      var row := jobs[job];
      if row.customerDoneAt.None? {
        row := row.(customerDoneAt := Some(now));
        IncrementCustomerNoShow(row.owner);
      } else {
        row := row.(workerDoneAt := Some(now));
        var worker := AcceptedUserId(job);
        if worker.Some? { IncrementWorkerNoShowByUserId(worker.value); }
      }
      jobs := jobs[job := row.(status := Completed)];
      assert Snapshot() == FinishingOne(old(Snapshot()), job, now - cfg.timeout);
    }

    method ExpireUnconfirmedCompletions() returns (count: nat)
      requires HasSoleAcceptances(apps)
      modifies this`jobs, this`customers, this`workers
      ensures Snapshot() == SweepCompletions(cfg, old(Snapshot()))
      ensures count == StaleCount(old(jobs), now - cfg.timeout)
    {
      var cutoff := now - cfg.timeout;
      var rows := Select(|jobs|, Stale(jobs, cutoff));
      var n := 0;
      while n < |rows|
        invariant n <= |rows|
        invariant Snapshot() == old(Snapshot()).(jobs := jobs, customers := customers, workers := workers)
        invariant IsSelection(|jobs|, Stale(jobs, cutoff), rows[n..])
        invariant SweepCompletions(cfg, Snapshot()) == SweepCompletions(cfg, old(Snapshot()))
        invariant n + StaleCount(jobs, cutoff) == StaleCount(old(jobs), cutoff)
      {
        var j := rows[n];
        assert j in rows[n..];
        ghost var was := jobs;
        FinishJob(j);
        SelectionShrinks(|jobs|, Stale(was, cutoff), Stale(jobs, cutoff), rows[n..]);
        n := n + 1;
      }
      forall j: nat | j < |jobs| ensures !IsStale(jobs[j], cutoff) {
        assert Stale(jobs, cutoff)(j) <==> j in rows[n..];
      }
      NothingToFinish(cfg, Snapshot());
      count := |rows|;
    }

    /** The hourly entry point. */
    method RunJobTimeoutChecks() returns (assignments: nat, completions: nat)
      requires HasSoleAcceptances(apps)
      modifies this`jobs, this`apps, this`customers, this`workers
      ensures Snapshot() == Checked(cfg, old(Snapshot()))
      ensures assignments == ExpiredCount(old(apps), now - cfg.timeout)
      ensures completions == StaleCount(old(jobs), now - cfg.timeout)
    {
      assignments := ExpireUnconfirmedAssignments();
      completions := ExpireUnconfirmedCompletions();
    }

    // ─── crud_reviews, rating_service, review_moderation_service ──────────────

    method RecalculateWorkerRating(user: nat)
      modifies this`workers
      ensures workers == Recalculate(old(workers), reviews, user)
    {
      var count := ReviewCount(reviews, user);
      var average := if count > 0 then Some(RoundHalfEven(100 * RatingTotal(reviews, user), count)) else None;
      var w := 0;
      while w < |workers|
        invariant w <= |workers| == |old(workers)|
        invariant forall v: nat | v < |workers| ::
                    workers[v] == if v < w then Recalculate(old(workers), reviews, user)[v] else old(workers)[v]
      {
        if workers[w].user == user {
          workers := workers[w := workers[w].(averageRating := average, reviewCount := count)];
        }
        w := w + 1;
      }
    }

    method CheckReviewEligibility(user: nat, job: nat) returns (verdict: Verdict)
      requires HasSoleAcceptances(apps) && job < |jobs|
      ensures verdict == Eligibility(Snapshot(), user, job)
    {
      var isCustomer := jobs[job].owner == user;
      if !isCustomer {
        var worker := AcceptedUserId(job);
        if worker != Some(user) { return NotAParticipant; }
      }
      if !jobs[job].status.Completed? { return JobNotComplete; }
      if First(|reviews|, ReviewedBy(reviews, job, user)).Some? { return AlreadySubmitted; }
      return CanReview;
    }

    /** ORDER BY created_at DESC LIMIT 1: among the newest jobs any may be the answer. */
    method CheckWorkerReviewEligibility(user: nat, worker: nat) returns (offer: Option<nat>)
      ensures MayOffer(Snapshot(), user, worker, offer)
    {
      SomethingMayBeOffered(Snapshot(), user, worker);
      if j: nat :| j < |jobs| && MayOffer(Snapshot(), user, worker, Some(j)) {
        offer := Some(j);
      } else {
        offer := None;
      }
    }

    method SubmitReview(user: nat, job: nat, rating: int) returns (error: Option<Error>)
      requires HasSoleAcceptances(apps) && CompletedJobHasWorker(Snapshot(), job)
      modifies this`reviews, this`workers
      ensures Did(Reviewing.SubmitReview(old(Snapshot()), user, job, rating), old(Snapshot()), error, Snapshot())
    {
      if user >= |users| { return Some(Unauthorized); }
      if !(1 <= rating <= 5) { return Some(InvalidPayload); }
      if job >= |jobs| { return Some(NotFound); }
      var verdict := CheckReviewEligibility(user, job);
      match verdict {
        case NotAParticipant => return Some(Forbidden);
        case JobNotComplete => return Some(BadRequest);
        case AlreadySubmitted => return Some(BadRequest);
        case CanReview =>
      }
      if jobs[job].owner == user {
        var reviewee := AcceptedUserId(job);
        assert reviewee.Some?;
        reviews := reviews + [Review(job, user, reviewee.value, Customer, rating, now, false)];
        RecalculateWorkerRating(reviewee.value);
      } else {
        reviews := reviews + [Review(job, user, jobs[job].owner, Worker, rating, now, false)];
      }
      return None;
    }

    method RemoveFlaggedReview(review: nat) returns (error: Option<Error>)
      modifies this`reviews, this`workers
      ensures Did(RemoveReview(old(Snapshot()), review), old(Snapshot()), error, Snapshot())
    {
      if review >= |reviews| { return Some(NotFound); }
      if reviews[review].flagged { return Some(BadRequest); }
      reviews := reviews[review := reviews[review].(flagged := true)];
      if reviews[review].role.Customer? {
        RecalculateWorkerRating(reviews[review].reviewee);
      }
      return None;
    }

    // ─── worker_billing_service, payments.providers ───────────────────────────

    /** CashProvider.record_payment; None when it refuses. */
    method RecordPayment(payer: nat, amount: int, job: Option<nat>, billing: Option<nat>, recordedBy: nat)
      returns (payment: Option<nat>)
      modifies this`payments
      ensures match Billings.RecordPayment(old(Snapshot()), payer, amount, job, billing, recordedBy)
              case Refused => payment.None? && Snapshot() == old(Snapshot())
              case Recorded(db, p) => payment == Some(p) && Snapshot() == db
    {
      if amount <= 0 { return None; }
      if job.Some? && billing.Some? { return None; }
      payment := Some(|payments|);
      payments := payments + [Payment(payer, amount, Cash, job, billing, recordedBy, Settled)];
    }

    method MarkWorkerBillingPaid(billing: nat, admin: nat) returns (error: Option<Error>)
      modifies this`billings, this`payments
      ensures Did(Billings.MarkPaid(old(Snapshot()), billing, admin), old(Snapshot()), error, Snapshot())
    {
      if billing >= |billings| { return Some(NotFound); }
      var row := billings[billing];
      if row.status.Paid? { return Some(BadRequest); }
      if row.worker >= |workers| { return Some(NotFound); }
      var outstanding := row.owed - row.paid;
      var payment := RecordPayment(workers[row.worker].user, outstanding, None, Some(billing), admin);
      if payment.None? { return Some(BadRequest); }
      billings := billings[billing := row.(paid := row.owed, status := Paid, payment := payment)];
      return None;
    }

    method Refund(payment: nat) returns (error: Option<Error>)
      modifies this`payments
      ensures Did(Billings.Refund(old(Snapshot()), payment), old(Snapshot()), error, Snapshot())
    {
      if payment >= |payments| { return Some(NotFound); }
      if !payments[payment].means.Cash? { return Some(BadRequest); }
      payments := payments[payment := payments[payment].(status := Refunded)];
      return None;
    }

    // ─── auth.register, crud_jobs ─────────────────────────────────────────────

    method Register(row: User) returns (error: Option<Error>)
      modifies this`users, this`customers, this`workers
      ensures Did(Jobs.Register(old(Snapshot()), row), old(Snapshot()), error, Snapshot())
    {
      if First(|users|, Jobs.HasEmail(users, row.email)).Some? { return Some(DuplicateValue); }
      if First(|users|, Jobs.HasUsername(users, row.username)).Some? { return Some(DuplicateValue); }
      var user := |users|;
      users := users + [row];
      match row.role {
        case Customer => customers := customers + [CustomerProfile(user, 0)];
        case Worker => workers := workers + [WorkerProfile(user, None, 0, 0)];
      }
      return None;
    }

    method CreateJob(user: nat, draft: Jobs.Draft) returns (error: Option<Error>)
      modifies this`jobs
      ensures Did(Jobs.CreateJob(old(Snapshot()), user, draft), old(Snapshot()), error, Snapshot())
    {
      if user >= |users| { return Some(Unauthorized); }
      if !Jobs.IsDraft(draft) { return Some(InvalidPayload); }
      if !users[user].role.Customer? { return Some(Forbidden); }
      if ActiveCount(jobs, user) >= MAX_ACTIVE_JOBS { return Some(BadRequest); }
      if !draft.categoryKnown { return Some(NotFound); }
      jobs := jobs + [Job(user, draft.title, draft.budgetMin, draft.budgetMax, Open, now, None, None, false)];
      return None;
    }

    method UpdateJob(user: nat, job: nat, patch: Jobs.JobPatch) returns (error: Option<Error>)
      modifies this`jobs
      ensures Did(Jobs.UpdateJob(old(Snapshot()), user, job, patch), old(Snapshot()), error, Snapshot())
    {
      if user >= |users| { return Some(Unauthorized); }
      if !Jobs.IsPatch(patch) { return Some(InvalidPayload); }
      if !users[user].role.Customer? { return Some(Forbidden); }
      if job >= |jobs| { return Some(NotFound); }
      if jobs[job].owner != user { return Some(Forbidden); }
      if jobs[job].deleted { return Some(NotFound); }
      if !jobs[job].status.Open? { return Some(BadRequest); }
      if !patch.categoryKnown { return Some(NotFound); }
      if Jobs.Refuses(jobs[job], patch) { return Some(IntegrityError); }
      jobs := jobs[job := Jobs.PatchJob(jobs[job], patch)];
      return None;
    }

    method DeleteJob(user: nat, job: nat) returns (error: Option<Error>)
      modifies this`jobs
      ensures Did(Jobs.DeleteJob(old(Snapshot()), user, job), old(Snapshot()), error, Snapshot())
    {
      if user >= |users| { return Some(Unauthorized); }
      if !users[user].role.Customer? { return Some(Forbidden); }
      if job >= |jobs| || jobs[job].deleted { return Some(NotFound); }
      if jobs[job].owner != user { return Some(Forbidden); }
      jobs := jobs[job := jobs[job].(deleted := true)];
      return None;
    }

    // ─── Any request ──────────────────────────────────────────────────────────

    /** One request or sweep: exactly the step of the state machine, and no assert on the way fails.
        What a request that keeps to safe PATCHes leaves behind is ready for the next one. */
    method Perform(step: Step) returns (error: Option<Error>)
      requires Valid()
      modifies this
      ensures Did(Next(cfg, old(Snapshot()), step), old(Snapshot()), error, Snapshot())
      ensures IsSafe(step) ==> Valid() && Evolves(old(Snapshot()), Snapshot())
      ensures error != Some(AssertionFailure)
    {
      ghost var before := Snapshot();
      NothingBreaks(cfg, before, step);
      if IsSafe(step) { FollowingKeeps(cfg, before, step); }
      EveryStepIsPrepared(before, step);
      error := Dispatch(step);
    }

    method Dispatch(step: Step) returns (error: Option<Error>)
      requires IsPrepared(Snapshot(), step)
      modifies this
      ensures Did(Next(cfg, old(Snapshot()), step), old(Snapshot()), error, Snapshot())
    {
      if IsJobStep(step) {
        error := DispatchJobs(step);
      } else if IsHandshakeStep(step) {
        error := DispatchHandshake(step);
      } else {
        error := DispatchOthers(step);
      }
    }

    method DispatchJobs(step: Step) returns (error: Option<Error>)
      requires IsJobStep(step)
      modifies this
      ensures Did(Next(cfg, old(Snapshot()), step), old(Snapshot()), error, Snapshot())
    {
      match step {
        case DoRegister(row) => error := Register(row);
        case DoCreateJob(user, draft) => error := CreateJob(user, draft);
        case DoUpdateJob(user, job, patch) => error := UpdateJob(user, job, patch);
        case DoDeleteJob(user, job) => error := DeleteJob(user, job);
      }
    }

    method DispatchHandshake(step: Step) returns (error: Option<Error>)
      requires IsPrepared(Snapshot(), step) && IsHandshakeStep(step)
      modifies this
      ensures Did(Next(cfg, old(Snapshot()), step), old(Snapshot()), error, Snapshot())
    {
      match step {
        case DoApply(user, job) => error := CreateJobApplication(user, job);
        case DoUpdateApplication(user, job, app, status, reason) => error :=
            UpdateJobApplication(user, job, app, status, reason);
        case DoConfirm(user, job, app) => error := ConfirmApplication(user, job, app);
        case DoWithdraw(user, job, app, why) => error := WithdrawApplication(user, job, app, why);
        case DoStart(user, job) => error := StartJob(user, job);
        case DoMarkComplete(user, job) => error := MarkJobComplete(user, job);
      }
    }

    method DispatchOthers(step: Step) returns (error: Option<Error>)
      requires IsPrepared(Snapshot(), step) && !IsJobStep(step) && !IsHandshakeStep(step)
      modifies this
      ensures Did(Next(cfg, old(Snapshot()), step), old(Snapshot()), error, Snapshot())
    {
      error := None;
      match step {
        case DoSubmitReview(user, job, rating) => error := SubmitReview(user, job, rating);
        case DoRemoveReview(review) => error := RemoveFlaggedReview(review);
        case DoMarkPaid(billing, admin) => error := MarkWorkerBillingPaid(billing, admin);
        case DoRefund(payment) => error := Refund(payment);
        case DoSweepAssignments => var count := ExpireUnconfirmedAssignments();
        case DoSweepCompletions => var count := ExpireUnconfirmedCompletions();
        case DoWait(seconds) => now := now + seconds;
      }
    }
  }
}
