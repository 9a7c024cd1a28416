/** What every request does, said of the rows alone: when it succeeds, who is turned away, which columns
    change, and that nothing else does. */
module Effects {
  import opened Prelude
  import opened Tables
  import opened Ratings
  import opened Invariant
  import opened Jobs
  import opened Lifecycle
  import opened Timeouts
  import opened Reviewing
  import opened Billings

  // ─── Users and jobs ─────────────────────────────────────────────────────────

  lemma RegisterDoes(db: Db, row: User)
    ensures var o := Register(db, row);
            && (o.Ok? <==> forall u: nat | u < |db.users| ::
               db.users[u].email != row.email && db.users[u].username != row.username)
            && (!o.Ok? ==> o == Fail(DuplicateValue))
            && (o.Ok? && row.role == Customer ==>
                  o.db == db.(users := db.users + [row], customers := db.customers + [CustomerProfile(|db.users|, 0)]))
            && (o.Ok? && row.role == Worker ==>
                  o.db == db.(users := db.users + [row],
                      workers := db.workers + [WorkerProfile(|db.users|, None, 0, 0)]))
  {
    forall u: nat | u < |db.users| && (db.users[u].email == row.email || db.users[u].username == row.username)
      ensures !Register(db, row).Ok?
    {
      assert HasEmail(db.users, row.email)(u) || HasUsername(db.users, row.username)(u);
    }
  }

  /** The undeleted jobs of a user that are not over. */
  ghost function Running(jobs: seq<Job>, user: nat): set<nat> {
    set j: nat | j < |jobs| && jobs[j].owner == user && !jobs[j].deleted
                 && jobs[j].status != Completed && jobs[j].status != Cancelled
  }

  lemma ActiveMeansRunning(jobs: seq<Job>, user: nat)
    ensures ActiveCount(jobs, user) == |Running(jobs, user)|
  {
    var p := (j: nat) =>
      j < |jobs| && jobs[j].owner == user && !jobs[j].deleted && jobs[j].status != Completed
          && jobs[j].status != Cancelled;
    SumIsCount(|jobs|, ActiveJob(jobs, user), p);
    assert (set j: nat | j < |jobs| && p(j)) == Running(jobs, user);
  }

  /** A customer may post a well-formed job in a known category while fewer than 10 of theirs are running. */
  lemma CreateJobDoes(db: Db, user: nat, d: Draft)
    ensures var o := CreateJob(db, user, d);
            && (o.Ok? <==>
                  && user < |db.users| && db.users[user].role == Customer
                  && 1 <= |d.title| <= 255
                  && (d.budgetMin.Some? ==> d.budgetMin.value >= 0) && (d.budgetMax.Some? ==> d.budgetMax.value >= 0)
                  && (d.budgetMin.Some? && d.budgetMax.Some? ==> d.budgetMin.value <= d.budgetMax.value)
                  && |Running(db.jobs, user)| < 10
                  && d.categoryKnown)
            && (o.Ok? ==>
                  && |o.db.jobs| == |db.jobs| + 1 && o.db == db.(jobs := db.jobs + [o.db.jobs[|db.jobs|]])
                  && o.db.jobs[|db.jobs|]
                     == Job(user, d.title, d.budgetMin, d.budgetMax, Open, db.now, None, None, false))
  {
    ActiveMeansRunning(db.jobs, user);
  }

  /** A column after a PATCH that says null, a value, or nothing. */
  ghost predicate IsColumn<T>(after: Option<T>, before: Option<T>, patch: Patch<T>) {
    && (patch == Patch.Null ==> after == None)
    && (patch.To? ==> after == Some(patch.value))
    && (patch == Patch.Absent ==> after == before)
  }

  /** The owner may change an open, undeleted job; every field that is given takes its value, a null clears
      what may be empty, and the others stay. */
  lemma UpdateJobDoes(db: Db, user: nat, job: nat, p: JobPatch)
    ensures var o := UpdateJob(db, user, job, p);
            o.Ok? ==>
              && user < |db.users| && job < |db.jobs| && db.jobs[job].owner == user
              && !db.jobs[job].deleted && db.jobs[job].status == Open && p.categoryKnown
              && |o.db.jobs| == |db.jobs| && o.db == db.(jobs := db.jobs[job := o.db.jobs[job]])
              && var was, row := db.jobs[job], o.db.jobs[job];
              && IsColumn(row.budgetMin, was.budgetMin, p.budgetMin)
                 && IsColumn(row.budgetMax, was.budgetMax, p.budgetMax)
              && IsColumn(Some(row.title), Some(was.title), p.title)
                 && IsColumn(Some(row.status), Some(was.status), p.status)
              && (row.budgetMin.Some? && row.budgetMax.Some? ==> row.budgetMin.value <= row.budgetMax.value)
              && row == was.(title := row.title, budgetMin := row.budgetMin, budgetMax := row.budgetMax,
                 status := row.status)
  {
  }

  /** An owner's well-formed PATCH of such a job is refused only by the columns. */
  lemma UpdateJobSucceedsWhen(db: Db, user: nat, job: nat, p: JobPatch)
    requires Keys(db) && job < |db.jobs| && db.jobs[job].owner == user && !db.jobs[job].deleted
             && db.jobs[job].status == Open
    requires p.categoryKnown && (p.title.To? ==> 1 <= |p.title.value| <= 255)
    requires (p.budgetMin.To? ==> p.budgetMin.value >= 0) && (p.budgetMax.To? ==> p.budgetMax.value >= 0)
    requires p.budgetMin.To? && p.budgetMax.To? ==> p.budgetMin.value <= p.budgetMax.value
    ensures UpdateJob(db, user, job, p).Ok? || UpdateJob(db, user, job, p) == Fail(IntegrityError)
    ensures UpdateJob(db, user, job, p).Ok? <==>
              && !p.title.Null? && !p.status.Null?
              && forall low: Option<int>, high: Option<int> |
                   && IsColumn(low, db.jobs[job].budgetMin, p.budgetMin)
                   && IsColumn(high, db.jobs[job].budgetMax, p.budgetMax) ::
                   low.Some? && high.Some? ==> low.value <= high.value
  {
    assert IsColumn(Patched(p.budgetMin, db.jobs[job].budgetMin), db.jobs[job].budgetMin, p.budgetMin);
    assert IsColumn(Patched(p.budgetMax, db.jobs[job].budgetMax), db.jobs[job].budgetMax, p.budgetMax);
  }

  lemma DeleteJobDoes(db: Db, user: nat, job: nat)
    requires Keys(db)
    ensures var o := DeleteJob(db, user, job);
            && (o.Ok? <==> job < |db.jobs| && !db.jobs[job].deleted && db.jobs[job].owner == user)
            && (o.Ok? ==> o.db == db.(jobs := db.jobs[job := db.jobs[job].(deleted := true)]))
  {
  }

  // ─── Applications ───────────────────────────────────────────────────────────

  /** The user is the worker behind the application. */
  ghost predicate Sent(db: Db, user: nat, a: nat) {
    a < |db.apps| && db.apps[a].worker < |db.workers| && db.workers[db.apps[a].worker].user == user
  }

  /** A worker may apply once to an open job, as themselves. */
  lemma ApplyDoes(db: Db, user: nat, job: nat)
    requires Keys(db) && Unique(db)
    ensures var o := Apply(db, user, job);
            && (o.Ok? <==>
                  && user < |db.users| && db.users[user].role == Worker && job < |db.jobs|
                     && db.jobs[job].status == Open
                  && forall a: nat | a < |db.apps| && db.apps[a].job == job :: !Sent(db, user, a))
            && (o.Ok? ==>
                  && |o.db.apps| == |db.apps| + 1 && o.db == db.(apps := db.apps + [o.db.apps[|db.apps|]])
                  && Sent(o.db, user, |db.apps|)
                  && o.db.apps[|db.apps|] == Application(job, o.db.apps[|db.apps|].worker, Pending, None, None, None))
  {
    if user < |db.users| && db.users[user].role == Worker {
      var w := FindWorker(db.workers, user).value;
      forall a: nat | a < |db.apps|
          ensures AppliedBy(db.apps, job, w)(a) <==> db.apps[a].job == job && Sent(db, user, a) {
        assert HasWorkerUser(db.workers, user)(w);
      }
    }
  }

  /** Only the owner decides, only while the job is open, with a reason exactly when rejecting, and not to accept a
      second application. Accepting notes the time, the other decisions leave the noted time. */
  lemma DecisionDoes(db: Db, user: nat, job: nat, a: nat, status: ApplicationStatus, reason: Option<DeclineReason>)
    requires Keys(db)
    ensures var o := UpdateApplication(db, user, job, a, status, reason);
            && (o.Ok? <==>
                  && (status == Rejected <==> reason != None)
                  && job < |db.jobs| && db.jobs[job].owner == user && db.jobs[job].status == Open
                  && a < |db.apps| && db.apps[a].job == job
                  && (status == Accepted && db.apps[a].status != Accepted ==>
                        forall b: nat | b < |db.apps| && db.apps[b].job == job :: db.apps[b].status != Accepted))
            && (o.Ok? ==>
                  && |o.db.apps| == |db.apps| && o.db == db.(apps := db.apps[a := o.db.apps[a]])
                  && o.db.apps[a].status == status && o.db.apps[a].reason == reason
                  && o.db.apps[a].acceptedAt == (if status == Accepted then Some(db.now) else db.apps[a].acceptedAt)
                  && o.db.apps[a].job == job && o.db.apps[a].worker == db.apps[a].worker
                  && o.db.apps[a].confirmedAt == db.apps[a].confirmedAt)
            && (user < |db.users| && (status == Rejected <==> reason != None) && job < |db.jobs| ==>
                  (o == Fail(Forbidden) <==> db.jobs[job].owner != user))
  {
    if job < |db.jobs| {
      forall b: nat | b < |db.apps|
          ensures IsAccepted(db.apps, job)(b) <==> db.apps[b].job == job && db.apps[b].status == Accepted {
      }
    }
  }

  /** Only the applicant confirms, only an accepted application of an open job. The job is assigned, the time noted, and
      every other application of the job that was not rejected yet is, in favour of this one. */
  lemma ConfirmDoes(db: Db, user: nat, job: nat, a: nat)
    requires Keys(db)
    ensures var o := Confirm(db, user, job, a);
            && (o.Ok? <==>
                  a < |db.apps| && db.apps[a].job == job && Sent(db, user, a) && db.apps[a].status == Accepted
                      && db.jobs[job].status == Open)
            && (user < |db.users| && a < |db.apps| && db.apps[a].job == job ==>
               (o == Fail(Forbidden) <==> !Sent(db, user, a)))
            && (o.Ok? ==>
                  && |o.db.apps| == |db.apps|
                     && o.db == db.(jobs := db.jobs[job := db.jobs[job].(status := Assigned)], apps := o.db.apps)
                  && o.db.apps[a] == db.apps[a].(confirmedAt := Some(db.now))
                  && forall b: nat | b < |db.apps| && b != a ::
                       o.db.apps[b] == if db.apps[b].job == job && db.apps[b].status != Rejected
                                       then db.apps[b].(status := Rejected, reason := Some(AnotherApplicantSelected))
                                       else db.apps[b])
  {
  }

  lemma WithdrawDoes(db: Db, user: nat, job: nat, a: nat, reason: DeclineReason)
    requires Keys(db)
    ensures var o := Withdraw(db, user, job, a, reason);
            && (o.Ok? <==>
                  a < |db.apps| && db.apps[a].job == job && Sent(db, user, a) && db.apps[a].status != Rejected
                      && db.jobs[job].status == Open)
            && (user < |db.users| && a < |db.apps| && db.apps[a].job == job ==>
               (o == Fail(Forbidden) <==> !Sent(db, user, a)))
            && (o.Ok? ==> o.db == db.(apps := db.apps[a := db.apps[a].(status := Rejected, reason := Some(reason))]))
  {
  }

  // ─── The work ───────────────────────────────────────────────────────────────

  /** The user is the worker of an accepted application of the job. */
  ghost predicate WorksOn(db: Db, user: nat, job: nat) {
    exists a: nat :: a < |db.apps| && db.apps[a].job == job && db.apps[a].status == Accepted && Sent(db, user, a)
  }

  lemma LookupFindsWorker(db: Db, user: nat, job: nat)
    requires Keys(db) && HasSoleAcceptances(db.apps)
    ensures WorksOn(db, user, job) <==> AcceptedUser(db, job) == Some(user)
  {
    var found := AcceptedApp(db.apps, job);
    if found.Some? {
      assert db.apps[found.value].job == job && db.apps[found.value].status == Accepted;
    }
    if WorksOn(db, user, job) {
      var a: nat :| a < |db.apps| && db.apps[a].job == job && db.apps[a].status == Accepted && Sent(db, user, a);
      assert IsAccepted(db.apps, job)(a);
      assert found.Some? && found.value == a;
    }
  }

  /** Only the accepted worker starts an assigned job, and only its status changes. */
  lemma StartDoes(db: Db, user: nat, job: nat)
    requires Keys(db) && HasSoleAcceptances(db.apps)
    ensures var o := Start(db, user, job);
            && (o.Ok? <==> job < |db.jobs| && WorksOn(db, user, job) && db.jobs[job].status == Assigned)
            && (user < |db.users| && job < |db.jobs| ==> (o == Fail(Forbidden) <==> !WorksOn(db, user, job)))
            && (o.Ok? ==> o.db == db.(jobs := db.jobs[job := db.jobs[job].(status := InProgress)]))
  {
    LookupFindsWorker(db, user, job);
  }

  /** Owner and worker each mark a running job once. */
  lemma MarkCompleteSucceedsWhen(cfg: Settings, db: Db, user: nat, job: nat)
    requires Keys(db) && Handshake(db.jobs, db.apps) && BillingRows(db)
    ensures var o := MarkComplete(cfg, db, user, job);
            && (o.Ok? <==>
                  && job < |db.jobs| && db.jobs[job].status == InProgress
                  && if db.jobs[job].owner == user then db.jobs[job].customerDoneAt == None
                     else WorksOn(db, user, job) && db.jobs[job].workerDoneAt == None)
            && (user < |db.users| && job < |db.jobs| ==>
                  (o == Fail(Forbidden) <==> db.jobs[job].owner != user && !WorksOn(db, user, job)))
  {
    LookupFindsWorker(db, user, job);
    MarkCompleteNeverBreaks(cfg, db, user, job);
    if job < |db.jobs| && db.jobs[job].status == InProgress {
      var a := WinnerIsFound(db, job);
      assert forall b: nat | b < |db.billings| :: !BilledFor(db.billings, job)(b);
    }
  }

  /** The caller's mark is set to the time of the call. The second mark completes the job and leaves one due row of the
      flat commission, in the accepted worker's name, payable after the grace period. */
  lemma MarkCompleteDoes(cfg: Settings, db: Db, user: nat, job: nat)
    requires MarkComplete(cfg, db, user, job).Ok? && HasSoleAcceptances(db.apps)
    ensures var db' := MarkComplete(cfg, db, user, job).db;
            && job < |db.jobs| == |db'.jobs|
            && var was, row := db.jobs[job], db'.jobs[job];
            var other := if was.owner == user then was.workerDoneAt else was.customerDoneAt;
            && db' == db.(jobs := db.jobs[job := row], billings := db'.billings)
            && row == was.(status := row.status, customerDoneAt := row.customerDoneAt, workerDoneAt := row.workerDoneAt)
            && row.customerDoneAt == (if was.owner == user then Some(db.now) else was.customerDoneAt)
            && row.workerDoneAt == (if was.owner == user then was.workerDoneAt else Some(db.now))
            && row.status == (if other == None then InProgress else Completed)
            && (other == None ==> db'.billings == db.billings)
            && (other != None ==>
                  && |db'.billings| == |db.billings| + 1 && db'.billings[..|db.billings|] == db.billings
                  && var bill := db'.billings[|db.billings|];
                  && bill == Billing(bill.worker, job, cfg.commission, db.now + cfg.grace, 0, Due, None)
                  && forall a: nat | a < |db.apps| && db.apps[a].job == job && db.apps[a].status == Accepted ::
                       bill.worker == db.apps[a].worker)
  {
    forall a: nat | a < |db.apps| && db.apps[a].job == job && db.apps[a].status == Accepted
      ensures AcceptedApp(db.apps, job) == Some(a)
    {
      assert IsAccepted(db.apps, job)(a);
    }
  }

  // ─── The sweeps ─────────────────────────────────────────────────────────────

  /** The sweep charges a worker once for each of their acceptances that stayed unconfirmed for the timeout. */
  lemma AssignmentSweepDoes(cfg: Settings, db: Db, w: nat)
    requires w < |db.workers|
    ensures var db' := SweepAssignments(cfg, db);
            && db' == db.(apps := db'.apps, workers := db'.workers)
            && |db'.workers| == |db.workers|
            && db'.workers[w] == db.workers[w].(noShows := db'.workers[w].noShows)
            && db'.workers[w].noShows
               == db.workers[w].noShows
                  + |set a: nat | a < |db.apps| && db.apps[a].worker == w && db.apps[a].status == Accepted
                      && db.apps[a].confirmedAt == None
                                  && db.apps[a].acceptedAt.Some? && db.apps[a].acceptedAt.value <= db.now - cfg.timeout|
  {
    var cutoff := db.now - cfg.timeout;
    var p := (a: nat) =>
      a < |db.apps| && db.apps[a].worker == w && db.apps[a].status == Accepted && db.apps[a].confirmedAt == None
      && db.apps[a].acceptedAt.Some? && db.apps[a].acceptedAt.value <= cutoff;
    SumIsCount(|db.apps|, ExpiredOf(db.apps, cutoff, w), p);
    assert (set a: nat | a < |db.apps| && p(a))
        == set a: nat | a < |db.apps| && db.apps[a].worker == w && db.apps[a].status == Accepted
            && db.apps[a].confirmedAt == None
                        && db.apps[a].acceptedAt.Some? && db.apps[a].acceptedAt.value <= db.now - cfg.timeout;
  }

  /** The job runs, one mark was set at the cutoff or before, and the other is missing. */
  ghost predicate CustomerIsLate(row: Job, cutoff: int) {
    row.status == InProgress && row.customerDoneAt == None && exists t: int ::
        t <= cutoff && row.workerDoneAt == Some(t)
  }

  ghost predicate WorkerIsLate(row: Job, cutoff: int) {
    row.status == InProgress && row.workerDoneAt == None && exists t: int ::
        t <= cutoff && row.customerDoneAt == Some(t)
  }

  /** A job changes exactly when one side marked it at least the timeout ago and the other never did; then the missing
      mark is set to now and the job is completed. */
  lemma CompletionSweepDoes(cfg: Settings, db: Db, j: nat)
    requires j < |db.jobs|
    ensures var db', cutoff := SweepCompletions(cfg, db), db.now - cfg.timeout;
            var row := db.jobs[j];
            && db' == db.(jobs := db'.jobs, customers := db'.customers, workers := db'.workers)
               && |db'.jobs| == |db.jobs|
            && (db'.jobs[j] != row <==>
                  && row.status == InProgress
                  && ((exists t: int :: t <= cutoff && row.customerDoneAt == Some(t) && row.workerDoneAt == None)
                      || (exists t: int :: t <= cutoff && row.workerDoneAt == Some(t) && row.customerDoneAt == None)))
            && (CustomerIsLate(row, cutoff) ==>
               db'.jobs[j] == row.(customerDoneAt := Some(db.now), status := Completed))
            && (WorkerIsLate(row, cutoff) ==> db'.jobs[j] == row.(workerDoneAt := Some(db.now), status := Completed))
  {
    var row, cutoff := db.jobs[j], db.now - cfg.timeout;
    if row.customerDoneAt.Some? && row.customerDoneAt.value <= cutoff && row.workerDoneAt == None {
      var t := row.customerDoneAt.value;
      assert t <= cutoff && row.customerDoneAt == Some(t);
    }
    if row.workerDoneAt.Some? && row.workerDoneAt.value <= cutoff && row.customerDoneAt == None {
      var t := row.workerDoneAt.value;
      assert t <= cutoff && row.workerDoneAt == Some(t);
    }
  }

  lemma LateMeansStale(row: Job, cutoff: int)
    ensures CustomerIsLate(row, cutoff) <==> IsStale(row, cutoff) && row.customerDoneAt.None?
    ensures WorkerIsLate(row, cutoff) <==> IsStale(row, cutoff) && row.customerDoneAt.Some?
  {
    if row.workerDoneAt.Some? { assert row.workerDoneAt == Some(row.workerDoneAt.value); }
    if row.customerDoneAt.Some? { assert row.customerDoneAt == Some(row.customerDoneAt.value); }
  }

  /** The jobs whose owner, or whose accepted worker, went quiet. */
  ghost function OwnerLeft(db: Db, cutoff: int, user: nat): set<nat> {
    set j: nat | j < |db.jobs| && CustomerIsLate(db.jobs[j], cutoff) && db.jobs[j].owner == user
  }

  ghost function WorkerLeft(db: Db, cutoff: int, user: nat): set<nat> {
    set j: nat | j < |db.jobs| && WorkerIsLate(db.jobs[j], cutoff) && WorksOn(db, user, j)
  }

  /** Each swept job charges the side that went quiet once: its owner, or the worker of its accepted application. */
  lemma SweepChargesOwner(cfg: Settings, db: Db, c: nat)
    requires Unique(db) && c < |db.customers|
    ensures var db' := SweepCompletions(cfg, db);
            && |db'.customers| == |db.customers|
            && db'.customers[c] == db.customers[c].(noShows := db'.customers[c].noShows)
            && db'.customers[c].noShows
               == db.customers[c].noShows + |OwnerLeft(db, db.now - cfg.timeout, db.customers[c].user)|
  {
    OwnersAreCharged(db, db.now - cfg.timeout, c);
  }

  lemma SweepChargesWorker(cfg: Settings, db: Db, w: nat)
    requires Keys(db) && Unique(db) && HasSoleAcceptances(db.apps) && w < |db.workers|
    ensures IsChargedWorker(db, SweepCompletions(cfg, db), w,
            |WorkerLeft(db, db.now - cfg.timeout, db.workers[w].user)|)
  {
    WorkersAreCharged(db, db.now - cfg.timeout, w);
    SweptWorker(cfg, db, w, |WorkerLeft(db, db.now - cfg.timeout, db.workers[w].user)|);
  }

  /** The counter of worker profile w rose by n, and nothing else in the row changed. */
  predicate IsChargedWorker(db: Db, db': Db, w: nat, n: int) {
    && w < |db.workers| == |db'.workers|
    && db'.workers[w] == db.workers[w].(noShows := db.workers[w].noShows + n)
  }

  lemma SweptWorker(cfg: Settings, db: Db, w: nat, n: int)
    requires w < |db.workers| && WorkerCharge(db, db.now - cfg.timeout, w) == n
    ensures IsChargedWorker(db, SweepCompletions(cfg, db), w, n)
  {
  }

  lemma OwnersAreCharged(db: Db, cutoff: int, c: nat)
    requires Unique(db) && c < |db.customers|
    ensures CustomerCharge(db, cutoff, c) == |OwnerLeft(db, cutoff, db.customers[c].user)|
  {
    var user := db.customers[c].user;
    var p := (j: nat) => SilentCustomer(db, cutoff, j) == Some(c);
    SumIsCount(|db.jobs|, ChargesCustomer(db, cutoff, c), p);
    forall j: nat | j < |db.jobs| ensures p(j) <==> j in OwnerLeft(db, cutoff, user) {
      LateMeansStale(db.jobs[j], cutoff);
      assert HasCustomerUser(db.customers, user)(c);
    }
    assert (set j: nat | j < |db.jobs| && p(j)) == OwnerLeft(db, cutoff, user);
  }

  lemma WorkersAreCharged(db: Db, cutoff: int, w: nat)
    requires Keys(db) && Unique(db) && HasSoleAcceptances(db.apps) && w < |db.workers|
    ensures WorkerCharge(db, cutoff, w) == |WorkerLeft(db, cutoff, db.workers[w].user)|
  {
    var user := db.workers[w].user;
    var p := (j: nat) => SilentWorker(db, cutoff, j) == Some(w);
    SumIsCount(|db.jobs|, ChargesWorker(db, cutoff, w), p);
    forall j: nat | j < |db.jobs| ensures p(j) <==> j in WorkerLeft(db, cutoff, user) {
      SilentMeansLate(db, cutoff, w, j);
    }
    assert (set j: nat | j < |db.jobs| && p(j)) == WorkerLeft(db, cutoff, user);
  }

  lemma SilentMeansLate(db: Db, cutoff: int, w: nat, j: nat)
    requires Keys(db) && Unique(db) && HasSoleAcceptances(db.apps) && w < |db.workers| && j < |db.jobs|
    ensures SilentWorker(db, cutoff, j) == Some(w) <==> j in WorkerLeft(db, cutoff, db.workers[w].user)
  {
    LateMeansStale(db.jobs[j], cutoff);
    LookupFindsWorker(db, db.workers[w].user, j);
    assert HasWorkerUser(db.workers, db.workers[w].user)(w);
  }

  // ─── Reviews ────────────────────────────────────────────────────────────────

  /** A party of a completed job may review the other once, with 1 to 5 stars. The row says what was submitted, and
      it moves the count and the total of its reviewee only. */
  lemma SubmitReviewDoes(db: Db, user: nat, job: nat, rating: int)
    requires Keys(db) && Handshake(db.jobs, db.apps)
    ensures var o := SubmitReview(db, user, job, rating);
            && (o.Ok? <==>
                  && user < |db.users| && 1 <= rating <= 5 && job < |db.jobs| && db.jobs[job].status == Completed
                  && (db.jobs[job].owner == user || WorksOn(db, user, job))
                  && forall i: nat | i < |db.reviews| && db.reviews[i].job == job :: db.reviews[i].reviewer != user)
            && (user < |db.users| && 1 <= rating <= 5 && job < |db.jobs| ==>
                  (o == Fail(Forbidden) <==> db.jobs[job].owner != user && !WorksOn(db, user, job)))
            && (o.Ok? ==>
                  && o.db == db.(reviews := o.db.reviews, workers := o.db.workers)
                  && |o.db.reviews| == |db.reviews| + 1 && o.db.reviews[..|db.reviews|] == db.reviews
                  && var r := o.db.reviews[|db.reviews|];
                  && r.job == job && r.reviewer == user && r.rating == rating && r.createdAt == db.now && !r.flagged
                  && (r.role == Customer <==> db.jobs[job].owner == user)
                  && (if db.jobs[job].owner == user then WorksOn(db, r.reviewee, job)
                     else r.reviewee == db.jobs[job].owner)
                  && forall u: nat ::
                       && ReviewCount(o.db.reviews, u) == ReviewCount(db.reviews, u)
                          + (if u == r.reviewee then 1 else 0)
                       && RatingTotal(o.db.reviews, u) == RatingTotal(db.reviews, u)
                          + (if u == r.reviewee then rating else 0))
  {
    var o := SubmitReview(db, user, job, rating);
    LookupFindsWorker(db, user, job);
    SubmitReviewNeverBreaks(db, user, job, rating);
    if job < |db.jobs| {
      forall i: nat | i < |db.reviews|
        ensures ReviewedBy(db.reviews, job, user)(i) <==> db.reviews[i].job == job && db.reviews[i].reviewer == user
      {
      }
    }
    if o.Ok? {
      var r := o.db.reviews[|db.reviews|];
      LookupFindsWorker(db, r.reviewee, job);
      forall u: nat
        ensures ReviewCount(o.db.reviews, u) == ReviewCount(db.reviews, u) + (if u == r.reviewee then 1 else 0)
        ensures RatingTotal(o.db.reviews, u) == RatingTotal(db.reviews, u) + (if u == r.reviewee then rating else 0)
      {
        AppendAdds(db.reviews, r, u);
      }
    }
  }

  /** A removal raises the flag of a visible review, once, and takes it out of the count and the total of its
      reviewee. */
  lemma RemoveReviewDoes(db: Db, review: nat)
    ensures var o := RemoveReview(db, review);
            && (o.Ok? <==> review < |db.reviews| && !db.reviews[review].flagged)
            && (o.Ok? ==>
                  var r := db.reviews[review];
                  && o.db == db.(reviews := db.reviews[review := r.(flagged := true)], workers := o.db.workers)
                  && forall u: nat ::
                       && ReviewCount(o.db.reviews, u)
                          == ReviewCount(db.reviews, u) - (if u == r.reviewee then 1 else 0)
                       && RatingTotal(o.db.reviews, u)
                          == RatingTotal(db.reviews, u) - (if u == r.reviewee then r.rating else 0))
  {
    var o := RemoveReview(db, review);
    if o.Ok? {
      forall u: nat
        ensures ReviewCount(o.db.reviews, u)
                == ReviewCount(db.reviews, u) - (if u == db.reviews[review].reviewee then 1 else 0)
        ensures RatingTotal(o.db.reviews, u)
                == RatingTotal(db.reviews, u) - (if u == db.reviews[review].reviewee
                    then db.reviews[review].rating else 0)
      {
        FlagTakesOut(db.reviews, review, u);
      }
    }
  }

  /** The snapshot of the reviewed worker counts the new review in, and every other profile stays. */
  lemma SubmitReviewMovesSnapshot(db: Db, user: nat, job: nat, rating: int, w: nat)
    requires Keys(db) && RatingsAgree(db.workers, db.reviews) && SubmitReview(db, user, job, rating).Ok?
             && w < |db.workers|
    ensures var db' := SubmitReview(db, user, job, rating).db;
            && |db'.workers| == |db.workers| && |db'.reviews| == |db.reviews| + 1
            && var before, after := db.workers[w], db'.workers[w];
            && after == before.(averageRating := after.averageRating, reviewCount := after.reviewCount)
            && if db'.reviews[|db.reviews|].reviewee != before.user then after == before
               else
                 && after.reviewCount == before.reviewCount + 1
                 && after.averageRating.Some?
                 && IsRounded(100 * (RatingTotal(db.reviews, before.user) + rating), after.reviewCount,
                    after.averageRating.value)
  {
    var db' := SubmitReview(db, user, job, rating).db;
    SubmitReviewRatings(db, user, job, rating);
    AppendAdds(db.reviews, db'.reviews[|db.reviews|], db.workers[w].user);
    CountMeans(db.reviews, db.workers[w].user);
  }

  /** A removal counts it out again. */
  lemma RemoveReviewMovesSnapshot(db: Db, review: nat, w: nat)
    requires Keys(db) && Handshake(db.jobs, db.apps) && ReviewRows(db) && RatingsAgree(db.workers, db.reviews)
    requires RemoveReview(db, review).Ok? && w < |db.workers|
    ensures var db' := RemoveReview(db, review).db;
            && |db'.workers| == |db.workers|
            && var before, after := db.workers[w], db'.workers[w];
            && after == before.(averageRating := after.averageRating, reviewCount := after.reviewCount)
            && if db.reviews[review].reviewee != before.user then after == before
               else
                 && after.reviewCount == before.reviewCount - 1
                 && (after.averageRating.None? <==> after.reviewCount == 0)
                 && (after.averageRating.Some? ==>
                       IsRounded(100 * (RatingTotal(db.reviews, before.user) - db.reviews[review].rating),
                           after.reviewCount, after.averageRating.value))
  {
    RemoveReviewRatings(db, review);
    FlagTakesOut(db.reviews, review, db.workers[w].user);
    CountMeans(db.reviews, db.workers[w].user);
    CountMeans(RemoveReview(db, review).db.reviews, db.workers[w].user);
  }

  // ─── Commission ─────────────────────────────────────────────────────────────

  /** Marking a row paid records one settled cash payment of all that is owed, by the worker's user, linked both ways;
      the money is then held. */
  lemma MarkPaidDoes(db: Db, b: nat, admin: nat)
    requires Keys(db) && BillingRows(db) && BillingBalance(db)
    ensures var o := MarkPaid(db, b, admin);
            && (o.Ok? <==> b < |db.billings| && db.billings[b].status == Due && db.billings[b].owed > 0)
            && (o.Ok? ==>
                  var was := db.billings[b];
                  && o.db == db.(billings := o.db.billings, payments := o.db.payments)
                  && o.db.billings == db.billings[b :=
                     was.(paid := was.owed, status := Paid, payment := Some(|db.payments|))]
                  && o.db.payments == db.payments
                     + [Payment(db.workers[was.worker].user, was.owed, Cash, None, Some(b), admin, Settled)]
                  && HeldAgainst(o.db.payments, b) == was.owed)
  {
    var o := MarkPaid(db, b, admin);
    if b < |db.billings| { assert Balanced(db, b); }
    if o.Ok? {
      assert forall p: nat | p < |db.payments| :: db.payments[p].billing != Some(b);
      SumSingle(|o.db.payments|, StillHeld(o.db.payments, b), |db.payments|);
    }
  }

  lemma RefundDoes(db: Db, p: nat)
    ensures var o := Refund(db, p);
            && (o.Ok? <==> p < |db.payments| && db.payments[p].means == Cash)
            && (o.Ok? ==> o.db == db.(payments := db.payments[p := db.payments[p].(status := Refunded)]))
  {
  }
}
