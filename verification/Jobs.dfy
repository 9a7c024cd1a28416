/** Registration and the job endpoints that only touch the users and jobs tables
    (auth.register, crud_jobs). */
module Jobs {
  import opened Prelude
  import opened Tables
  import opened Ratings
  import opened Invariant

  function HasEmail(users: seq<User>, email: string): nat -> bool {
    (u: nat) => u < |users| && users[u].email == email
  }

  function HasUsername(users: seq<User>, username: string): nat -> bool {
    (u: nat) => u < |users| && users[u].username == username
  }

  /** A new user and the profile of their role, in one transaction. */
  function Register(db: Db, row: User): Outcome {
    if First(|db.users|, HasEmail(db.users, row.email)).Some? then Fail(DuplicateValue)
    else if First(|db.users|, HasUsername(db.users, row.username)).Some? then Fail(DuplicateValue)
    else
      var user := |db.users|;
      match row.role
      case Customer => Ok(db.(users := db.users + [row], customers := db.customers + [CustomerProfile(user, 0)]))
      case Worker => Ok(db.(users := db.users + [row], workers := db.workers + [WorkerProfile(user, None, 0, 0)]))
  }

  predicate IsTitle(title: string) { 1 <= |title| <= 255 }

  /** What the database checks of a job's budget. */
  predicate IsBudget(low: Option<int>, high: Option<int>) {
    low.Some? && high.Some? ==> low.value <= high.value
  }

  predicate IsAmount(amount: Option<int>) { amount.Some? ==> amount.value >= 0 }

  /** The body of a new job. categoryKnown is false when it names a trade category that does not exist. */
  datatype Draft = Draft(title: string, budgetMin: Option<int>, budgetMax: Option<int>, categoryKnown: bool)

  predicate IsDraft(d: Draft) {
    IsTitle(d.title) && IsAmount(d.budgetMin) && IsAmount(d.budgetMax) && IsBudget(d.budgetMin, d.budgetMax)
  }

  function CreateJob(db: Db, user: nat, draft: Draft): Outcome {
    if user >= |db.users| then Fail(Unauthorized)
    else if !IsDraft(draft) then Fail(InvalidPayload)
    else if !db.users[user].role.Customer? then Fail(Forbidden)
    else if ActiveCount(db.jobs, user) >= MAX_ACTIVE_JOBS then Fail(BadRequest)
    else if !draft.categoryKnown then Fail(NotFound)
    else Ok(db.(jobs := db.jobs
        + [Job(user, draft.title, draft.budgetMin, draft.budgetMax, Open, db.now, None, None, false)]))
  }

  /** The body of a job PATCH. */
  datatype JobPatch = JobPatch(title: Patch<string>, budgetMin: Patch<int>, budgetMax: Patch<int>,
                               status: Patch<JobStatus>, categoryKnown: bool)

  /** Every field is optional, so the range is only checked when both ends are given. */
  predicate IsPatch(p: JobPatch) {
    && (p.title.To? ==> IsTitle(p.title.value))
    && IsAmount(Patched(p.budgetMin, None)) && IsAmount(Patched(p.budgetMax, None))
    && IsBudget(Patched(p.budgetMin, None), Patched(p.budgetMax, None))
  }

  /** The columns of a job cannot take the patch: the title and the status are not nullable, and the stored
      end of the budget may not fit the new one. */
  predicate Refuses(row: Job, p: JobPatch) {
    p.title.Null? || p.status.Null?
        || !IsBudget(Patched(p.budgetMin, row.budgetMin), Patched(p.budgetMax, row.budgetMax))
  }

  function PatchJob(row: Job, p: JobPatch): Job {
    row.(title := if p.title.To? then p.title.value else row.title,
         budgetMin := Patched(p.budgetMin, row.budgetMin),
         budgetMax := Patched(p.budgetMax, row.budgetMax),
         status := if p.status.To? then p.status.value else row.status)
  }

  function UpdateJob(db: Db, user: nat, job: nat, patch: JobPatch): Outcome {
    if user >= |db.users| then Fail(Unauthorized)
    else if !IsPatch(patch) then Fail(InvalidPayload)
    else if !db.users[user].role.Customer? then Fail(Forbidden)
    else if job >= |db.jobs| then Fail(NotFound)
    else if db.jobs[job].owner != user then Fail(Forbidden)
    else if db.jobs[job].deleted then Fail(NotFound)
    else if !db.jobs[job].status.Open? then Fail(BadRequest)
    else if !patch.categoryKnown then Fail(NotFound)
    else if Refuses(db.jobs[job], patch) then Fail(IntegrityError)
    else Ok(db.(jobs := db.jobs[job := PatchJob(db.jobs[job], patch)]))
  }

  function DeleteJob(db: Db, user: nat, job: nat): Outcome {
    if user >= |db.users| then Fail(Unauthorized)
    else if !db.users[user].role.Customer? then Fail(Forbidden)
    else if job >= |db.jobs| || db.jobs[job].deleted then Fail(NotFound)
    else if db.jobs[job].owner != user then Fail(Forbidden)
    else Ok(db.(jobs := db.jobs[job := db.jobs[job].(deleted := true)]))
  }

  // ─── Preservation ───────────────────────────────────────────────────────────

  lemma RegisterKeeps(db: Db, row: User)
    requires Inv(db) && Register(db, row).Ok?
    ensures var db' := Register(db, row).db; Inv(db') && Evolves(db, db')
  {
    var db' := Register(db, row).db;
    RegisterKeys(db, row);
    RegisterUnique(db, row);
    RegisterEvolves(db, row);
    Carry(db, db');
    NothingVisibleYet(db);
    RegisterRatings(db, row);
  }

  lemma RegisterEvolves(db: Db, row: User)
    requires Register(db, row).Ok?
    ensures Evolves(db, Register(db, row).db)
  {
  }

  lemma RegisterRatings(db: Db, row: User)
    requires RatingsAgree(db.workers, db.reviews) && ReviewCount(db.reviews, |db.users|) == 0 && Register(db, row).Ok?
    ensures RatingsAgree(Register(db, row).db.workers, db.reviews)
  {
  }

  lemma RegisterKeys(db: Db, row: User)
    requires Keys(db) && Register(db, row).Ok?
    ensures Keys(Register(db, row).db)
  {
  }

  lemma RegisterUnique(db: Db, row: User)
    requires Keys(db) && Unique(db) && Register(db, row).Ok?
    ensures Unique(Register(db, row).db)
  {
    var user := |db.users|;
    match row.role {
      case Customer => AnotherCustomer(db.customers, CustomerProfile(user, 0));
      case Worker => AnotherWorker(db.workers, WorkerProfile(user, None, 0, 0));
    }
  }

  /** Whoever is found stays found, and the new profile is found too. */
  lemma AnotherCustomer(customers: seq<CustomerProfile>, row: CustomerProfile)
    ensures forall u: nat | u == row.user || FindCustomer(customers, u).Some? ::
            FindCustomer(customers + [row], u).Some?
  {
    forall u: nat | u == row.user || FindCustomer(customers, u).Some? ensures FindCustomer(customers + [row], u).Some? {
      var c := if u == row.user then |customers| else FindCustomer(customers, u).value;
      assert HasCustomerUser(customers + [row], u)(c);
    }
  }

  lemma AnotherWorker(workers: seq<WorkerProfile>, row: WorkerProfile)
    ensures forall u: nat | u == row.user || FindWorker(workers, u).Some? :: FindWorker(workers + [row], u).Some?
  {
    forall u: nat | u == row.user || FindWorker(workers, u).Some? ensures FindWorker(workers + [row], u).Some? {
      var w := if u == row.user then |workers| else FindWorker(workers, u).value;
      assert HasWorkerUser(workers + [row], u)(w);
    }
  }

  /** Nobody has reviewed a user who is not there yet. */
  lemma NothingVisibleYet(db: Db)
    requires Inv(db)
    ensures ReviewCount(db.reviews, |db.users|) == 0
  {
    forall i: nat | i < |db.reviews| ensures db.reviews[i].reviewee < |db.users| {
      var a := WinnerIsFound(db, db.reviews[i].job);
    }
    SumConstant(|db.reviews|, VisibleOne(db.reviews, |db.users|), 0);
  }

  lemma CreateJobKeeps(db: Db, user: nat, draft: Draft)
    requires Inv(db) && CreateJob(db, user, draft).Ok?
    ensures var db' := CreateJob(db, user, draft).db; Inv(db') && Evolves(db, db')
  {
    var db' := CreateJob(db, user, draft).db;
    CreateJobEvolves(db, user, draft);
    CreateJobKeys(db, user, draft);
    CreateJobHandshake(db, user, draft);
    Carry(db, db');
    CreateJobActive(db, user, draft);
  }

  lemma CreateJobActive(db: Db, user: nat, draft: Draft)
    requires ActiveLimit(db.jobs) && CreateJob(db, user, draft).Ok?
    ensures ActiveLimit(CreateJob(db, user, draft).db.jobs)
  {
    var jobs' := CreateJob(db, user, draft).db.jobs;
    forall u: nat ensures ActiveCount(jobs', u) <= MAX_ACTIVE_JOBS {
      SumSame(|db.jobs|, ActiveJob(db.jobs, u), ActiveJob(jobs', u));
      assert ActiveCount(db.jobs, u) <= MAX_ACTIVE_JOBS;
    }
  }

  lemma CreateJobEvolves(db: Db, user: nat, draft: Draft)
    requires CreateJob(db, user, draft).Ok?
    ensures Evolves(db, CreateJob(db, user, draft).db)
  {
  }

  lemma CreateJobKeys(db: Db, user: nat, draft: Draft)
    requires Keys(db) && Unique(db) && CreateJob(db, user, draft).Ok?
    ensures var db' := CreateJob(db, user, draft).db; Keys(db') && Unique(db')
  {
  }

  lemma CreateJobHandshake(db: Db, user: nat, draft: Draft)
    requires Handshake(db.jobs, db.apps) && Marks(db.jobs) && CreateJob(db, user, draft).Ok?
    ensures var db' := CreateJob(db, user, draft).db; Handshake(db'.jobs, db'.apps) && Marks(db'.jobs)
  {
  }

  /** Replacing a job that no handshake has settled, or only its deletion mark. */
  lemma UnsettledUpdate(db: Db, job: nat, row: Job)
    requires Inv(db) && job < |db.jobs| && JobEvolves(db.jobs[job], row) && MarksMatch(row)
    requires row == db.jobs[job].(deleted := row.deleted) || (!IsSettled(db.jobs[job].status) && !IsSettled(row.status))
    requires IsActive(row) ==> IsActive(db.jobs[job])
    ensures var db' := db.(jobs := db.jobs[job := row]); Inv(db') && Evolves(db, db')
  {
    var db' := db.(jobs := db.jobs[job := row]);
    JobUpdateEvolves(db, job, row);
    KeysAfterUpdate(db, db');
    HandshakeAfterUpdate(db, job, row);
    Carry(db, db');
    ActiveAfterUpdate(db.jobs, job, row);
  }

  lemma HandshakeAfterUpdate(db: Db, job: nat, row: Job)
    requires Handshake(db.jobs, db.apps) && job < |db.jobs|
    requires IsSettled(row.status) == IsSettled(db.jobs[job].status)
    ensures Handshake(db.jobs[job := row], db.apps)
  {
  }

  predicate IsHarmless(patch: JobPatch) {
    patch.status.To? ==> patch.status.value.Open? || patch.status.value.Cancelled?
  }

  /** A PATCH keeps the invariant exactly when it does not write ASSIGNED, IN_PROGRESS or
      COMPLETED: the endpoint accepts any status for an OPEN job, handshake or not. */
  lemma UpdateJobKeepsExactlyWhen(db: Db, user: nat, job: nat, patch: JobPatch)
    requires Inv(db) && UpdateJob(db, user, job, patch).Ok?
    ensures Inv(UpdateJob(db, user, job, patch).db) <==> IsHarmless(patch)
    ensures IsHarmless(patch) ==> Evolves(db, UpdateJob(db, user, job, patch).db)
  {
    var db' := UpdateJob(db, user, job, patch).db;
    if IsHarmless(patch) {
      assert MarksMatch(db.jobs[job]);
      UnsettledUpdate(db, job, PatchJob(db.jobs[job], patch));
    } else {
      assert IsSettled(db'.jobs[job].status);
      forall a: nat ensures !IsWinner(db'.apps, job, a) {
      }
    }
  }

  lemma DeleteJobKeeps(db: Db, user: nat, job: nat)
    requires Inv(db) && DeleteJob(db, user, job).Ok?
    ensures var db' := DeleteJob(db, user, job).db; Inv(db') && Evolves(db, db')
  {
    assert MarksMatch(db.jobs[job]);
    UnsettledUpdate(db, job, db.jobs[job].(deleted := true));
  }
}
