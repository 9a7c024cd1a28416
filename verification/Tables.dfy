/** The rows of the marketplace's database and the queries the services share.

    A table is a sequence and the primary key of a row is its position: ids are
    handed out in increasing order and no modelled operation removes a row.
    Money is in hundredths of the currency unit, times are in seconds. */
module Tables {
  import opened Prelude

  datatype Role = Customer | Worker

  datatype User = User(role: Role, email: string, username: string)

  datatype JobStatus = Open | Assigned | InProgress | Completed | Cancelled

  datatype ApplicationStatus = Pending | Accepted | Rejected

  datatype DeclineReason =
    | PriceDisagreement | ScheduleConflict | ScopeMismatch | WorkerUnavailable
    | Unresponsive | AnotherApplicantSelected | Other

  datatype Job = Job(owner: nat, title: string, budgetMin: Option<int>, budgetMax: Option<int>,
                     status: JobStatus, createdAt: int,
                     customerDoneAt: Option<int>, workerDoneAt: Option<int>, deleted: bool)

  datatype Application = Application(job: nat, worker: nat, status: ApplicationStatus,
                                     acceptedAt: Option<int>, confirmedAt: Option<int>,
                                     reason: Option<DeclineReason>)

  datatype WorkerProfile = WorkerProfile(user: nat, averageRating: Option<int>, reviewCount: int, noShows: int)

  datatype CustomerProfile = CustomerProfile(user: nat, noShows: int)

  /** role is the role in which the reviewer wrote. */
  datatype Review = Review(job: nat, reviewer: nat, reviewee: nat, role: Role,
                           rating: int, createdAt: int, flagged: bool)

  datatype BillingStatus = Due | Paid

  datatype Billing = Billing(worker: nat, job: nat, owed: int, dueAt: int,
                             paid: int, status: BillingStatus, payment: Option<nat>)

  datatype PaymentMethod = Cash | Chargily

  datatype PaymentStatus = Settled | Refunded

  /** billing is the payment's subscription_id; job and billing exclude each other. */
  datatype Payment = Payment(payer: nat, amount: int, means: PaymentMethod, job: Option<nat>, billing: Option<nat>,
                             recordedBy: nat, status: PaymentStatus)

  datatype Db = Db(users: seq<User>, customers: seq<CustomerProfile>, workers: seq<WorkerProfile>,
                   jobs: seq<Job>, apps: seq<Application>, reviews: seq<Review>,
                   billings: seq<Billing>, payments: seq<Payment>, now: int)

  const EMPTY := Db([], [], [], [], [], [], [], [], 0)

  /** Deployment settings: the handshake timeout, the flat commission and its grace period. */
  datatype Settings = Settings(timeout: int, commission: int, grace: int)

  datatype Error =
    | Unauthorized | NotFound | Forbidden | BadRequest | InvalidPayload | DuplicateValue
    | IntegrityError    // a database constraint refused the write
    | AssertionFailure  // an assert statement of the service failed

  /** Late is a failure after the request has committed a part of its work. */
  datatype Outcome = Ok(db: Db) | Fail(error: Error) | Late(error: Error, db: Db)

  /** The state after a request: what was not committed rolls back. */
  function After(db: Db, o: Outcome): Db {
    if o.Fail? then db else o.db
  }

  predicate Raises(o: Outcome, error: Error) {
    !o.Ok? && o.error == error
  }

  // ─── Queries ────────────────────────────────────────────────────────────────

  function IsAccepted(apps: seq<Application>, job: nat): nat -> bool {
    (a: nat) => a < |apps| && apps[a].job == job && apps[a].status.Accepted?
  }

  function AcceptedApp(apps: seq<Application>, job: nat): Option<nat> {
    First(|apps|, IsAccepted(apps, job))
  }

  /** get_accepted_worker_profile_id: one of the ACCEPTED applications, if there is any. */
  function AcceptedWorker(apps: seq<Application>, job: nat): Option<nat> {
    var a := AcceptedApp(apps, job);
    if a.Some? then Some(apps[a.value].worker) else None
  }

  /** get_accepted_worker_user_id: the same, joined to the profile's user. */
  function AcceptedUser(db: Db, job: nat): Option<nat> {
    var w := AcceptedWorker(db.apps, job);
    if w.Some? && w.value < |db.workers| then Some(db.workers[w.value].user) else None
  }

  /** What the unordered LIMIT 1 lookup of a job's accepted worker may answer. */
  ghost predicate MayAnswer(apps: seq<Application>, job: nat, r: Option<nat>) {
    match r
    case None => forall a: nat | a < |apps| :: !IsAccepted(apps, job)(a)
    case Some(w) => exists a: nat | a < |apps| :: IsAccepted(apps, job)(a) && apps[a].worker == w
  }

  function HasWorkerUser(workers: seq<WorkerProfile>, user: nat): nat -> bool {
    (w: nat) => w < |workers| && workers[w].user == user
  }

  function FindWorker(workers: seq<WorkerProfile>, user: nat): Option<nat> {
    First(|workers|, HasWorkerUser(workers, user))
  }

  function HasCustomerUser(customers: seq<CustomerProfile>, user: nat): nat -> bool {
    (c: nat) => c < |customers| && customers[c].user == user
  }

  function FindCustomer(customers: seq<CustomerProfile>, user: nat): Option<nat> {
    First(|customers|, HasCustomerUser(customers, user))
  }

  predicate IsActive(job: Job) {
    !job.deleted && (job.status.Open? || job.status.Assigned? || job.status.InProgress?)
  }

  function ActiveJob(jobs: seq<Job>, user: nat): nat -> int {
    (j: nat) => if j < |jobs| && jobs[j].owner == user && IsActive(jobs[j]) then 1 else 0
  }

  function ActiveCount(jobs: seq<Job>, user: nat): int {
    SumTo(|jobs|, ActiveJob(jobs, user))
  }

  /** ASSIGNED or later on the path to completion: both halves of the handshake are in. */
  predicate IsSettled(s: JobStatus) {
    s.Assigned? || s.InProgress? || s.Completed?
  }
}
