/** The whole protocol as one state machine, and what holds over every run of it. */
module Marketplace {
  import opened Prelude
  import opened Tables
  import opened Invariant
  import opened Jobs
  import opened Lifecycle
  import opened Timeouts
  import opened Reviewing
  import opened Billings

  datatype Step =
    | DoRegister(row: User)
    | DoCreateJob(user: nat, draft: Draft)
    | DoUpdateJob(user: nat, job: nat, patch: JobPatch)
    | DoDeleteJob(user: nat, job: nat)
    | DoApply(user: nat, job: nat)
    | DoUpdateApplication(user: nat, job: nat, app: nat, status: ApplicationStatus, reason: Option<DeclineReason>)
    | DoConfirm(user: nat, job: nat, app: nat)
    | DoWithdraw(user: nat, job: nat, app: nat, why: DeclineReason)
    | DoStart(user: nat, job: nat)
    | DoMarkComplete(user: nat, job: nat)
    | DoSubmitReview(user: nat, job: nat, rating: int)
    | DoRemoveReview(review: nat)
    | DoMarkPaid(billing: nat, admin: nat)
    | DoRefund(payment: nat)
    | DoSweepAssignments
    | DoSweepCompletions
    | DoWait(seconds: nat)

  function Wait(db: Db, seconds: nat): Outcome { Ok(db.(now := db.now + seconds)) }

  function Next(cfg: Settings, db: Db, step: Step): Outcome {
    match step
    case DoRegister(row) => Register(db, row)
    case DoCreateJob(user, draft) => CreateJob(db, user, draft)
    case DoUpdateJob(user, job, patch) => UpdateJob(db, user, job, patch)
    case DoDeleteJob(user, job) => DeleteJob(db, user, job)
    case DoApply(user, job) => Apply(db, user, job)
    case DoUpdateApplication(user, job, app, status, reason) => UpdateApplication(db, user, job, app, status, reason)
    case DoConfirm(user, job, app) => Confirm(db, user, job, app)
    case DoWithdraw(user, job, app, why) => Withdraw(db, user, job, app, why)
    case DoStart(user, job) => Start(db, user, job)
    case DoMarkComplete(user, job) => MarkComplete(cfg, db, user, job)
    case DoSubmitReview(user, job, rating) => SubmitReview(db, user, job, rating)
    case DoRemoveReview(review) => RemoveReview(db, review)
    case DoMarkPaid(billing, admin) => MarkPaid(db, billing, admin)
    case DoRefund(payment) => Refund(db, payment)
    case DoSweepAssignments => Ok(SweepAssignments(cfg, db))
    case DoSweepCompletions => Ok(SweepCompletions(cfg, db))
    case DoWait(seconds) => Wait(db, seconds)
  }

  function Following(cfg: Settings, db: Db, step: Step): Db { After(db, Next(cfg, db, step)) }

  function Run(cfg: Settings, db: Db, steps: seq<Step>): Db
    decreases |steps|
  {
    if steps == [] then db else Run(cfg, Following(cfg, db, steps[0]), steps[1..])
  }

  /** The step does not write ASSIGNED, IN_PROGRESS or COMPLETED through a job PATCH. */
  predicate IsSafe(step: Step) {
    step.DoUpdateJob? ==> IsHarmless(step.patch)
  }

  predicate AllSafe(steps: seq<Step>) {
    forall i: nat | i < |steps| :: IsSafe(steps[i])
  }

  // ─── The invariant ──────────────────────────────────────────────────────────

  lemma EmptyIsSound()
    ensures Inv(EMPTY)
  {
  }

  lemma WaitKeeps(db: Db, seconds: nat)
    requires Inv(db)
    ensures var db' := Wait(db, seconds).db; Inv(db') && Evolves(db, db')
  {
    var db' := Wait(db, seconds).db;
    WaitEvolves(db, seconds);
    KeysAfterUpdate(db, db');
    Carry(db, db');
  }

  lemma WaitEvolves(db: Db, seconds: nat)
    ensures Evolves(db, Wait(db, seconds).db)
  {
  }

  predicate IsHandshakeStep(step: Step) {
    step.DoApply? || step.DoUpdateApplication? || step.DoConfirm? || step.DoWithdraw? || step.DoStart?
        || step.DoMarkComplete?
  }

  lemma HandshakeStepKeeps(cfg: Settings, db: Db, step: Step)
    requires Inv(db) && IsHandshakeStep(step) && Next(cfg, db, step).Ok?
    ensures Inv(Next(cfg, db, step).db) && Evolves(db, Next(cfg, db, step).db)
  {
    if step.DoMarkComplete? {
      MarkCompleteKeeps(cfg, db, step.user, step.job);
      SameOutcome(db, MarkComplete(cfg, db, step.user, step.job), Next(cfg, db, step));
    } else if step.DoApply? || step.DoStart? {
      ApplyOrStartKeeps(cfg, db, step);
    } else {
      DecisionKeeps(cfg, db, step);
    }
  }

  lemma ApplyOrStartKeeps(cfg: Settings, db: Db, step: Step)
    requires Inv(db) && (step.DoApply? || step.DoStart?) && Next(cfg, db, step).Ok?
    ensures Inv(Next(cfg, db, step).db) && Evolves(db, Next(cfg, db, step).db)
  {
    if step.DoApply? {
      ApplyKeeps(db, step.user, step.job);
      SameOutcome(db, Apply(db, step.user, step.job), Next(cfg, db, step));
    } else {
      StartKeeps(db, step.user, step.job);
      SameOutcome(db, Start(db, step.user, step.job), Next(cfg, db, step));
    }
  }

  lemma DecisionKeeps(cfg: Settings, db: Db, step: Step)
    requires Inv(db) && (step.DoUpdateApplication? || step.DoConfirm? || step.DoWithdraw?) && Next(cfg, db, step).Ok?
    ensures Inv(Next(cfg, db, step).db) && Evolves(db, Next(cfg, db, step).db)
  {
    StepIsCall(cfg, db, step);
    match step {
      case DoUpdateApplication(user, job, app, status, reason) =>
        UpdateApplicationKeeps(db, user, job, app, status, reason);
        SameOutcome(db, UpdateApplication(db, user, job, app, status, reason), Next(cfg, db, step));
      case DoConfirm(user, job, app) =>
        ConfirmKeeps(db, user, job, app);
        SameOutcome(db, Confirm(db, user, job, app), Next(cfg, db, step));
      case DoWithdraw(user, job, app, why) =>
        WithdrawKeeps(db, user, job, app, why);
        SameOutcome(db, Withdraw(db, user, job, app, why), Next(cfg, db, step));
    }
  }

  /** The calls behind some of the steps. */
  lemma StepIsCall(cfg: Settings, db: Db, step: Step)
    ensures step.DoUpdateApplication? ==>
            Next(cfg, db, step) == UpdateApplication(db, step.user, step.job, step.app, step.status, step.reason)
    ensures step.DoConfirm? ==> Next(cfg, db, step) == Confirm(db, step.user, step.job, step.app)
    ensures step.DoWithdraw? ==> Next(cfg, db, step) == Withdraw(db, step.user, step.job, step.app, step.why)
    ensures step.DoMarkPaid? ==> Next(cfg, db, step) == MarkPaid(db, step.billing, step.admin)
    ensures step.DoRefund? ==> Next(cfg, db, step) == Refund(db, step.payment)
    ensures step.DoSweepAssignments? ==> Next(cfg, db, step) == Ok(SweepAssignments(cfg, db))
    ensures step.DoSweepCompletions? ==> Next(cfg, db, step) == Ok(SweepCompletions(cfg, db))
  {
  }

  lemma SameOutcome(db: Db, o: Outcome, o': Outcome)
    requires o.Ok? && o == o' && Inv(o.db) && Evolves(db, o.db)
    ensures Inv(o'.db) && Evolves(db, o'.db)
  {
  }

  predicate IsJobStep(step: Step) {
    step.DoRegister? || step.DoCreateJob? || step.DoUpdateJob? || step.DoDeleteJob?
  }

  lemma JobStepKeeps(cfg: Settings, db: Db, step: Step)
    requires Inv(db) && IsSafe(step) && IsJobStep(step) && Next(cfg, db, step).Ok?
    ensures Inv(Next(cfg, db, step).db) && Evolves(db, Next(cfg, db, step).db)
  {
    match step {
      case DoRegister(row) => RegisterKeeps(db, row);
      case DoCreateJob(user, draft) => CreateJobKeeps(db, user, draft);
      case DoUpdateJob(user, job, patch) => UpdateJobKeepsExactlyWhen(db, user, job, patch);
      case DoDeleteJob(user, job) => DeleteJobKeeps(db, user, job);
    }
  }

  lemma ReviewStepKeeps(cfg: Settings, db: Db, step: Step)
    requires Inv(db) && (step.DoSubmitReview? || step.DoRemoveReview?) && Next(cfg, db, step).Ok?
    ensures Inv(Next(cfg, db, step).db) && Evolves(db, Next(cfg, db, step).db)
  {
    if step.DoSubmitReview? {
      SubmitReviewKeeps(db, step.user, step.job, step.rating);
    } else {
      RemoveReviewKeeps(db, step.review);
    }
  }

  lemma LedgerStepKeeps(cfg: Settings, db: Db, step: Step)
    requires Inv(db) && (step.DoMarkPaid? || step.DoRefund?) && Next(cfg, db, step).Ok?
    ensures Inv(Next(cfg, db, step).db) && Evolves(db, Next(cfg, db, step).db)
  {
    StepIsCall(cfg, db, step);
    if step.DoMarkPaid? {
      MarkPaidKeeps(db, step.billing, step.admin);
      SameOutcome(db, MarkPaid(db, step.billing, step.admin), Next(cfg, db, step));
    } else {
      RefundKeeps(db, step.payment);
      SameOutcome(db, Refund(db, step.payment), Next(cfg, db, step));
    }
  }

  predicate IsSweep(step: Step) {
    step.DoSweepAssignments? || step.DoSweepCompletions?
  }

  lemma SweepKeeps(cfg: Settings, db: Db, step: Step)
    requires Inv(db) && IsSweep(step)
    ensures Inv(Next(cfg, db, step).db) && Evolves(db, Next(cfg, db, step).db)
  {
    StepIsCall(cfg, db, step);
    if step.DoSweepAssignments? {
      SweepAssignmentsKeeps(cfg, db);
      SameOutcome(db, Ok(SweepAssignments(cfg, db)), Next(cfg, db, step));
    } else {
      SweepCompletionsKeeps(cfg, db);
      SameOutcome(db, Ok(SweepCompletions(cfg, db)), Next(cfg, db, step));
    }
  }

  /** Every successful step keeps the invariant and undoes nothing. */
  lemma StepKeeps(cfg: Settings, db: Db, step: Step)
    requires Inv(db) && IsSafe(step) && Next(cfg, db, step).Ok?
    ensures Inv(Next(cfg, db, step).db) && Evolves(db, Next(cfg, db, step).db)
  {
    if IsHandshakeStep(step) {
      HandshakeStepKeeps(cfg, db, step);
    } else if IsJobStep(step) {
      JobStepKeeps(cfg, db, step);
    } else if IsSweep(step) {
      SweepKeeps(cfg, db, step);
    } else if step.DoSubmitReview? || step.DoRemoveReview? {
      ReviewStepKeeps(cfg, db, step);
    } else if step.DoMarkPaid? || step.DoRefund? {
      LedgerStepKeeps(cfg, db, step);
    } else {
      WaitKeeps(db, step.seconds);
    }
  }

  lemma SameEvolves(db: Db)
    ensures Evolves(db, db)
  {
  }

  lemma FollowingKeeps(cfg: Settings, db: Db, step: Step)
    requires Inv(db) && IsSafe(step)
    ensures Inv(Following(cfg, db, step)) && Evolves(db, Following(cfg, db, step))
    ensures !Next(cfg, db, step).Late?
  {
    NothingBreaks(cfg, db, step);
    if Next(cfg, db, step).Ok? {
      StepKeeps(cfg, db, step);
    } else {
      SameEvolves(db);
    }
  }

  /** The invariant holds after every run, and along it no job moves backwards, no settled application
      changes, no review is edited, no paid row is reopened. */
  lemma {:induction false} RunKeeps(cfg: Settings, db: Db, steps: seq<Step>)
    requires Inv(db) && AllSafe(steps)
    ensures Inv(Run(cfg, db, steps)) && Evolves(db, Run(cfg, db, steps))
    decreases |steps|
  {
    if steps == [] {
      SameEvolves(db);
    } else {
      var mid := Following(cfg, db, steps[0]);
      FollowingKeeps(cfg, db, steps[0]);
      RunKeeps(cfg, mid, steps[1..]);
      EvolvesTransitive(db, mid, Run(cfg, mid, steps[1..]));
    }
  }

  /** Every reachable state satisfies the invariant. */
  lemma ReachableIsSound(cfg: Settings, steps: seq<Step>)
    requires AllSafe(steps)
    ensures Inv(Run(cfg, EMPTY, steps))
  {
    EmptyIsSound();
    RunKeeps(cfg, EMPTY, steps);
  }

  /** No assert of the services fails and no database constraint is hit, whatever is requested next;
      the one exception is a job PATCH the job's columns cannot take. What was committed early stands. */
  lemma NothingBreaks(cfg: Settings, db: Db, step: Step)
    requires Inv(db)
    ensures !Raises(Next(cfg, db, step), AssertionFailure)
    ensures Raises(Next(cfg, db, step), IntegrityError) ==>
              step.DoUpdateJob? && step.job < |db.jobs| && Refuses(db.jobs[step.job], step.patch)
    ensures !Next(cfg, db, step).Late?
  {
    if step.DoMarkComplete? {
      MarkCompleteNeverBreaks(cfg, db, step.user, step.job);
    } else if step.DoSubmitReview? {
      SubmitReviewNeverBreaks(db, step.user, step.job, step.rating);
    }
    OtherErrors(cfg, db, step);
  }

  lemma OtherErrors(cfg: Settings, db: Db, step: Step)
    ensures Raises(Next(cfg, db, step), AssertionFailure) ==> step.DoMarkComplete? || step.DoSubmitReview?
    ensures Raises(Next(cfg, db, step), IntegrityError) ==>
              step.DoMarkComplete? || (step.DoUpdateJob? && step.job < |db.jobs|
                  && Refuses(db.jobs[step.job], step.patch))
    ensures Next(cfg, db, step).Late? ==> step.DoMarkComplete?
  {
  }

  /** A reachable state: the handshake facts every service function relies on. */
  lemma HandshakeInEveryRun(cfg: Settings, steps: seq<Step>, job: nat)
    requires AllSafe(steps) && job < |Run(cfg, EMPTY, steps).jobs|
    ensures var db := Run(cfg, EMPTY, steps);
            && (forall a: nat, b: nat | a < |db.apps| && b < |db.apps| && db.apps[a].job == job
               && db.apps[b].job == job ::
                  db.apps[a].status.Accepted? && db.apps[b].status.Accepted? ==> a == b)
            && (IsSettled(db.jobs[job].status) ==>
                  exists a: nat :: IsWinner(db.apps, job, a)
                    && forall b: nat | b < |db.apps| && db.apps[b].job == job && b != a :: db.apps[b].status.Rejected?)
            && (db.jobs[job].status.Completed?
               <==> db.jobs[job].customerDoneAt.Some? && db.jobs[job].workerDoneAt.Some?)
            && ActiveCount(db.jobs, db.jobs[job].owner) <= MAX_ACTIVE_JOBS
  {
    ReachableIsSound(cfg, steps);
    HandshakeOfJob(Run(cfg, EMPTY, steps), job);
  }

  lemma HandshakeOfJob(db: Db, job: nat)
    requires Keys(db) && Handshake(db.jobs, db.apps) && Marks(db.jobs) && ActiveLimit(db.jobs) && job < |db.jobs|
    ensures forall a: nat, b: nat | a < |db.apps| && b < |db.apps| && db.apps[a].job == job && db.apps[b].job == job ::
              db.apps[a].status.Accepted? && db.apps[b].status.Accepted? ==> a == b
    ensures IsSettled(db.jobs[job].status) ==>
              exists a: nat :: IsWinner(db.apps, job, a)
                && forall b: nat | b < |db.apps| && db.apps[b].job == job && b != a :: db.apps[b].status.Rejected?
    ensures db.jobs[job].status.Completed? <==> db.jobs[job].customerDoneAt.Some? && db.jobs[job].workerDoneAt.Some?
    ensures ActiveCount(db.jobs, db.jobs[job].owner) <= MAX_ACTIVE_JOBS
  {
    assert MarksMatch(db.jobs[job]);
    if IsSettled(db.jobs[job].status) {
      var a := WinnerIsFound(db, job);
    }
  }

  /** So no request fails that way after any run. */
  lemma NothingBreaksInAnyRun(cfg: Settings, steps: seq<Step>, step: Step)
    requires AllSafe(steps)
    ensures var db := Run(cfg, EMPTY, steps);
            var o := Next(cfg, db, step);
            && !Raises(o, AssertionFailure) && !o.Late?
            && (Raises(o, IntegrityError) ==>
               step.DoUpdateJob? && step.job < |db.jobs| && Refuses(db.jobs[step.job], step.patch))
  {
    ReachableIsSound(cfg, steps);
    NothingBreaks(cfg, Run(cfg, EMPTY, steps), step);
  }

  /** Every review of every run was written by one of the two parties of a completed job about the other,
      who is somebody else, and nobody reviewed a job twice. */
  lemma ReviewsInEveryRun(cfg: Settings, steps: seq<Step>, i: nat)
    requires AllSafe(steps) && i < |Run(cfg, EMPTY, steps).reviews|
    ensures var db := Run(cfg, EMPTY, steps);
            var r := db.reviews[i];
            && r.job < |db.jobs| && db.jobs[r.job].status.Completed?
            && AcceptedUser(db, r.job).Some? && AcceptedUser(db, r.job).value != db.jobs[r.job].owner
            && BetweenParticipants(r, db.jobs[r.job].owner, AcceptedUser(db, r.job).value)
            && forall k: nat | k < |db.reviews| && k != i && db.reviews[k].job == r.job ::
               db.reviews[k].reviewer != r.reviewer
  {
    ReachableIsSound(cfg, steps);
    var a := WinnerIsFound(Run(cfg, EMPTY, steps), Run(cfg, EMPTY, steps).reviews[i].job);
  }

  lemma RunEvolvesJob(cfg: Settings, db: Db, steps: seq<Step>, job: nat)
    requires Inv(db) && AllSafe(steps) && job < |db.jobs|
    ensures job < |Run(cfg, db, steps).jobs| && JobEvolves(db.jobs[job], Run(cfg, db, steps).jobs[job])
  {
    RunKeeps(cfg, db, steps);
  }

  /** Whatever happens after any run, a job moves forwards only, and a completed or cancelled one stays so. */
  lemma JobsMoveForwards(cfg: Settings, steps: seq<Step>, more: seq<Step>, job: nat)
    requires AllSafe(steps) && AllSafe(more) && job < |Run(cfg, EMPTY, steps).jobs|
    ensures var db := Run(cfg, EMPTY, steps);
            var db' := Run(cfg, db, more);
            && job < |db'.jobs|
            && CanFollow(db.jobs[job].status, db'.jobs[job].status)
            && (db.jobs[job].status.Completed? || db.jobs[job].status.Cancelled? ==>
               db'.jobs[job].status == db.jobs[job].status)
  {
    ReachableIsSound(cfg, steps);
    RunEvolvesJob(cfg, Run(cfg, EMPTY, steps), more, job);
  }

  // ─── Logins ─────────────────────────────────────────────────────────────────

  predicate HasUniqueLogins(users: seq<User>) {
    forall u: nat, v: nat | u < v < |users| ::
        users[u].email != users[v].email && users[u].username != users[v].username
  }

  lemma RegisterKeepsLogins(db: Db, row: User)
    requires HasUniqueLogins(db.users) && Register(db, row).Ok?
    ensures HasUniqueLogins(Register(db, row).db.users)
  {
    forall u: nat | u < |db.users| ensures db.users[u].email != row.email && db.users[u].username != row.username {
      assert !HasEmail(db.users, row.email)(u) && !HasUsername(db.users, row.username)(u);
    }
  }

  lemma OnlyRegisterAddsUsers(cfg: Settings, db: Db, step: Step)
    requires !step.DoRegister?
    ensures Following(cfg, db, step).users == db.users
  {
  }

  lemma {:induction false} RunKeepsLogins(cfg: Settings, db: Db, steps: seq<Step>)
    requires HasUniqueLogins(db.users)
    ensures HasUniqueLogins(Run(cfg, db, steps).users)
    decreases |steps|
  {
    if steps != [] {
      if !steps[0].DoRegister? {
        OnlyRegisterAddsUsers(cfg, db, steps[0]);
      } else if Register(db, steps[0].row).Ok? {
        RegisterKeepsLogins(db, steps[0].row);
      }
      RunKeepsLogins(cfg, Following(cfg, db, steps[0]), steps[1..]);
    }
  }

  /** After any run, PATCHes included, no e-mail and no username is used twice. */
  lemma LoginsInEveryRun(cfg: Settings, steps: seq<Step>)
    ensures HasUniqueLogins(Run(cfg, EMPTY, steps).users)
  {
    RunKeepsLogins(cfg, EMPTY, steps);
  }

  // ─── No-shows over a run ────────────────────────────────────────────────────

  /** What one step charges to a worker profile. */
  function StepCharge(cfg: Settings, db: Db, step: Step, worker: nat): int {
    if step.DoSweepAssignments? then AssignmentCharge(db.apps, db.now - cfg.timeout, worker)
    else if step.DoSweepCompletions? then WorkerCharge(db, db.now - cfg.timeout, worker)
    else 0
  }

  function StepCustomerCharge(cfg: Settings, db: Db, step: Step, customer: nat): int {
    if step.DoSweepCompletions? then CustomerCharge(db, db.now - cfg.timeout, customer) else 0
  }

  /** What a sweep returns: the number of rows it expired. */
  function StepCount(cfg: Settings, db: Db, step: Step): int {
    if step.DoSweepAssignments? then ExpiredCount(db.apps, db.now - cfg.timeout)
    else if step.DoSweepCompletions? then StaleCount(db.jobs, db.now - cfg.timeout)
    else 0
  }

  function RunCharge(cfg: Settings, db: Db, steps: seq<Step>, worker: nat): int
    decreases |steps|
  {
    if steps == [] then 0
    else StepCharge(cfg, db, steps[0], worker) + RunCharge(cfg, Following(cfg, db, steps[0]), steps[1..], worker)
  }

  function RunCustomerCharge(cfg: Settings, db: Db, steps: seq<Step>, customer: nat): int
    decreases |steps|
  {
    if steps == [] then 0
    else
      StepCustomerCharge(cfg, db, steps[0], customer)
      + RunCustomerCharge(cfg, Following(cfg, db, steps[0]), steps[1..], customer)
  }

  function RunCount(cfg: Settings, db: Db, steps: seq<Step>): int
    decreases |steps|
  {
    if steps == [] then 0
    else StepCount(cfg, db, steps[0]) + RunCount(cfg, Following(cfg, db, steps[0]), steps[1..])
  }

  lemma NobodyElseIsCharged(cfg: Settings, db: Db, step: Step, i: nat)
    requires Keys(db)
    ensures i >= |db.workers| ==> StepCharge(cfg, db, step, i) == 0
    ensures i >= |db.customers| ==> StepCustomerCharge(cfg, db, step, i) == 0
  {
    var cutoff := db.now - cfg.timeout;
    if i >= |db.workers| {
      SumConstant(|db.apps|, ExpiredOf(db.apps, cutoff, i), 0);
      SumConstant(|db.jobs|, ChargesWorker(db, cutoff, i), 0);
    }
    if i >= |db.customers| { SumConstant(|db.jobs|, ChargesCustomer(db, cutoff, i), 0); }
  }

  lemma StepCharges(cfg: Settings, db: Db, step: Step, i: nat)
    requires Keys(db)
    ensures var db' := Following(cfg, db, step);
            && WorkerNoShows(db'.workers)(i) == WorkerNoShows(db.workers)(i) + StepCharge(cfg, db, step, i)
            && CustomerNoShows(db'.customers)(i) == CustomerNoShows(db.customers)(i)
               + StepCustomerCharge(cfg, db, step, i)
  {
    if IsSweep(step) {
      NobodyElseIsCharged(cfg, db, step, i);
      StepIsCall(cfg, db, step);
    } else {
      OtherStepsChargeNobody(cfg, db, step);
    }
  }

  /** Over any run a profile's no-show counter grows by exactly the expirations the sweeps charged to it. */
  lemma {:induction false} NoShowsAreTheCharges(cfg: Settings, db: Db, steps: seq<Step>, i: nat)
    requires Inv(db) && AllSafe(steps)
    ensures var db' := Run(cfg, db, steps);
            && WorkerNoShows(db'.workers)(i) == WorkerNoShows(db.workers)(i) + RunCharge(cfg, db, steps, i)
            && CustomerNoShows(db'.customers)(i) == CustomerNoShows(db.customers)(i)
               + RunCustomerCharge(cfg, db, steps, i)
    decreases |steps|
  {
    if steps != [] {
      assert Inv(Following(cfg, db, steps[0])) by { FollowingKeeps(cfg, db, steps[0]); }
      StepCharges(cfg, db, steps[0], i);
      NoShowsAreTheCharges(cfg, Following(cfg, db, steps[0]), steps[1..], i);
    }
  }

  lemma StepCounts(cfg: Settings, db: Db, step: Step)
    requires forall a: nat | a < |db.apps| :: db.apps[a].worker < |db.workers|
    requires HasProfilesForAll(db, db.now - cfg.timeout)
    ensures TotalNoShows(Following(cfg, db, step)) == TotalNoShows(db) + StepCount(cfg, db, step)
  {
    if step.DoSweepAssignments? {
      AssignmentSweepCharges(cfg, db);
    } else if step.DoSweepCompletions? {
      CompletionSweepCharges(cfg, db);
    } else {
      OtherStepsCountNothing(cfg, db, step);
    }
  }

  lemma FollowingCounts(cfg: Settings, db: Db, step: Step)
    requires Keys(db) && Unique(db) && Handshake(db.jobs, db.apps)
    ensures TotalNoShows(Following(cfg, db, step)) == TotalNoShows(db) + StepCount(cfg, db, step)
  {
    SilentPartiesAddUp(db, db.now - cfg.timeout);
    StepCounts(cfg, db, step);
  }

  lemma OtherStepsCountNothing(cfg: Settings, db: Db, step: Step)
    requires !IsSweep(step)
    ensures TotalNoShows(Following(cfg, db, step)) == TotalNoShows(db)
  {
    OtherStepsChargeNobody(cfg, db, step);
    SameTotal(db, Following(cfg, db, step));
  }

  lemma SameTotal(db: Db, db': Db)
    requires |db.workers| <= |db'.workers| <= |db.workers| + 1
             && |db.customers| <= |db'.customers| <= |db.customers| + 1
    requires forall w: nat | w < |db'.workers| :: WorkerNoShows(db'.workers)(w) == WorkerNoShows(db.workers)(w)
    requires forall c: nat | c < |db'.customers| ::
             CustomerNoShows(db'.customers)(c) == CustomerNoShows(db.customers)(c)
    ensures TotalNoShows(db') == TotalNoShows(db)
  {
    SumSame(|db'.workers|, WorkerNoShows(db.workers), WorkerNoShows(db'.workers));
    SumSame(|db'.customers|, CustomerNoShows(db.customers), CustomerNoShows(db'.customers));
  }

  lemma OtherStepsChargeNobody(cfg: Settings, db: Db, step: Step)
    requires !IsSweep(step)
    ensures var db' := Following(cfg, db, step);
            && |db.workers| <= |db'.workers| <= |db.workers| + 1
               && |db.customers| <= |db'.customers| <= |db.customers| + 1
            && (forall w: nat | w < |db'.workers| :: WorkerNoShows(db'.workers)(w) == WorkerNoShows(db.workers)(w))
            && (forall c: nat | c < |db'.customers| ::
               CustomerNoShows(db'.customers)(c) == CustomerNoShows(db.customers)(c))
  {
  }

  /** Over any run the total of all counters grows by exactly the counts the sweeps returned. */
  lemma {:induction false} NoShowsAreTheCounts(cfg: Settings, db: Db, steps: seq<Step>)
    requires Inv(db) && AllSafe(steps)
    ensures TotalNoShows(Run(cfg, db, steps)) == TotalNoShows(db) + RunCount(cfg, db, steps)
    decreases |steps|
  {
    if steps != [] {
      assert Inv(Following(cfg, db, steps[0])) by { FollowingKeeps(cfg, db, steps[0]); }
      FollowingCounts(cfg, db, steps[0]);
      NoShowsAreTheCounts(cfg, Following(cfg, db, steps[0]), steps[1..]);
    }
  }

  /** In every reachable state each counter is what the sweeps charged, and all together what they returned. */
  lemma NoShowsInEveryRun(cfg: Settings, steps: seq<Step>, i: nat)
    requires AllSafe(steps)
    ensures var db := Run(cfg, EMPTY, steps);
            && (i < |db.workers| ==> db.workers[i].noShows == RunCharge(cfg, EMPTY, steps, i))
            && (i < |db.customers| ==> db.customers[i].noShows == RunCustomerCharge(cfg, EMPTY, steps, i))
            && TotalNoShows(db) == RunCount(cfg, EMPTY, steps)
  {
    EmptyIsSound();
    NoShowsAreTheCharges(cfg, EMPTY, steps, i);
    NoShowsAreTheCounts(cfg, EMPTY, steps);
  }

  // ─── How a job was completed ────────────────────────────────────────────────

  predicate IsCompleted(db: Db, job: nat) {
    job < |db.jobs| && db.jobs[job].status.Completed?
  }

  predicate IsBilled(db: Db, job: nat) {
    First(|db.billings|, BilledFor(db.billings, job)).Some?
  }

  function StepSwept(cfg: Settings, db: Db, step: Step): set<nat> {
    if step.DoSweepCompletions? then set j: nat | j < |db.jobs| && IsStale(db.jobs[j], db.now - cfg.timeout) else {}
  }

  /** The jobs a completion sweep completed during the run. */
  function RunSwept(cfg: Settings, db: Db, steps: seq<Step>): set<nat>
    decreases |steps|
  {
    if steps == [] then {}
    else StepSwept(cfg, db, steps[0]) + RunSwept(cfg, Following(cfg, db, steps[0]), steps[1..])
  }

  function StepMarks(cfg: Settings, db: Db, step: Step): set<(nat, nat)> {
    if step.DoMarkComplete? && Next(cfg, db, step).Ok? then {(step.job, step.user)} else {}
  }

  /** The successful completion calls of the run, as pairs of job and caller. */
  function RunMarks(cfg: Settings, db: Db, steps: seq<Step>): set<(nat, nat)>
    decreases |steps|
  {
    if steps == [] then {}
    else StepMarks(cfg, db, steps[0]) + RunMarks(cfg, Following(cfg, db, steps[0]), steps[1..])
  }

  lemma BilledAfterAppend(db: Db, row: Billing, job: nat)
    ensures IsBilled(db.(billings := db.billings + [row]), job) <==> IsBilled(db, job) || row.job == job
  {
    var db' := db.(billings := db.billings + [row]);
    if IsBilled(db, job) {
      assert BilledFor(db'.billings, job)(First(|db.billings|, BilledFor(db.billings, job)).value);
    } else if row.job == job {
      assert BilledFor(db'.billings, job)(|db.billings|);
    } else {
      forall b: nat | b < |db'.billings| ensures !BilledFor(db'.billings, job)(b) {
        assert b < |db.billings| ==> !BilledFor(db.billings, job)(b);
      }
    }
  }

  lemma SameBilled(db: Db, db': Db, job: nat)
    requires |db'.billings| == |db.billings|
    requires forall b: nat | b < |db.billings| :: db'.billings[b].job == db.billings[b].job
    ensures IsBilled(db', job) <==> IsBilled(db, job)
  {
    if IsBilled(db, job) {
      assert BilledFor(db'.billings, job)(First(|db.billings|, BilledFor(db.billings, job)).value);
    }
    if IsBilled(db', job) {
      assert BilledFor(db.billings, job)(First(|db'.billings|, BilledFor(db'.billings, job)).value);
    }
  }

  /** In one step a job becomes billed exactly when it becomes completed otherwise than by a sweep. */
  lemma StepBills(cfg: Settings, db: Db, step: Step, job: nat)
    requires Inv(db) && IsSafe(step) && !Next(cfg, db, step).Late?
    ensures var db' := Following(cfg, db, step);
            && (IsCompleted(db, job) ==>
               (IsBilled(db', job) <==> IsBilled(db, job)) && job !in StepSwept(cfg, db, step))
            && (!IsCompleted(db, job) && IsCompleted(db', job) ==>
               (IsBilled(db', job) <==> job !in StepSwept(cfg, db, step)))
            && (!IsCompleted(db', job) ==> job !in StepSwept(cfg, db, step))
  {
    if IsBilled(db, job) { UnfinishedIsUnbilled(db, job); }
    if step.DoMarkComplete? && Next(cfg, db, step).Ok? {
      MarkCompleteBills(cfg, db, step.user, step.job, job);
    } else {
      OnlyCompletionBills(cfg, db, step);
      SameBilled(db, Following(cfg, db, step), job);
    }
  }

  lemma MarkCompleteBills(cfg: Settings, db: Db, user: nat, marked: nat, job: nat)
    requires MarkComplete(cfg, db, user, marked).Ok?
    ensures var db' := MarkComplete(cfg, db, user, marked).db;
            && (IsCompleted(db, job) ==> (IsBilled(db', job) <==> IsBilled(db, job)))
            && (!IsCompleted(db, job) && IsCompleted(db', job) ==> IsBilled(db', job))
  {
    var mid := db.(jobs := db.jobs[marked := Mark(db.jobs[marked], db.jobs[marked].owner == user, db.now)]);
    MarkCompleteWrites(cfg, db, user, marked, mid);
    SameBilled(db, mid, job);
    if mid.jobs[marked].status.Completed? {
      BilledAfterAppend(mid, BillingFor(cfg, mid, marked, AcceptedWorker(mid.apps, marked).value), job);
    }
  }

  lemma UnfinishedIsUnbilled(db: Db, job: nat)
    requires Keys(db) && BillingRows(db) && IsBilled(db, job)
    ensures IsCompleted(db, job)
  {
  }

  lemma OnlyCompletionBills(cfg: Settings, db: Db, step: Step)
    requires IsSafe(step) && !(step.DoMarkComplete? && !Next(cfg, db, step).Fail?)
    ensures var db' := Following(cfg, db, step);
            && |db'.billings| == |db.billings|
            && (forall b: nat | b < |db.billings| :: db'.billings[b].job == db.billings[b].job)
            && (forall j: nat :: IsCompleted(db', j) && !IsCompleted(db, j) ==> j in StepSwept(cfg, db, step))
            && (forall j: nat :: j in StepSwept(cfg, db, step) ==> IsCompleted(db', j))
  {
  }

  /** Billing rows exist for exactly the completed jobs that no sweep completed. */
  lemma {:induction false} BilledExactlyWhenNotSwept(cfg: Settings, db: Db, steps: seq<Step>, job: nat)
    requires Inv(db) && AllSafe(steps)
    ensures var db' := Run(cfg, db, steps);
            && (IsCompleted(db, job) ==>
               IsCompleted(db', job) && (IsBilled(db', job) <==> IsBilled(db, job)) && job !in RunSwept(cfg, db, steps))
            && (!IsCompleted(db, job) && IsCompleted(db', job) ==>
               (IsBilled(db', job) <==> job !in RunSwept(cfg, db, steps)))
            && (!IsCompleted(db', job) ==> job !in RunSwept(cfg, db, steps) && !IsBilled(db', job))
    decreases |steps|
  {
    if steps == [] {
      if IsBilled(db, job) { UnfinishedIsUnbilled(db, job); }
    } else {
      var mid := Following(cfg, db, steps[0]);
      assert Inv(mid) && !Next(cfg, db, steps[0]).Late?
          && (job < |db.jobs| ==> job < |mid.jobs| && JobEvolves(db.jobs[job], mid.jobs[job])) by {
        FollowingKeeps(cfg, db, steps[0]);
      }
      StepBills(cfg, db, steps[0], job);
      BilledExactlyWhenNotSwept(cfg, mid, steps[1..], job);
    }
  }

  predicate HasCustomerMark(db: Db, job: nat) {
    job < |db.jobs| && db.jobs[job].customerDoneAt.Some?
  }

  predicate HasWorkerMark(db: Db, job: nat) {
    job < |db.jobs| && db.jobs[job].workerDoneAt.Some?
  }

  /** A mark appears only when its party asks for it, or in a sweep. */
  lemma StepSetsMarks(cfg: Settings, db: Db, step: Step, job: nat)
    requires !Next(cfg, db, step).Late?
    ensures var db' := Following(cfg, db, step);
            && (HasCustomerMark(db', job) && !HasCustomerMark(db, job) && job !in StepSwept(cfg, db, step) ==>
                  (job, db'.jobs[job].owner) in StepMarks(cfg, db, step))
            && (HasWorkerMark(db', job) && !HasWorkerMark(db, job) && job !in StepSwept(cfg, db, step) ==>
                  AcceptedUser(db', job).Some? && (job, AcceptedUser(db', job).value) in StepMarks(cfg, db, step))
  {
    if step.DoMarkComplete? && Next(cfg, db, step).Ok? {
      MarkCompleteSetsMarks(cfg, db, step.user, step.job, job);
    } else if job !in StepSwept(cfg, db, step) {
      OtherStepsSetNoMarks(cfg, db, step, job);
    }
  }

  lemma OtherStepsSetNoMarks(cfg: Settings, db: Db, step: Step, job: nat)
    requires !(step.DoMarkComplete? && !Next(cfg, db, step).Fail?) && job !in StepSwept(cfg, db, step)
    ensures var db' := Following(cfg, db, step);
            && (HasCustomerMark(db', job) <==> HasCustomerMark(db, job))
            && (HasWorkerMark(db', job) <==> HasWorkerMark(db, job))
  {
  }

  lemma MarkCompleteSetsMarks(cfg: Settings, db: Db, user: nat, marked: nat, job: nat)
    requires MarkComplete(cfg, db, user, marked).Ok?
    ensures var db' := MarkComplete(cfg, db, user, marked).db;
            && (HasCustomerMark(db', job) && !HasCustomerMark(db, job) ==> job == marked && user == db'.jobs[job].owner)
            && (HasWorkerMark(db', job) && !HasWorkerMark(db, job) ==>
               job == marked && AcceptedUser(db', job) == Some(user))
  {
    var mid := db.(jobs := db.jobs[marked := Mark(db.jobs[marked], db.jobs[marked].owner == user, db.now)]);
    MarkCompleteWrites(cfg, db, user, marked, mid);
    assert db.jobs[marked].owner == user || AcceptedUser(db, marked) == Some(user);
  }

  /** The accepted worker of a settled job never changes. */
  lemma AcceptedUserIsFixed(db: Db, db': Db, job: nat)
    requires Keys(db) && Keys(db') && Handshake(db.jobs, db.apps) && Handshake(db'.jobs, db'.apps) && Evolves(db, db')
    requires job < |db.jobs| && IsSettled(db.jobs[job].status)
    ensures AcceptedUser(db', job) == AcceptedUser(db, job)
  {
    var a := WinnerIsFound(db, job);
    assert JobEvolves(db.jobs[job], db'.jobs[job]);
    var b := WinnerIsFound(db', job);
    assert db'.apps[a] == db.apps[a];
  }

  lemma {:induction false} MarksComeFromParties(cfg: Settings, db: Db, steps: seq<Step>, job: nat)
    requires Inv(db) && AllSafe(steps) && job !in RunSwept(cfg, db, steps)
    ensures var db' := Run(cfg, db, steps);
            && (HasCustomerMark(db', job) && !HasCustomerMark(db, job) ==>
               (job, db'.jobs[job].owner) in RunMarks(cfg, db, steps))
            && (HasWorkerMark(db', job) && !HasWorkerMark(db, job) ==>
                  AcceptedUser(db', job).Some? && (job, AcceptedUser(db', job).value) in RunMarks(cfg, db, steps))
    decreases |steps|
  {
    if steps != [] {
      var mid := Following(cfg, db, steps[0]);
      FollowingKeeps(cfg, db, steps[0]);
      StepSetsMarks(cfg, db, steps[0], job);
      MarksComeFromParties(cfg, mid, steps[1..], job);
      RunKeeps(cfg, mid, steps[1..]);
      MarkedStaysSettled(mid, Run(cfg, mid, steps[1..]), job);
    }
  }

  lemma MarkedStaysSettled(db: Db, db': Db, job: nat)
    requires Inv(db) && Inv(db') && Evolves(db, db')
    ensures HasCustomerMark(db, job) ==> db'.jobs[job].owner == db.jobs[job].owner
    ensures HasWorkerMark(db, job) ==> AcceptedUser(db', job) == AcceptedUser(db, job)
  {
    if job < |db.jobs| {
      assert JobEvolves(db.jobs[job], db'.jobs[job]);
      assert MarksMatch(db.jobs[job]);
      if HasWorkerMark(db, job) { AcceptedUserIsFixed(db, db', job); }
    }
  }

  /** Row b is the one billing row of the job, and names its accepted worker. */
  ghost predicate IsSoleBilling(db: Db, job: nat, b: nat) {
    && b < |db.billings| && db.billings[b].job == job
    && AcceptedWorker(db.apps, job) == Some(db.billings[b].worker)
    && forall c: nat | c < |db.billings| && db.billings[c].job == job :: c == b
  }

  /** How every completed job of every run was completed: either a sweep did it, and there is no
      billing row; or two different users asked for it, the owner and the confirmed worker, and there
      is exactly one billing row, which names that worker. */
  lemma CompletionAndBilling(cfg: Settings, steps: seq<Step>, job: nat)
    requires AllSafe(steps)
    requires IsCompleted(Run(cfg, EMPTY, steps), job)
    ensures var db := Run(cfg, EMPTY, steps);
            if job in RunSwept(cfg, EMPTY, steps)
            then forall b: nat | b < |db.billings| :: db.billings[b].job != job
            else
              && AcceptedUser(db, job).Some? && AcceptedUser(db, job).value != db.jobs[job].owner
              && (job, db.jobs[job].owner) in RunMarks(cfg, EMPTY, steps)
              && (job, AcceptedUser(db, job).value) in RunMarks(cfg, EMPTY, steps)
              && exists b: nat :: IsSoleBilling(db, job, b)
  {
    var db := Run(cfg, EMPTY, steps);
    assert IsBilled(db, job) <==> job !in RunSwept(cfg, EMPTY, steps) by {
      EmptyIsSound();
      BilledExactlyWhenNotSwept(cfg, EMPTY, steps, job);
    }
    if job in RunSwept(cfg, EMPTY, steps) {
      NoRowUnlessBilled(db, job);
    } else {
      MarkedByBoth(cfg, steps, job);
      BilledInRun(cfg, steps, job);
    }
  }

  lemma MarkedByBoth(cfg: Settings, steps: seq<Step>, job: nat)
    requires AllSafe(steps) && IsCompleted(Run(cfg, EMPTY, steps), job) && job !in RunSwept(cfg, EMPTY, steps)
    ensures var db := Run(cfg, EMPTY, steps);
            && (job, db.jobs[job].owner) in RunMarks(cfg, EMPTY, steps)
            && AcceptedUser(db, job).Some? && (job, AcceptedUser(db, job).value) in RunMarks(cfg, EMPTY, steps)
  {
    assert MarksMatch(Run(cfg, EMPTY, steps).jobs[job]) by { ReachableIsSound(cfg, steps); }
    EmptyIsSound();
    MarksComeFromParties(cfg, EMPTY, steps, job);
  }

  lemma BilledInRun(cfg: Settings, steps: seq<Step>, job: nat)
    requires AllSafe(steps) && IsBilled(Run(cfg, EMPTY, steps), job)
    ensures var db := Run(cfg, EMPTY, steps);
            && job < |db.jobs| && AcceptedUser(db, job).Some? && AcceptedUser(db, job).value != db.jobs[job].owner
            && exists b: nat :: IsSoleBilling(db, job, b)
  {
    ReachableIsSound(cfg, steps);
    BilledOnce(Run(cfg, EMPTY, steps), job);
  }

  lemma NoRowUnlessBilled(db: Db, job: nat)
    requires !IsBilled(db, job)
    ensures forall b: nat | b < |db.billings| :: db.billings[b].job != job
  {
    forall b: nat | b < |db.billings| ensures db.billings[b].job != job {
      assert !BilledFor(db.billings, job)(b);
    }
  }

  lemma BilledOnce(db: Db, job: nat)
    requires Keys(db) && Handshake(db.jobs, db.apps) && BillingRows(db) && BillingBalance(db) && IsBilled(db, job)
    ensures job < |db.jobs| && AcceptedUser(db, job).Some? && AcceptedUser(db, job).value != db.jobs[job].owner
    ensures exists b: nat :: IsSoleBilling(db, job, b)
  {
    UnfinishedIsUnbilled(db, job);
    var a := WinnerIsFound(db, job);
    var b := First(|db.billings|, BilledFor(db.billings, job)).value;
    assert db.billings[b].job == job && db.billings[b].worker == db.apps[a].worker;
    assert IsSoleBilling(db, job, b);
  }
}
