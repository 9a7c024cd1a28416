/** Where the code falls short of what its comments promise: concrete runs, and exactly which job PATCHes
    can end in a failing assert. */
module Findings {
  import opened Prelude
  import opened Tables
  import opened Invariant
  import opened Jobs
  import opened Lifecycle
  import opened Timeouts
  import opened Reviewing
  import opened Billings
  import opened Marketplace

  // ─── Which PATCHes break a service ──────────────────────────────────────────

  /** After these safe steps, this one fails an assert. */
  predicate Breaks(cfg: Settings, db: Db, steps: seq<Step>, step: Step) {
    AllSafe(steps) && Raises(Next(cfg, Run(cfg, db, steps), step), AssertionFailure)
  }

  ghost predicate CanBreak(cfg: Settings, db: Db) {
    exists steps: seq<Step>, step: Step :: Breaks(cfg, db, steps, step)
  }

  /** IN_PROGRESS and COMPLETED always, ASSIGNED when an application of the job is accepted. */
  predicate Dooms(apps: seq<Application>, job: nat, patch: JobPatch) {
    patch.status.To? &&
    match patch.status.value
    case Assigned => AcceptedApp(apps, job).Some?
    case InProgress => true
    case Completed => true
    case _ => false
  }

  /** A successful PATCH lets some later request fail an assert exactly when it writes IN_PROGRESS or
      COMPLETED, or ASSIGNED while an application is accepted; no further unsafe PATCH is needed. */
  lemma PatchBreaksExactlyWhen(cfg: Settings, db: Db, user: nat, job: nat, patch: JobPatch)
    requires Inv(db) && UpdateJob(db, user, job, patch).Ok?
    ensures CanBreak(cfg, UpdateJob(db, user, job, patch).db) <==> Dooms(db.apps, job, patch)
  {
    if IsHarmless(patch) {
      HarmlessIsSafe(cfg, db, user, job, patch);
    } else if Dooms(db.apps, job, patch) {
      DoomedBreaks(cfg, db, user, job, patch);
    } else {
      AssignedIsStuck(cfg, db, user, job, patch);
    }
  }

  lemma HarmlessIsSafe(cfg: Settings, db: Db, user: nat, job: nat, patch: JobPatch)
    requires Inv(db) && UpdateJob(db, user, job, patch).Ok? && IsHarmless(patch)
    ensures !CanBreak(cfg, UpdateJob(db, user, job, patch).db)
  {
    var db' := UpdateJob(db, user, job, patch).db;
    assert Inv(db') by { UpdateJobKeepsExactlyWhen(db, user, job, patch); }
    forall steps: seq<Step>, step: Step ensures !Breaks(cfg, db', steps, step) {
      if AllSafe(steps) { RunIsSafe(cfg, db', steps, step); }
    }
  }

  lemma RunIsSafe(cfg: Settings, db: Db, steps: seq<Step>, step: Step)
    requires Inv(db) && AllSafe(steps)
    ensures !Raises(Next(cfg, Run(cfg, db, steps), step), AssertionFailure)
  {
    assert Inv(Run(cfg, db, steps)) by { RunKeeps(cfg, db, steps); }
    NothingBreaks(cfg, Run(cfg, db, steps), step);
  }

  // ─── A job without the worker its status promises ───────────────────────────

  /** The job runs or is completed, but no acceptance of it was ever confirmed, and its owner has not
      reviewed it. */
  ghost predicate IsHollow(db: Db, job: nat) {
    && job < |db.jobs| && db.jobs[job].owner < |db.users|
    && (db.jobs[job].status.InProgress? || db.jobs[job].status.Completed?)
    && HasSoleAcceptances(db.apps)
    && (forall a: nat | a < |db.apps| && IsAccepted(db.apps, job)(a) ::
       db.apps[a].confirmedAt.None? && db.apps[a].acceptedAt.Some?)
    && (forall i: nat | i < |db.reviews| :: !ReviewedBy(db.reviews, job, db.jobs[job].owner)(i))
  }

  /** What the owner asks for last. */
  function LastRequest(db: Db, job: nat): Step
    requires job < |db.jobs|
  {
    if db.jobs[job].status.InProgress? then DoMarkComplete(db.jobs[job].owner, job)
    else DoSubmitReview(db.jobs[job].owner, job, 5)
  }

  lemma WithoutWorkerBreaks(cfg: Settings, db: Db, job: nat)
    requires IsHollow(db, job) && AcceptedApp(db.apps, job).None?
    ensures Raises(Next(cfg, db, LastRequest(db, job)), AssertionFailure)
  {
  }

  /** Once the timeout has passed, the assignment sweep takes the acceptance away. */
  function WaitFor(cfg: Settings, db: Db, job: nat): nat {
    var a := AcceptedApp(db.apps, job);
    if a.Some? && db.apps[a.value].acceptedAt.Some? && db.apps[a.value].acceptedAt.value + cfg.timeout > db.now
    then db.apps[a.value].acceptedAt.value + cfg.timeout - db.now else 0
  }

  lemma SweepTakesAcceptance(cfg: Settings, db: Db, job: nat, db': Db)
    requires IsHollow(db, job)
    requires db' == SweepAssignments(cfg, db.(now := db.now + WaitFor(cfg, db, job)))
    ensures IsHollow(db', job) && AcceptedApp(db'.apps, job).None? && db'.jobs == db.jobs
  {
    forall a: nat | a < |db'.apps| ensures !IsAccepted(db'.apps, job)(a) {
      if IsAccepted(db.apps, job)(a) { assert AcceptedApp(db.apps, job) == Some(a); }
    }
  }

  lemma HollowBreaks(cfg: Settings, db: Db, job: nat)
    requires IsHollow(db, job)
    ensures CanBreak(cfg, db)
  {
    var wait := DoWait(WaitFor(cfg, db, job));
    var waited := Following(cfg, db, wait);
    var db' := Following(cfg, waited, DoSweepAssignments);
    SweepTakesAcceptance(cfg, db, job, db');
    WithoutWorkerBreaks(cfg, db', job);
    assert Breaks(cfg, db', [], LastRequest(db', job));
    BreaksLater(cfg, waited, DoSweepAssignments);
    BreaksLater(cfg, db, wait);
  }

  lemma BreaksLater(cfg: Settings, db: Db, step: Step)
    requires IsSafe(step) && CanBreak(cfg, Following(cfg, db, step))
    ensures CanBreak(cfg, db)
  {
    var steps: seq<Step>, last: Step :| Breaks(cfg, Following(cfg, db, step), steps, last);
    assert ([step] + steps)[1..] == steps;
    assert Breaks(cfg, db, [step] + steps, last);
  }

  lemma DoomedBreaks(cfg: Settings, db: Db, user: nat, job: nat, patch: JobPatch)
    requires Inv(db) && UpdateJob(db, user, job, patch).Ok? && Dooms(db.apps, job, patch)
    ensures CanBreak(cfg, UpdateJob(db, user, job, patch).db)
  {
    var db' := UpdateJob(db, user, job, patch).db;
    if db'.jobs[job].status.Assigned? {
      var a := AcceptedApp(db.apps, job).value;
      var started := db'.(jobs := db'.jobs[job := db'.jobs[job].(status := InProgress)]);
      PatchedIsHollow(db, job, started);
      HollowBreaks(cfg, started, job);
      StartedLater(cfg, db', job, a);
    } else {
      PatchedIsHollow(db, job, db');
      HollowBreaks(cfg, db', job);
    }
  }

  lemma StartedLater(cfg: Settings, db: Db, job: nat, a: nat)
    requires job < |db.jobs| && db.jobs[job].status.Assigned? && AcceptedApp(db.apps, job) == Some(a)
    requires db.apps[a].worker < |db.workers| && db.workers[db.apps[a].worker].user < |db.users|
    requires CanBreak(cfg, db.(jobs := db.jobs[job := db.jobs[job].(status := InProgress)]))
    ensures CanBreak(cfg, db)
  {
    var start := DoStart(db.workers[db.apps[a].worker].user, job);
    assert Following(cfg, db, start) == db.(jobs := db.jobs[job := db.jobs[job].(status := InProgress)]);
    BreaksLater(cfg, db, start);
  }

  lemma PatchedIsHollow(db: Db, job: nat, db': Db)
    requires Keys(db) && Handshake(db.jobs, db.apps) && ReviewRows(db)
    requires job < |db.jobs| && db.jobs[job].status.Open?
    requires db' == db.(jobs := db'.jobs) && job < |db'.jobs| && db'.jobs[job].owner == db.jobs[job].owner
    requires db'.jobs[job].status.InProgress? || db'.jobs[job].status.Completed?
    ensures IsHollow(db', job)
  {
  }

  // ─── ASSIGNED without an acceptance ─────────────────────────────────────────

  /** No step but a delete ever touches such a job again. */
  predicate IsStuck(db: Db, job: nat) {
    job < |db.jobs| && db.jobs[job].status.Assigned? && AcceptedApp(db.apps, job).None?
  }

  /** The same state with the job cancelled instead. */
  function Masked(db: Db, job: nat): Db
    requires job < |db.jobs|
  {
    db.(jobs := db.jobs[job := db.jobs[job].(status := Cancelled)])
  }

  /** What the masked state does where the real one goes on. */
  ghost predicate Mirrors(o: Outcome, m: Outcome, job: nat) {
    && (Raises(o, AssertionFailure) ==> Raises(m, AssertionFailure))
    && (o.Late? ==> m.Late?)
    && (o.Ok? ==> m.Ok? && IsStuck(o.db, job) && m.db == Masked(o.db, job))
  }

  lemma StillNone(apps: seq<Application>, apps': seq<Application>, job: nat)
    requires AcceptedApp(apps, job).None?
    requires forall a: nat | a < |apps'| && IsAccepted(apps', job)(a) :: a < |apps| && IsAccepted(apps, job)(a)
    ensures AcceptedApp(apps', job).None?
  {
  }

  lemma MirrorApply(db: Db, user: nat, job: nat, j: nat)
    requires IsStuck(db, j)
    ensures Mirrors(Apply(db, user, job), Apply(Masked(db, j), user, job), j)
  {
    var o := Apply(db, user, job);
    if o.Ok? { StillNone(db.apps, o.db.apps, j); }
  }

  lemma MirrorDecision(db: Db, user: nat, job: nat, app: nat, status: ApplicationStatus,
                       reason: Option<DeclineReason>, j: nat)
    requires IsStuck(db, j)
    ensures Mirrors(UpdateApplication(db, user, job, app, status, reason),
            UpdateApplication(Masked(db, j), user, job, app, status, reason), j)
  {
    var o := UpdateApplication(db, user, job, app, status, reason);
    if o.Ok? { StillNone(db.apps, o.db.apps, j); }
  }

  lemma MirrorConfirm(db: Db, user: nat, job: nat, app: nat, j: nat)
    requires IsStuck(db, j)
    ensures Mirrors(Confirm(db, user, job, app), Confirm(Masked(db, j), user, job, app), j)
  {
    var o := Confirm(db, user, job, app);
    if o.Ok? { StillNone(db.apps, o.db.apps, j); }
  }

  lemma MirrorWithdraw(db: Db, user: nat, job: nat, app: nat, reason: DeclineReason, j: nat)
    requires IsStuck(db, j)
    ensures Mirrors(Withdraw(db, user, job, app, reason), Withdraw(Masked(db, j), user, job, app, reason), j)
  {
    var o := Withdraw(db, user, job, app, reason);
    if o.Ok? { StillNone(db.apps, o.db.apps, j); }
  }

  /** The real state has one active job more: it accepts no job that the masked one refuses. */
  lemma MirrorCreateJob(db: Db, user: nat, draft: Draft, j: nat)
    requires IsStuck(db, j)
    ensures Mirrors(CreateJob(db, user, draft), CreateJob(Masked(db, j), user, draft), j)
  {
    SumAtMost(|db.jobs|, ActiveJob(Masked(db, j).jobs, user), ActiveJob(db.jobs, user));
  }

  lemma MirrorUpdateJob(db: Db, user: nat, job: nat, patch: JobPatch, j: nat)
    requires IsStuck(db, j)
    ensures Mirrors(UpdateJob(db, user, job, patch), UpdateJob(Masked(db, j), user, job, patch), j)
  {
  }

  lemma MirrorDeleteJob(db: Db, user: nat, job: nat, j: nat)
    requires IsStuck(db, j)
    ensures Mirrors(DeleteJob(db, user, job), DeleteJob(Masked(db, j), user, job), j)
  {
  }

  lemma MirrorJobs(cfg: Settings, db: Db, step: Step, j: nat)
    requires IsStuck(db, j) && IsJobStep(step)
    ensures Mirrors(Next(cfg, db, step), Next(cfg, Masked(db, j), step), j)
  {
    match step {
      case DoRegister(_) =>
      case DoCreateJob(user, draft) => MirrorCreateJob(db, user, draft, j);
      case DoUpdateJob(user, job, patch) => MirrorUpdateJob(db, user, job, patch, j);
      case DoDeleteJob(user, job) => MirrorDeleteJob(db, user, job, j);
    }
  }

  lemma MirrorStart(db: Db, user: nat, job: nat, j: nat)
    requires IsStuck(db, j)
    ensures Mirrors(Start(db, user, job), Start(Masked(db, j), user, job), j)
  {
    assert AcceptedUser(Masked(db, j), job) == AcceptedUser(db, job);
  }

  lemma MirrorMarkComplete(cfg: Settings, db: Db, user: nat, job: nat, j: nat)
    requires IsStuck(db, j)
    ensures Mirrors(MarkComplete(cfg, db, user, job), MarkComplete(cfg, Masked(db, j), user, job), j)
  {
    assert AcceptedUser(Masked(db, j), job) == AcceptedUser(db, job);
  }

  lemma MirrorHandshake(cfg: Settings, db: Db, step: Step, j: nat)
    requires IsStuck(db, j) && IsHandshakeStep(step)
    ensures Mirrors(Next(cfg, db, step), Next(cfg, Masked(db, j), step), j)
  {
    match step {
      case DoApply(user, job) => MirrorApply(db, user, job, j);
      case DoUpdateApplication(user, job, app, status, reason) => MirrorDecision(db, user, job, app, status, reason, j);
      case DoConfirm(user, job, app) => MirrorConfirm(db, user, job, app, j);
      case DoWithdraw(user, job, app, why) => MirrorWithdraw(db, user, job, app, why, j);
      case DoStart(user, job) => MirrorStart(db, user, job, j);
      case DoMarkComplete(user, job) => MirrorMarkComplete(cfg, db, user, job, j);
    }
  }

  lemma MirrorOthers(cfg: Settings, db: Db, step: Step, j: nat)
    requires IsStuck(db, j)
    requires step.DoSubmitReview? || step.DoRemoveReview? || step.DoMarkPaid? || step.DoRefund? || step.DoWait?
    ensures Mirrors(Next(cfg, db, step), Next(cfg, Masked(db, j), step), j)
  {
    if step.DoSubmitReview? { assert AcceptedUser(Masked(db, j), step.job) == AcceptedUser(db, step.job); }
  }

  lemma MirrorSweeps(cfg: Settings, db: Db, step: Step, j: nat)
    requires IsStuck(db, j) && IsSweep(step)
    ensures Mirrors(Next(cfg, db, step), Next(cfg, Masked(db, j), step), j)
  {
    if step.DoSweepAssignments? {
      StillNone(db.apps, SweepAssignments(cfg, db).apps, j);
    } else {
      MirrorCompletionSweep(cfg, db, j);
    }
  }

  lemma MirrorCharges(db: Db, j: nat, cutoff: int, i: nat)
    requires IsStuck(db, j)
    ensures CustomerCharge(Masked(db, j), cutoff, i) == CustomerCharge(db, cutoff, i)
    ensures WorkerCharge(Masked(db, j), cutoff, i) == WorkerCharge(db, cutoff, i)
  {
    var m := Masked(db, j);
    forall k: nat ensures SilentCustomer(m, cutoff, k) == SilentCustomer(db, cutoff, k)
        && SilentWorker(m, cutoff, k) == SilentWorker(db, cutoff, k) {
      assert AcceptedUser(m, k) == AcceptedUser(db, k);
    }
    SumSame(|db.jobs|, ChargesCustomer(db, cutoff, i), ChargesCustomer(m, cutoff, i));
    SumSame(|db.jobs|, ChargesWorker(db, cutoff, i), ChargesWorker(m, cutoff, i));
  }

  lemma MirrorCompletionSweep(cfg: Settings, db: Db, j: nat)
    requires IsStuck(db, j)
    ensures SweepCompletions(cfg, Masked(db, j)) == Masked(SweepCompletions(cfg, db), j)
    ensures IsStuck(SweepCompletions(cfg, db), j)
  {
    var cutoff, m := db.now - cfg.timeout, Masked(db, j);
    forall i: nat ensures CustomerCharge(m, cutoff, i) == CustomerCharge(db, cutoff, i)
        && WorkerCharge(m, cutoff, i) == WorkerCharge(db, cutoff, i) {
      MirrorCharges(db, j, cutoff, i);
    }
    assert ChargeCustomers(m.customers, CustomerCharges(m, cutoff))
        == ChargeCustomers(db.customers, CustomerCharges(db, cutoff));
    assert ChargeWorkers(m.workers, WorkerCharges(m, cutoff)) == ChargeWorkers(db.workers, WorkerCharges(db, cutoff));
  }

  lemma StepMirrors(cfg: Settings, db: Db, step: Step, j: nat)
    requires IsStuck(db, j)
    ensures Mirrors(Next(cfg, db, step), Next(cfg, Masked(db, j), step), j)
  {
    if IsJobStep(step) {
      MirrorJobs(cfg, db, step, j);
    } else if IsSweep(step) {
      MirrorSweeps(cfg, db, step, j);
    } else if IsHandshakeStep(step) {
      MirrorHandshake(cfg, db, step, j);
    } else {
      MirrorOthers(cfg, db, step, j);
    }
  }

  lemma StuckStaysStuck(cfg: Settings, db: Db, step: Step, j: nat)
    requires IsStuck(db, j) && Inv(Masked(db, j)) && IsSafe(step)
    ensures IsStuck(Following(cfg, db, step), j) && Inv(Masked(Following(cfg, db, step), j))
  {
    StepMirrors(cfg, db, step, j);
    assert Inv(Following(cfg, Masked(db, j), step)) && !Next(cfg, Masked(db, j), step).Late? by {
      FollowingKeeps(cfg, Masked(db, j), step);
    }
  }

  /** Whatever the stuck state can do, the masked one can, and that one is sound. */
  lemma {:induction false} StuckNeverBreaks(cfg: Settings, db: Db, steps: seq<Step>, step: Step, j: nat)
    requires IsStuck(db, j) && Inv(Masked(db, j)) && AllSafe(steps)
    ensures !Breaks(cfg, db, steps, step)
    decreases |steps|
  {
    if steps == [] {
      StepMirrors(cfg, db, step, j);
      NothingBreaks(cfg, Masked(db, j), step);
    } else {
      StuckStaysStuck(cfg, db, steps[0], j);
      StuckNeverBreaks(cfg, Following(cfg, db, steps[0]), steps[1..], step, j);
    }
  }

  lemma AssignedIsStuck(cfg: Settings, db: Db, user: nat, job: nat, patch: JobPatch)
    requires Inv(db) && UpdateJob(db, user, job, patch).Ok?
    requires patch.status == To(Assigned) && AcceptedApp(db.apps, job).None?
    ensures !CanBreak(cfg, UpdateJob(db, user, job, patch).db)
  {
    PatchedIsStuck(db, user, job, patch);
    MaskedIsSound(db, user, job, patch);
    StuckStateNeverBreaks(cfg, UpdateJob(db, user, job, patch).db, job);
  }

  lemma PatchedIsStuck(db: Db, user: nat, job: nat, patch: JobPatch)
    requires UpdateJob(db, user, job, patch).Ok? && patch.status == To(Assigned) && AcceptedApp(db.apps, job).None?
    ensures IsStuck(UpdateJob(db, user, job, patch).db, job)
  {
  }

  lemma StuckStateNeverBreaks(cfg: Settings, db: Db, j: nat)
    requires IsStuck(db, j) && Inv(Masked(db, j))
    ensures !CanBreak(cfg, db)
  {
    forall steps: seq<Step>, step: Step ensures !Breaks(cfg, db, steps, step) {
      if AllSafe(steps) { StuckNeverBreaks(cfg, db, steps, step, j); }
    }
  }

  lemma MaskedIsSound(db: Db, user: nat, job: nat, patch: JobPatch)
    requires Inv(db) && UpdateJob(db, user, job, patch).Ok? && patch.status == To(Assigned)
    ensures job < |UpdateJob(db, user, job, patch).db.jobs|
    ensures Inv(Masked(UpdateJob(db, user, job, patch).db, job))
  {
    var cancelling := patch.(status := To(Cancelled));
    assert Masked(UpdateJob(db, user, job, patch).db, job) == UpdateJob(db, user, job, cancelling).db;
    UpdateJobKeepsExactlyWhen(db, user, job, cancelling);
  }

  // ─── Concrete runs ──────────────────────────────────────────────────────────

  /** The settings' defaults, in seconds and hundredths. */
  const DEFAULTS := Settings(24 * 3600, 500, 14 * 24 * 3600)

  const POSTING := Draft("a job", None, None, true)

  function StatusPatch(status: JobStatus): JobPatch { JobPatch(Absent, Absent, Absent, To(status), true) }

  lemma {:induction false} RunSplits(cfg: Settings, db: Db, first: seq<Step>, rest: seq<Step>)
    ensures Run(cfg, db, first + rest) == Run(cfg, Run(cfg, db, first), rest)
    decreases |first|
  {
    if first == [] {
      assert first + rest == rest;
    } else {
      assert (first + rest)[1..] == first[1..] + rest;
      RunSplits(cfg, Following(cfg, db, first[0]), first[1..], rest);
    }
  }

  lemma RunTwo(cfg: Settings, db: Db, s: Step, t: Step)
    ensures Run(cfg, db, [s, t]) == Following(cfg, Following(cfg, db, s), t)
  {
    assert [s, t][1..] == [t] && [t][1..] == [];
    assert Run(cfg, Following(cfg, db, s), [t]) == Following(cfg, Following(cfg, db, s), t);
  }

  lemma RunThree(cfg: Settings, db: Db, s: Step, t: Step, u: Step)
    ensures Run(cfg, db, [s, t, u]) == Following(cfg, Following(cfg, Following(cfg, db, s), t), u)
  {
    assert [s, t, u][1..] == [t, u];
    RunTwo(cfg, Following(cfg, db, s), t, u);
  }

  function Single(job: Job, apps: seq<Application>): Db {
    Db([CUSTOMER, WORKER], [CustomerProfile(0, 0)], [WorkerProfile(1, None, 0, 0)], [job], apps, [], [], [], 0)
  }

  function JobIs(status: JobStatus): Job { Job(0, "a job", None, None, status, 0, None, None, false) }

  const CUSTOMER := User(Customer, "customer@example.com", "customer")
  const WORKER := User(Worker, "worker@example.com", "worker")

  const POSTED := [DoRegister(CUSTOMER), DoRegister(WORKER), DoCreateJob(0, POSTING)]

  lemma AfterPosting(cfg: Settings)
    ensures Run(cfg, EMPTY, POSTED) == Single(JobIs(Open), [])
  {
    RunThree(cfg, EMPTY, POSTED[0], POSTED[1], POSTED[2]);
    assert SumTo(0, ActiveJob([], 0)) == 0;
  }

  const HIRING := [DoApply(1, 0), DoUpdateApplication(0, 0, 0, Accepted, None), DoConfirm(1, 0, 0)]

  const HIRED := Application(0, 0, Accepted, Some(0), Some(0), None)

  lemma AfterHiring(cfg: Settings)
    ensures Run(cfg, Single(JobIs(Open), []), HIRING) == Single(JobIs(Assigned), [HIRED])
  {
    var db := Single(JobIs(Open), []);
    assert HasWorkerUser(db.workers, 1)(0);
    assert Following(cfg, db, HIRING[0]) == Single(JobIs(Open), [Application(0, 0, Pending, None, None, None)]);
    var accepted := Application(0, 0, Accepted, Some(0), None, None);
    assert Following(cfg, Single(JobIs(Open), [Application(0, 0, Pending, None, None, None)]), HIRING[1])
           == Single(JobIs(Open), [accepted]);
    assert Following(cfg, Single(JobIs(Open), [accepted]), HIRING[2]) == Single(JobIs(Assigned), [HIRED]);
    RunThree(cfg, db, HIRING[0], HIRING[1], HIRING[2]);
  }

  /** Posting, hiring, and the worker's start. */
  const STARTED := POSTED + (HIRING + [DoStart(1, 0)])

  lemma AfterStart(cfg: Settings)
    ensures Run(cfg, EMPTY, STARTED) == Single(JobIs(InProgress), [HIRED])
    ensures AcceptedUser(Single(JobIs(InProgress), [HIRED]), 0) == Some(1)
  {
    RunSplits(cfg, EMPTY, POSTED, HIRING + [DoStart(1, 0)]);
    AfterPosting(cfg);
    RunSplits(cfg, Single(JobIs(Open), []), HIRING, [DoStart(1, 0)]);
    AfterHiring(cfg);
    assert IsAccepted([HIRED], 0)(0);
    assert Following(cfg, Single(JobIs(Assigned), [HIRED]), DoStart(1, 0)) == Single(JobIs(InProgress), [HIRED]);
  }

  /** The customer marks the job complete, the worker stays silent for the timeout, the sweep completes it. */
  const SWEPT := STARTED + [DoMarkComplete(0, 0), DoWait(24 * 3600), DoSweepCompletions]

  /** A reachable completed job without a billing row. */
  lemma SweptJobIsUnbilled()
    ensures AllSafe(SWEPT)
    ensures var db := Run(DEFAULTS, EMPTY, SWEPT); |db.jobs| == 1 && db.jobs[0].status.Completed? && db.billings == []
  {
    RunSplits(DEFAULTS, EMPTY, STARTED, [DoMarkComplete(0, 0), DoWait(24 * 3600), DoSweepCompletions]);
    AfterStart(DEFAULTS);
    RunThree(DEFAULTS, Single(JobIs(InProgress), [HIRED]), DoMarkComplete(0, 0), DoWait(24 * 3600), DoSweepCompletions);
    AfterFirstMark();
    AfterSweep(MARKED);
  }

  const MARKED := Single(JobIs(InProgress).(customerDoneAt := Some(0)), [HIRED])

  lemma AfterFirstMark()
    ensures Following(DEFAULTS, Single(JobIs(InProgress), [HIRED]), DoMarkComplete(0, 0)) == MARKED
  {
  }

  lemma AfterSweep(db: Db)
    requires db.now == 0 && db.billings == [] && |db.jobs| == 1 && db.jobs[0].status.InProgress?
    requires db.jobs[0].customerDoneAt == Some(0) && db.jobs[0].workerDoneAt.None?
    ensures var after := Following(DEFAULTS, Following(DEFAULTS, db, DoWait(24 * 3600)), DoSweepCompletions);
            |after.jobs| == 1 && after.jobs[0].status.Completed? && after.billings == []
  {
  }

  /** Both sides mark the job complete, the commission is paid, and the payment refunded. */
  const REFUNDED := STARTED + ([DoMarkComplete(0, 0), DoMarkComplete(1, 0)] + [DoMarkPaid(0, 0), DoRefund(0)])

  /** A reachable row that is PAID while nothing is held for it. */
  lemma RefundedRowIsPaid()
    ensures AllSafe(REFUNDED)
    ensures var db := Run(DEFAULTS, EMPTY, REFUNDED);
            && |db.billings| == 1 && db.billings[0].status.Paid? && db.billings[0].paid == 500
            && HeldAgainst(db.payments, 0) == 0
  {
    var marks, ledger := [DoMarkComplete(0, 0), DoMarkComplete(1, 0)], [DoMarkPaid(0, 0), DoRefund(0)];
    RunSplits(DEFAULTS, EMPTY, STARTED, marks + ledger);
    AfterStart(DEFAULTS);
    var db := Single(JobIs(InProgress), [HIRED]);
    RunSplits(DEFAULTS, db, marks, ledger);
    BothMarks(db);
    RunTwo(DEFAULTS, db, marks[0], marks[1]);
    var billed := Run(DEFAULTS, db, marks);
    RunTwo(DEFAULTS, billed, ledger[0], ledger[1]);
    PaidAndRefunded(billed);
  }

  lemma BothMarks(db: Db)
    requires db == Single(JobIs(InProgress), [HIRED])
    ensures var after := Following(DEFAULTS, Following(DEFAULTS, db, DoMarkComplete(0, 0)), DoMarkComplete(1, 0));
            after == db.(jobs := after.jobs, billings := [Billing(0, 0, 500, 14 * 24 * 3600, 0, Due, None)])
  {
    assert IsAccepted([HIRED], 0)(0);
    var marked := Single(JobIs(InProgress).(customerDoneAt := Some(0)), [HIRED]);
    assert AcceptedUser(db, 0) == Some(1);
    assert Following(DEFAULTS, db, DoMarkComplete(0, 0)) == marked;
    assert AcceptedUser(marked, 0) == Some(1) && AcceptedWorker(marked.apps, 0) == Some(0);
  }

  lemma PaidAndRefunded(db: Db)
    requires db.billings == [Billing(0, 0, 500, 14 * 24 * 3600, 0, Due, None)] && db.payments == [] && |db.workers| == 1
    ensures var after := Following(DEFAULTS, Following(DEFAULTS, db, DoMarkPaid(0, 0)), DoRefund(0));
            && |after.billings| == 1 && after.billings[0].status.Paid? && after.billings[0].paid == 500
            && HeldAgainst(after.payments, 0) == 0
  {
    var after := Following(DEFAULTS, Following(DEFAULTS, db, DoMarkPaid(0, 0)), DoRefund(0));
    assert SumTo(0, StillHeld(after.payments, 0)) == 0;
  }

  /** A PATCH to IN_PROGRESS and then the owner's completion call: the assert of mark_job_complete fails. */
  lemma StatusPatchReachesTheAssert(cfg: Settings)
    ensures Raises(Next(cfg, Run(cfg, EMPTY, POSTED + [DoUpdateJob(0, 0, StatusPatch(InProgress))]),
            DoMarkComplete(0, 0)), AssertionFailure)
  {
    RunSplits(cfg, EMPTY, POSTED, [DoUpdateJob(0, 0, StatusPatch(InProgress))]);
    AfterPosting(cfg);
    assert Following(cfg, Single(JobIs(Open), []), DoUpdateJob(0, 0, StatusPatch(InProgress)))
        == Single(JobIs(InProgress), []);
  }

  /** A PATCH to COMPLETED and then the owner's review: the assert of submit_review fails. */
  lemma StatusPatchReachesTheReviewAssert(cfg: Settings)
    ensures Raises(Next(cfg, Run(cfg, EMPTY, POSTED + [DoUpdateJob(0, 0, StatusPatch(Completed))]),
            DoSubmitReview(0, 0, 5)), AssertionFailure)
  {
    RunSplits(cfg, EMPTY, POSTED, [DoUpdateJob(0, 0, StatusPatch(Completed))]);
    AfterPosting(cfg);
    assert Following(cfg, Single(JobIs(Open), []), DoUpdateJob(0, 0, StatusPatch(Completed)))
        == Single(JobIs(Completed), []);
  }
}
