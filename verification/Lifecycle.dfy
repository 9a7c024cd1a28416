/** Applications and the two handshakes of a job (crud_job_applications, job_lifecycle_service). */
module Lifecycle {
  import opened Prelude
  import opened Tables
  import opened Invariant

  // ─── crud_job_applications ──────────────────────────────────────────────────

  function AppliedBy(apps: seq<Application>, job: nat, worker: nat): nat -> bool {
    (a: nat) => a < |apps| && apps[a].job == job && apps[a].worker == worker
  }

  function Apply(db: Db, user: nat, job: nat): Outcome {
    if user >= |db.users| then Fail(Unauthorized)
    else if !db.users[user].role.Worker? then Fail(Forbidden)
    else if job >= |db.jobs| then Fail(NotFound)
    else if !db.jobs[job].status.Open? then Fail(BadRequest)
    else
      var w := FindWorker(db.workers, user);
      if w.None? then Fail(NotFound)
      else if First(|db.apps|, AppliedBy(db.apps, job, w.value)).Some? then Fail(BadRequest)
      else Ok(db.(apps := db.apps + [Application(job, w.value, Pending, None, None, None)]))
  }

  /** The owner's PATCH of an application: accept, reject, or back to pending. */
  function UpdateApplication(db: Db, user: nat, job: nat, app: nat,
                             status: ApplicationStatus, reason: Option<DeclineReason>): Outcome {
    if user >= |db.users| then Fail(Unauthorized)
    else if status.Rejected? != reason.Some? then Fail(InvalidPayload)
    else if !db.users[user].role.Customer? then Fail(Forbidden)
    else if job >= |db.jobs| then Fail(NotFound)
    else if db.jobs[job].owner != user then Fail(Forbidden)
    else if !db.jobs[job].status.Open? then Fail(BadRequest)
    else if app >= |db.apps| || db.apps[app].job != job then Fail(NotFound)
    else if status.Accepted? && AcceptedApp(db.apps, job).Some? && !db.apps[app].status.Accepted? then Fail(BadRequest)
    else
      var row := if status.Accepted? then db.apps[app].(acceptedAt := Some(db.now)) else db.apps[app];
      Ok(db.(apps := db.apps[app := row.(status := status, reason := reason)]))
  }

  // ─── job_lifecycle_service ──────────────────────────────────────────────────

  predicate LosesTo(apps: seq<Application>, job: nat, winner: nat, a: nat)
    requires a < |apps|
  {
    apps[a].job == job && a != winner && !apps[a].status.Rejected?
  }

  function Lost(row: Application): Application {
    row.(status := Rejected, reason := Some(AnotherApplicantSelected))
  }

  /** Every other application of the job that was still in the race is out. */
  function RejectOthers(apps: seq<Application>, job: nat, winner: nat): (r: seq<Application>)
    ensures |r| == |apps|
  {
    seq(|apps|, (a: nat) requires a < |apps| => if LosesTo(apps, job, winner, a) then Lost(apps[a]) else apps[a])
  }

  predicate IsApplicant(db: Db, user: nat, app: nat)
    requires app < |db.apps|
  {
    db.apps[app].worker < |db.workers| && db.workers[db.apps[app].worker].user == user
  }

  function Confirm(db: Db, user: nat, job: nat, app: nat): Outcome {
    if user >= |db.users| then Fail(Unauthorized)
    else if job >= |db.jobs| || app >= |db.apps| || db.apps[app].job != job then Fail(NotFound)
    else if !IsApplicant(db, user, app) then Fail(Forbidden)
    else if !db.apps[app].status.Accepted? then Fail(BadRequest)
    else if !db.jobs[job].status.Open? then Fail(BadRequest)
    else
      var apps := db.apps[app := db.apps[app].(confirmedAt := Some(db.now))];
      Ok(db.(jobs := db.jobs[job := db.jobs[job].(status := Assigned)], apps := RejectOthers(apps, job, app)))
  }

  function Withdraw(db: Db, user: nat, job: nat, app: nat, reason: DeclineReason): Outcome {
    if user >= |db.users| then Fail(Unauthorized)
    else if job >= |db.jobs| || app >= |db.apps| || db.apps[app].job != job then Fail(NotFound)
    else if !IsApplicant(db, user, app) then Fail(Forbidden)
    else if db.apps[app].status.Rejected? then Fail(BadRequest)
    else if !db.jobs[job].status.Open? then Fail(BadRequest)
    else Ok(db.(apps := db.apps[app := db.apps[app].(status := Rejected, reason := Some(reason))]))
  }

  function Start(db: Db, user: nat, job: nat): Outcome {
    if user >= |db.users| then Fail(Unauthorized)
    else if job >= |db.jobs| then Fail(NotFound)
    else if AcceptedUser(db, job) != Some(user) then Fail(Forbidden)
    else if !db.jobs[job].status.Assigned? then Fail(BadRequest)
    else Ok(db.(jobs := db.jobs[job := db.jobs[job].(status := InProgress)]))
  }

  function Mark(job: Job, asCustomer: bool, now: int): Job {
    var marked := if asCustomer then job.(customerDoneAt := Some(now)) else job.(workerDoneAt := Some(now));
    if marked.customerDoneAt.Some? && marked.workerDoneAt.Some? then marked.(status := Completed) else marked
  }

  function BillingFor(cfg: Settings, db: Db, job: nat, worker: nat): Billing {
    Billing(worker, job, cfg.commission, db.now + cfg.grace, 0, Due, None)
  }

  function BilledFor(billings: seq<Billing>, job: nat): nat -> bool {
    (b: nat) => b < |billings| && billings[b].job == job
  }

  /** The completion is committed before the billing row is inserted. */
  function MarkComplete(cfg: Settings, db: Db, user: nat, job: nat): Outcome {
    if user >= |db.users| then Fail(Unauthorized)
    else if job >= |db.jobs| then Fail(NotFound)
    else
      var row := db.jobs[job];
      var worker := AcceptedUser(db, job);
      if row.owner != user && worker != Some(user) then Fail(Forbidden)
      else if !row.status.InProgress? then Fail(BadRequest)
      else if worker.None? then Fail(AssertionFailure)
      else if (if row.owner == user then row.customerDoneAt else row.workerDoneAt).Some? then Fail(BadRequest)
      else
        var marked := Mark(row, row.owner == user, db.now);
        var jobs := db.jobs[job := marked];
        if !marked.status.Completed? then Ok(db.(jobs := jobs))
        else
          var profile := AcceptedWorker(db.apps, job);
          if profile.None? then Late(AssertionFailure, db.(jobs := jobs))
          else if First(|db.billings|, BilledFor(db.billings, job)).Some? then Late(IntegrityError, db.(jobs := jobs))
          else Ok(db.(jobs := jobs, billings := db.billings + [BillingFor(cfg, db, job, profile.value)]))
  }

  // ─── Preservation ───────────────────────────────────────────────────────────

  lemma ApplyKeeps(db: Db, user: nat, job: nat)
    requires Inv(db) && Apply(db, user, job).Ok?
    ensures var db' := Apply(db, user, job).db; Inv(db') && Evolves(db, db')
  {
    var db' := Apply(db, user, job).db;
    ApplyEvolves(db, user, job);
    ApplyKeys(db, user, job);
    ApplyHandshake(db, user, job);
    Carry(db, db');
  }

  lemma ApplyEvolves(db: Db, user: nat, job: nat)
    requires Apply(db, user, job).Ok?
    ensures Evolves(db, Apply(db, user, job).db)
  {
  }

  lemma ApplyKeys(db: Db, user: nat, job: nat)
    requires Keys(db) && Unique(db) && Apply(db, user, job).Ok?
    ensures var db' := Apply(db, user, job).db; Keys(db') && Unique(db')
  {
    var w := FindWorker(db.workers, user).value;
    forall a: nat | a < |db.apps| ensures db.apps[a].job != job || db.apps[a].worker != w {
      assert !AppliedBy(db.apps, job, w)(a);
    }
  }

  lemma ApplyHandshake(db: Db, user: nat, job: nat)
    requires Handshake(db.jobs, db.apps) && Apply(db, user, job).Ok?
    ensures Handshake(db.jobs, Apply(db, user, job).db.apps)
  {
    var apps' := Apply(db, user, job).db.apps;
    forall j: nat | j < |db.jobs| && IsSettled(db.jobs[j].status) ensures exists a: nat :: IsWinner(apps', j, a) {
      var a: nat :| IsWinner(db.apps, j, a);
      assert IsWinner(apps', j, a);
    }
  }

  /** Changing one application of a job whose handshake is open, with at most one acceptance as a result. */
  lemma OpenApplicationUpdate(db: Db, app: nat, row: Application)
    requires Inv(db) && app < |db.apps| && !IsSettled(db.jobs[db.apps[app].job].status)
    requires row.job == db.apps[app].job && row.worker == db.apps[app].worker
             && row.confirmedAt == db.apps[app].confirmedAt
    requires row.status.Accepted? ==> row.acceptedAt.Some?
    requires row.status.Accepted? ==>
             forall b: nat | b < |db.apps| && b != app && db.apps[b].job == row.job :: !db.apps[b].status.Accepted?
    ensures var db' := db.(apps := db.apps[app := row]); Inv(db') && Evolves(db, db')
  {
    var db' := db.(apps := db.apps[app := row]);
    AppUpdateEvolves(db, app, row);
    KeysAfterUpdate(db, db');
    OpenHandshakeUpdate(db, app, row);
    Carry(db, db');
  }

  lemma OpenHandshakeUpdate(db: Db, app: nat, row: Application)
    requires Handshake(db.jobs, db.apps) && app < |db.apps| && !IsSettled(db.jobs[db.apps[app].job].status)
    requires row.job == db.apps[app].job && row.confirmedAt == db.apps[app].confirmedAt
    requires row.status.Accepted? ==> row.acceptedAt.Some?
    requires row.status.Accepted? ==>
             forall b: nat | b < |db.apps| && b != app && db.apps[b].job == row.job :: !db.apps[b].status.Accepted?
    ensures Handshake(db.jobs, db.apps[app := row])
  {
    var apps' := db.apps[app := row];
    forall j: nat | j < |db.jobs| && IsSettled(db.jobs[j].status) ensures exists a: nat :: IsWinner(apps', j, a) {
      var a: nat :| IsWinner(db.apps, j, a);
      assert IsWinner(apps', j, a);
    }
  }

  lemma UpdateApplicationKeeps(db: Db, user: nat, job: nat, app: nat, status: ApplicationStatus,
                               reason: Option<DeclineReason>)
    requires Inv(db) && UpdateApplication(db, user, job, app, status, reason).Ok?
    ensures var db' := UpdateApplication(db, user, job, app, status, reason).db; Inv(db') && Evolves(db, db')
  {
    var row := UpdateApplication(db, user, job, app, status, reason).db.apps[app];
    forall b: nat | status.Accepted? && b < |db.apps| && b != app && db.apps[b].job == job
      ensures !db.apps[b].status.Accepted?
    {
      assert AcceptedApp(db.apps, job).None? ==> !IsAccepted(db.apps, job)(b);
    }
    OpenApplicationUpdate(db, app, row);
  }

  lemma WithdrawKeeps(db: Db, user: nat, job: nat, app: nat, reason: DeclineReason)
    requires Inv(db) && Withdraw(db, user, job, app, reason).Ok?
    ensures var db' := Withdraw(db, user, job, app, reason).db; Inv(db') && Evolves(db, db')
  {
    OpenApplicationUpdate(db, app, db.apps[app].(status := Rejected, reason := Some(reason)));
  }

  lemma ConfirmKeeps(db: Db, user: nat, job: nat, app: nat)
    requires Inv(db) && Confirm(db, user, job, app).Ok?
    ensures var db' := Confirm(db, user, job, app).db; Inv(db') && Evolves(db, db')
  {
    var db' := Confirm(db, user, job, app).db;
    ConfirmEvolves(db, user, job, app);
    KeysAfterUpdate(db, db');
    ConfirmHandshake(db, user, job, app);
    Carry(db, db');
    ActiveAfterUpdate(db.jobs, job, db'.jobs[job]);
  }

  lemma ConfirmEvolves(db: Db, user: nat, job: nat, app: nat)
    requires Marks(db.jobs) && Confirm(db, user, job, app).Ok?
    ensures var db' := Confirm(db, user, job, app).db; Evolves(db, db') && Marks(db'.jobs)
  {
  }

  lemma ConfirmHandshake(db: Db, user: nat, job: nat, app: nat)
    requires Handshake(db.jobs, db.apps) && Confirm(db, user, job, app).Ok?
    ensures var db' := Confirm(db, user, job, app).db; Handshake(db'.jobs, db'.apps)
  {
    var db' := Confirm(db, user, job, app).db;
    forall j: nat | j < |db'.jobs| && IsSettled(db'.jobs[j].status) ensures exists a: nat :: IsWinner(db'.apps, j, a) {
      if j == job {
        assert IsWinner(db'.apps, job, app);
      } else {
        var a: nat :| IsWinner(db.apps, j, a);
        assert IsWinner(db'.apps, j, a);
      }
    }
  }

  lemma StartKeeps(db: Db, user: nat, job: nat)
    requires Inv(db) && Start(db, user, job).Ok?
    ensures var db' := Start(db, user, job).db; Inv(db') && Evolves(db, db')
  {
    assert MarksMatch(db.jobs[job]);
    SettledUpdate(db, job, db.jobs[job].(status := InProgress));
  }

  /** Moving a settled job forwards, without new billing rows. */
  lemma SettledUpdate(db: Db, job: nat, row: Job)
    requires Inv(db) && job < |db.jobs| && JobEvolves(db.jobs[job], row) && MarksMatch(row)
    requires IsSettled(db.jobs[job].status) && IsSettled(row.status) && row.deleted == db.jobs[job].deleted
    requires !db.jobs[job].status.Completed?
    ensures var db' := db.(jobs := db.jobs[job := row]); Inv(db') && Evolves(db, db')
  {
    var db' := db.(jobs := db.jobs[job := row]);
    JobUpdateEvolves(db, job, row);
    KeysAfterUpdate(db, db');
    SettledHandshake(db, job, row);
    Carry(db, db');
    ActiveAfterUpdate(db.jobs, job, row);
  }

  lemma SettledHandshake(db: Db, job: nat, row: Job)
    requires Handshake(db.jobs, db.apps) && job < |db.jobs|
    requires IsSettled(db.jobs[job].status) && IsSettled(row.status)
    ensures Handshake(db.jobs[job := row], db.apps)
  {
  }

  lemma MarkAdvances(job: Job, asCustomer: bool, now: int)
    requires MarksMatch(job) && job.status.InProgress?
    requires (if asCustomer then job.customerDoneAt else job.workerDoneAt).None?
    ensures var row := Mark(job, asCustomer, now);
            JobEvolves(job, row) && MarksMatch(row) && IsSettled(row.status) && row.deleted == job.deleted
  {
  }

  lemma BillEvolves(db: Db, mid: Db, row: Billing)
    requires Evolves(db, mid)
    ensures Evolves(db, mid.(billings := mid.billings + [row]))
  {
  }

  /** What a successful call writes. */
  lemma MarkCompleteWrites(cfg: Settings, db: Db, user: nat, job: nat, mid: Db)
    requires job < |db.jobs|
    requires MarkComplete(cfg, db, user, job).Ok?
    requires mid == db.(jobs := db.jobs[job := Mark(db.jobs[job], db.jobs[job].owner == user, db.now)])
    ensures db.jobs[job].status.InProgress?
    ensures (if db.jobs[job].owner == user then db.jobs[job].customerDoneAt else db.jobs[job].workerDoneAt).None?
    ensures if mid.jobs[job].status.Completed?
            then
              && AcceptedWorker(mid.apps, job).Some?
              && First(|mid.billings|, BilledFor(mid.billings, job)).None?
              && MarkComplete(cfg, db, user, job).db
                 == mid.(billings := mid.billings + [BillingFor(cfg, mid, job, AcceptedWorker(mid.apps, job).value)])
            else MarkComplete(cfg, db, user, job).db == mid
  {
  }

  lemma MarkCompleteKeeps(cfg: Settings, db: Db, user: nat, job: nat)
    requires Inv(db) && MarkComplete(cfg, db, user, job).Ok?
    ensures var db' := MarkComplete(cfg, db, user, job).db; Inv(db') && Evolves(db, db')
  {
    var row := Mark(db.jobs[job], db.jobs[job].owner == user, db.now);
    var mid := db.(jobs := db.jobs[job := row]);
    MarkCompleteWrites(cfg, db, user, job, mid);
    MarkAdvances(db.jobs[job], db.jobs[job].owner == user, db.now);
    SettledUpdate(db, job, row);
    if row.status.Completed? {
      BillCompleted(cfg, mid, job);
      BillEvolves(db, mid, BillingFor(cfg, mid, job, AcceptedWorker(mid.apps, job).value));
    }
  }

  /** Adding the billing row of a completed job that has none. */
  lemma BillCompleted(cfg: Settings, db: Db, job: nat)
    requires Inv(db) && job < |db.jobs| && db.jobs[job].status.Completed?
    requires AcceptedWorker(db.apps, job).Some?
    requires First(|db.billings|, BilledFor(db.billings, job)).None?
    ensures var db' := db.(billings := db.billings + [BillingFor(cfg, db, job, AcceptedWorker(db.apps, job).value)]);
            Inv(db')
  {
    var w := AcceptedWorker(db.apps, job).value;
    forall b: nat | b < |db.billings| ensures db.billings[b].job != job {
      assert !BilledFor(db.billings, job)(b);
    }
    BillBalance(cfg, db, job, w);
    BillRows(cfg, db, job);
    BillFrame(db, BillingFor(cfg, db, job, w));
  }

  lemma BillRows(cfg: Settings, db: Db, job: nat)
    requires Keys(db) && Handshake(db.jobs, db.apps) && BillingRows(db)
    requires job < |db.jobs| && db.jobs[job].status.Completed? && AcceptedWorker(db.apps, job).Some?
    ensures var db' := db.(billings := db.billings + [BillingFor(cfg, db, job, AcceptedWorker(db.apps, job).value)]);
            Keys(db') && BillingRows(db')
  {
  }

  lemma BillFrame(db: Db, row: Billing)
    requires Keys(db) && Unique(db) && ReviewRows(db)
    ensures var db' := db.(billings := db.billings + [row]); Keys(db') && Unique(db') && ReviewRows(db')
  {
  }

  lemma BillBalance(cfg: Settings, db: Db, job: nat, worker: nat)
    requires BillingBalance(db) && forall b: nat | b < |db.billings| :: db.billings[b].job != job
    ensures BillingBalance(db.(billings := db.billings + [BillingFor(cfg, db, job, worker)]))
  {
    var db' := db.(billings := db.billings + [BillingFor(cfg, db, job, worker)]);
    forall b: nat | b < |db'.billings| ensures Balanced(db', b) {
      if b < |db.billings| { assert Balanced(db, b); }
    }
  }

  /** The asserts of mark_job_complete hold and its billing insert meets no earlier row:
      the handshake put an accepted worker behind every running job. */
  lemma MarkCompleteNeverBreaks(cfg: Settings, db: Db, user: nat, job: nat)
    requires Keys(db) && Handshake(db.jobs, db.apps) && BillingRows(db)
    ensures !Raises(MarkComplete(cfg, db, user, job), AssertionFailure)
    ensures !Raises(MarkComplete(cfg, db, user, job), IntegrityError)
    ensures !MarkComplete(cfg, db, user, job).Late?
  {
    if job < |db.jobs| && db.jobs[job].status.InProgress? {
      var a := WinnerIsFound(db, job);
      assert forall b: nat | b < |db.billings| :: !BilledFor(db.billings, job)(b);
    }
  }
}
