/** The two hourly sweeps (job_timeout_service), each as one step on the whole state. */
module Timeouts {
  import opened Prelude
  import opened Tables
  import opened Invariant

  /** Accepted by the customer, never confirmed by the worker. The query does not look at the job. */
  predicate IsExpired(row: Application, cutoff: int) {
    row.status.Accepted? && row.confirmedAt.None? && row.acceptedAt.Some? && row.acceptedAt.value <= cutoff
  }

  function Expire(row: Application): Application {
    row.(status := Rejected, reason := Some(Unresponsive))
  }

  function ExpiredOne(apps: seq<Application>, cutoff: int): nat -> int {
    (a: nat) => if a < |apps| && IsExpired(apps[a], cutoff) then 1 else 0
  }

  function ExpiredOf(apps: seq<Application>, cutoff: int, worker: nat): nat -> int {
    (a: nat) => if a < |apps| && IsExpired(apps[a], cutoff) && apps[a].worker == worker then 1 else 0
  }

  function ExpiredCount(apps: seq<Application>, cutoff: int): int { SumTo(|apps|, ExpiredOne(apps, cutoff)) }

  /** How many of the expired acceptances are charged to the worker. */
  function AssignmentCharge(apps: seq<Application>, cutoff: int, worker: nat): int {
    SumTo(|apps|, ExpiredOf(apps, cutoff, worker))
  }

  function ExpireAll(apps: seq<Application>, cutoff: int): (r: seq<Application>)
    ensures |r| == |apps|
  {
    seq(|apps|, (a: nat) requires a < |apps| => if IsExpired(apps[a], cutoff) then Expire(apps[a]) else apps[a])
  }

  function ChargeWorkers(workers: seq<WorkerProfile>, charge: nat -> int): (r: seq<WorkerProfile>)
    ensures |r| == |workers|
  {
    seq(|workers|, (w: nat) requires w < |workers| => workers[w].(noShows := workers[w].noShows + charge(w)))
  }

  function AssignmentCharges(apps: seq<Application>, cutoff: int): nat -> int {
    (w: nat) => AssignmentCharge(apps, cutoff, w)
  }

  function SweepAssignments(cfg: Settings, db: Db): Db {
    var cutoff := db.now - cfg.timeout;
    db.(apps := ExpireAll(db.apps, cutoff), workers := ChargeWorkers(db.workers, AssignmentCharges(db.apps, cutoff)))
  }

  /** One side marked the running job complete long ago, the other has not. */
  predicate IsStale(job: Job, cutoff: int) {
    job.status.InProgress? &&
    ((job.customerDoneAt.Some? && job.customerDoneAt.value <= cutoff && job.workerDoneAt.None?) ||
     (job.workerDoneAt.Some? && job.workerDoneAt.value <= cutoff && job.customerDoneAt.None?))
  }

  function Finish(job: Job, now: int): Job {
    if job.customerDoneAt.None? then job.(customerDoneAt := Some(now), status := Completed)
    else job.(workerDoneAt := Some(now), status := Completed)
  }

  function FinishAll(jobs: seq<Job>, cutoff: int, now: int): (r: seq<Job>)
    ensures |r| == |jobs|
  {
    seq(|jobs|, (j: nat) requires j < |jobs| => if IsStale(jobs[j], cutoff) then Finish(jobs[j], now) else jobs[j])
  }

  function StaleOne(jobs: seq<Job>, cutoff: int): nat -> int {
    (j: nat) => if j < |jobs| && IsStale(jobs[j], cutoff) then 1 else 0
  }

  function StaleCount(jobs: seq<Job>, cutoff: int): int { SumTo(|jobs|, StaleOne(jobs, cutoff)) }

  /** The customer profile charged for job j, if it is the customer who went quiet. */
  function SilentCustomer(db: Db, cutoff: int, j: nat): Option<nat> {
    if j < |db.jobs| && IsStale(db.jobs[j], cutoff) && db.jobs[j].customerDoneAt.None?
    then FindCustomer(db.customers, db.jobs[j].owner) else None
  }

  function SilentWorker(db: Db, cutoff: int, j: nat): Option<nat> {
    if j < |db.jobs| && IsStale(db.jobs[j], cutoff) && db.jobs[j].customerDoneAt.Some? && AcceptedUser(db, j).Some?
    then FindWorker(db.workers, AcceptedUser(db, j).value) else None
  }

  function ChargesCustomer(db: Db, cutoff: int, c: nat): nat -> int {
    (j: nat) => if SilentCustomer(db, cutoff, j) == Some(c) then 1 else 0
  }

  function ChargesWorker(db: Db, cutoff: int, w: nat): nat -> int {
    (j: nat) => if SilentWorker(db, cutoff, j) == Some(w) then 1 else 0
  }

  function CustomerCharge(db: Db, cutoff: int, c: nat): int { SumTo(|db.jobs|, ChargesCustomer(db, cutoff, c)) }

  function WorkerCharge(db: Db, cutoff: int, w: nat): int { SumTo(|db.jobs|, ChargesWorker(db, cutoff, w)) }

  function CustomerCharges(db: Db, cutoff: int): nat -> int { (c: nat) => CustomerCharge(db, cutoff, c) }

  function WorkerCharges(db: Db, cutoff: int): nat -> int { (w: nat) => WorkerCharge(db, cutoff, w) }

  function ChargeCustomers(customers: seq<CustomerProfile>, charge: nat -> int): (r: seq<CustomerProfile>)
    ensures |r| == |customers|
  {
    seq(|customers|, (c: nat) requires c < |customers| => customers[c].(noShows := customers[c].noShows + charge(c)))
  }

  function SweepCompletions(cfg: Settings, db: Db): Db {
    var cutoff := db.now - cfg.timeout;
    db.(jobs := FinishAll(db.jobs, cutoff, db.now),
        customers := ChargeCustomers(db.customers, CustomerCharges(db, cutoff)),
        workers := ChargeWorkers(db.workers, WorkerCharges(db, cutoff)))
  }

  // ─── Preservation ───────────────────────────────────────────────────────────

  /** The assignment sweep never reads the status of a job, and still cannot reject the
      application behind an assigned, running or completed one: that one is confirmed. */
  lemma SweepSparesSettledJobs(db: Db, a: nat, cutoff: int)
    requires Handshake(db.jobs, db.apps) && a < |db.apps| && IsExpired(db.apps[a], cutoff)
    ensures !IsSettled(db.jobs[db.apps[a].job].status)
  {
  }

  lemma SweepAssignmentsKeeps(cfg: Settings, db: Db)
    requires Inv(db)
    ensures var db' := SweepAssignments(cfg, db); Inv(db') && Evolves(db, db')
  {
    var db' := SweepAssignments(cfg, db);
    SweepAssignmentsHandshake(cfg, db);
    SweepAssignmentsEvolves(cfg, db);
    KeysAfterUpdate(db, db');
    Carry(db, db');
  }

  lemma SweepAssignmentsEvolves(cfg: Settings, db: Db)
    requires AppsEvolve(db.jobs, db.apps, SweepAssignments(cfg, db).apps) && RatingsAgree(db.workers, db.reviews)
    ensures var db' := SweepAssignments(cfg, db); Evolves(db, db') && RatingsAgree(db'.workers, db'.reviews)
  {
  }

  lemma SweepAssignmentsHandshake(cfg: Settings, db: Db)
    requires Handshake(db.jobs, db.apps)
    ensures var db' := SweepAssignments(cfg, db);
            Handshake(db'.jobs, db'.apps) && AppsEvolve(db.jobs, db.apps, db'.apps)
  {
    var db' := SweepAssignments(cfg, db);
    var cutoff := db.now - cfg.timeout;
    forall a: nat | a < |db.apps| && IsExpired(db.apps[a], cutoff) ensures !IsSettled(db.jobs[db.apps[a].job].status) {
      SweepSparesSettledJobs(db, a, cutoff);
    }
    forall j: nat | j < |db.jobs| && IsSettled(db.jobs[j].status) ensures exists a: nat :: IsWinner(db'.apps, j, a) {
      var a: nat :| IsWinner(db.apps, j, a);
      assert IsWinner(db'.apps, j, a);
    }
  }

  lemma SweepCompletionsKeeps(cfg: Settings, db: Db)
    requires Inv(db)
    ensures var db' := SweepCompletions(cfg, db); Inv(db') && Evolves(db, db')
  {
    var db' := SweepCompletions(cfg, db);
    SweepCompletionsJobs(cfg, db);
    SweepCompletionsEvolves(cfg, db);
    KeysAfterUpdate(db, db');
    Carry(db, db');
    SweepCompletionsActive(cfg, db);
  }

  lemma SweepCompletionsEvolves(cfg: Settings, db: Db)
    requires JobsEvolve(db.jobs, SweepCompletions(cfg, db).jobs) && RatingsAgree(db.workers, db.reviews)
    ensures var db' := SweepCompletions(cfg, db); Evolves(db, db') && RatingsAgree(db'.workers, db'.reviews)
  {
  }

  lemma SweepCompletionsJobs(cfg: Settings, db: Db)
    requires Marks(db.jobs) && Handshake(db.jobs, db.apps)
    ensures var jobs' := SweepCompletions(cfg, db).jobs;
            Marks(jobs') && JobsEvolve(db.jobs, jobs') && Handshake(jobs', db.apps)
  {
  }

  lemma SweepCompletionsActive(cfg: Settings, db: Db)
    requires ActiveLimit(db.jobs)
    ensures ActiveLimit(SweepCompletions(cfg, db).jobs)
  {
    var jobs' := SweepCompletions(cfg, db).jobs;
    forall u: nat ensures ActiveCount(jobs', u) <= MAX_ACTIVE_JOBS {
      SumAtMost(|db.jobs|, ActiveJob(jobs', u), ActiveJob(db.jobs, u));
      assert ActiveCount(db.jobs, u) <= MAX_ACTIVE_JOBS;
    }
  }

  // ─── What a sweep achieves ──────────────────────────────────────────────────

  /** After the assignment sweep nothing as old as the timeout is left unconfirmed, and what is
      newer, confirmed or not accepted is untouched. */
  lemma AssignmentSweepIsComplete(cfg: Settings, db: Db, a: nat)
    requires Inv(db) && a < |db.apps|
    ensures var row, row' := db.apps[a], SweepAssignments(cfg, db).apps[a];
            && (row'.status.Accepted? && row'.confirmedAt.None? ==>
               row'.acceptedAt.Some? && row'.acceptedAt.value > db.now - cfg.timeout)
            && (row' != row ==>
                  && row.status.Accepted? && row.confirmedAt.None? && row.acceptedAt.value <= db.now - cfg.timeout
                  && row'.status.Rejected? && row'.reason == Some(Unresponsive))
  {
  }

  lemma NothingExpiredIsLeft(apps: seq<Application>, cutoff: int, w: nat)
    ensures ExpiredCount(ExpireAll(apps, cutoff), cutoff) == 0
    ensures AssignmentCharge(ExpireAll(apps, cutoff), cutoff, w) == 0
  {
    var apps' := ExpireAll(apps, cutoff);
    SumConstant(|apps|, ExpiredOne(apps', cutoff), 0);
    SumConstant(|apps|, ExpiredOf(apps', cutoff, w), 0);
  }

  /** Sweeping the assignments again at the same time changes nothing. */
  lemma AssignmentSweepIsIdempotent(cfg: Settings, db: Db)
    ensures SweepAssignments(cfg, SweepAssignments(cfg, db)) == SweepAssignments(cfg, db)
    ensures ExpiredCount(SweepAssignments(cfg, db).apps, db.now - cfg.timeout) == 0
  {
    var db' := SweepAssignments(cfg, db);
    var cutoff := db.now - cfg.timeout;
    forall w: nat ensures AssignmentCharge(db'.apps, cutoff, w) == 0 {
      NothingExpiredIsLeft(db.apps, cutoff, w);
    }
    NothingExpiredIsLeft(db.apps, cutoff, 0);
    assert ExpireAll(db'.apps, cutoff) == db'.apps;
    assert ChargeWorkers(db'.workers, AssignmentCharges(db'.apps, cutoff)) == db'.workers;
  }

  /** After the completion sweep no running job has a lone mark as old as the timeout, and a job
      with no mark, two marks or a newer lone mark is untouched. */
  lemma CompletionSweepIsComplete(cfg: Settings, db: Db, j: nat)
    requires Inv(db) && j < |db.jobs|
    ensures var row, row', cutoff := db.jobs[j], SweepCompletions(cfg, db).jobs[j], db.now - cfg.timeout;
            var workerWaits := row.workerDoneAt.Some? && row.workerDoneAt.value <= cutoff && row.customerDoneAt.None?;
            var customerWaits := row.customerDoneAt.Some? && row.customerDoneAt.value <= cutoff
                && row.workerDoneAt.None?;
            && (row' != row <==> row.status.InProgress? && (workerWaits || customerWaits))
            && (row' != row && workerWaits ==> row' == row.(customerDoneAt := Some(db.now), status := Completed))
            && (row' != row && customerWaits ==> row' == row.(workerDoneAt := Some(db.now), status := Completed))
            && (row'.status.InProgress? && row'.customerDoneAt.Some? ==> row'.customerDoneAt.value > cutoff)
            && (row'.status.InProgress? && row'.workerDoneAt.Some? ==> row'.workerDoneAt.value > cutoff)
  {
    assert MarksMatch(db.jobs[j]);
  }

  lemma NothingStaleIsLeft(cfg: Settings, db: Db, i: nat)
    ensures var db', cutoff := SweepCompletions(cfg, db), db.now - cfg.timeout;
            && StaleCount(db'.jobs, cutoff) == 0
            && CustomerCharge(db', cutoff, i) == 0
            && WorkerCharge(db', cutoff, i) == 0
  {
    var db', cutoff := SweepCompletions(cfg, db), db.now - cfg.timeout;
    SumConstant(|db.jobs|, StaleOne(db'.jobs, cutoff), 0);
    SumConstant(|db.jobs|, ChargesCustomer(db', cutoff, i), 0);
    SumConstant(|db.jobs|, ChargesWorker(db', cutoff, i), 0);
  }

  /** Sweeping the completions again at the same time changes nothing. */
  lemma CompletionSweepIsIdempotent(cfg: Settings, db: Db)
    ensures SweepCompletions(cfg, SweepCompletions(cfg, db)) == SweepCompletions(cfg, db)
    ensures StaleCount(SweepCompletions(cfg, db).jobs, db.now - cfg.timeout) == 0
  {
    var db' := SweepCompletions(cfg, db);
    var cutoff := db.now - cfg.timeout;
    forall i: nat ensures CustomerCharge(db', cutoff, i) == 0 && WorkerCharge(db', cutoff, i) == 0 {
      NothingStaleIsLeft(cfg, db, i);
    }
    NothingStaleIsLeft(cfg, db, 0);
    assert FinishAll(db'.jobs, cutoff, db.now) == db'.jobs;
    assert ChargeCustomers(db'.customers, CustomerCharges(db', cutoff)) == db'.customers;
    assert ChargeWorkers(db'.workers, WorkerCharges(db', cutoff)) == db'.workers;
  }

  // ─── No-shows ───────────────────────────────────────────────────────────────

  function WorkerNoShows(workers: seq<WorkerProfile>): nat -> int {
    (w: nat) => if w < |workers| then workers[w].noShows else 0
  }

  function CustomerNoShows(customers: seq<CustomerProfile>): nat -> int {
    (c: nat) => if c < |customers| then customers[c].noShows else 0
  }

  function TotalNoShows(db: Db): int {
    SumTo(|db.workers|, WorkerNoShows(db.workers)) + SumTo(|db.customers|, CustomerNoShows(db.customers))
  }

  function AssignmentCell(apps: seq<Application>, cutoff: int): (nat, nat) -> int {
    (a: nat, w: nat) => if a < |apps| && IsExpired(apps[a], cutoff) && apps[a].worker == w then 1 else 0
  }

  lemma AssignmentChargesAddUp(apps: seq<Application>, cutoff: int, workers: nat)
    requires forall a: nat | a < |apps| :: apps[a].worker < workers
    ensures SumTo(workers, AssignmentCharges(apps, cutoff)) == ExpiredCount(apps, cutoff)
  {
    var cell := AssignmentCell(apps, cutoff);
    forall a: nat | a < |apps| ensures SumTo(workers, (w: nat) => cell(a, w)) == ExpiredOne(apps, cutoff)(a) {
      SumSingle(workers, (w: nat) => cell(a, w), apps[a].worker);
    }
    CountByColumn(|apps|, workers, cell, ExpiredOne(apps, cutoff));
    forall w: nat | w < workers ensures Column(|apps|, cell)(w) == AssignmentCharges(apps, cutoff)(w) {
      SumSame(|apps|, (a: nat) => cell(a, w), ExpiredOf(apps, cutoff, w));
    }
    SumSame(workers, Column(|apps|, cell), AssignmentCharges(apps, cutoff));
  }

  /** Charging workers raises the total by the charges. */
  lemma ChargedWorkersTotal(workers: seq<WorkerProfile>, charge: nat -> int)
    ensures SumTo(|workers|, WorkerNoShows(ChargeWorkers(workers, charge)))
            == SumTo(|workers|, WorkerNoShows(workers)) + SumTo(|workers|, charge)
  {
    SumPlus(|workers|, WorkerNoShows(workers), charge, WorkerNoShows(ChargeWorkers(workers, charge)));
  }

  lemma ChargedCustomersTotal(customers: seq<CustomerProfile>, charge: nat -> int)
    ensures SumTo(|customers|, CustomerNoShows(ChargeCustomers(customers, charge)))
            == SumTo(|customers|, CustomerNoShows(customers)) + SumTo(|customers|, charge)
  {
    SumPlus(|customers|, CustomerNoShows(customers), charge, CustomerNoShows(ChargeCustomers(customers, charge)));
  }

  /** The assignment sweep raises the total of all no-show counters by exactly what it returns. */
  lemma AssignmentSweepCharges(cfg: Settings, db: Db)
    requires forall a: nat | a < |db.apps| :: db.apps[a].worker < |db.workers|
    ensures TotalNoShows(SweepAssignments(cfg, db)) == TotalNoShows(db) + ExpiredCount(db.apps, db.now - cfg.timeout)
  {
    var cutoff := db.now - cfg.timeout;
    AssignmentChargesAddUp(db.apps, cutoff, |db.workers|);
    ChargedWorkersTotal(db.workers, AssignmentCharges(db.apps, cutoff));
  }

  function CustomerCell(db: Db, cutoff: int): (nat, nat) -> int {
    (j: nat, c: nat) => if SilentCustomer(db, cutoff, j) == Some(c) then 1 else 0
  }

  function WorkerCell(db: Db, cutoff: int): (nat, nat) -> int {
    (j: nat, w: nat) => if SilentWorker(db, cutoff, j) == Some(w) then 1 else 0
  }

  function CustomerHit(db: Db, cutoff: int): nat -> int {
    (j: nat) => if SilentCustomer(db, cutoff, j).Some? then 1 else 0
  }

  function WorkerHit(db: Db, cutoff: int): nat -> int {
    (j: nat) => if SilentWorker(db, cutoff, j).Some? then 1 else 0
  }

  lemma CustomerChargesAddUp(db: Db, cutoff: int)
    ensures SumTo(|db.customers|, CustomerCharges(db, cutoff)) == SumTo(|db.jobs|, CustomerHit(db, cutoff))
  {
    var cell := CustomerCell(db, cutoff);
    forall j: nat | j < |db.jobs| ensures SumTo(|db.customers|, (c: nat) => cell(j, c)) == CustomerHit(db, cutoff)(j) {
      var hit := SilentCustomer(db, cutoff, j);
      if hit.Some? {
        SumSingle(|db.customers|, (c: nat) => cell(j, c), hit.value);
      } else {
        SumConstant(|db.customers|, (c: nat) => cell(j, c), 0);
      }
    }
    CountByColumn(|db.jobs|, |db.customers|, cell, CustomerHit(db, cutoff));
    forall c: nat | c < |db.customers| ensures Column(|db.jobs|, cell)(c) == CustomerCharges(db, cutoff)(c) {
      SumSame(|db.jobs|, (j: nat) => cell(j, c), ChargesCustomer(db, cutoff, c));
    }
    SumSame(|db.customers|, Column(|db.jobs|, cell), CustomerCharges(db, cutoff));
  }

  lemma WorkerChargesAddUp(db: Db, cutoff: int)
    ensures SumTo(|db.workers|, WorkerCharges(db, cutoff)) == SumTo(|db.jobs|, WorkerHit(db, cutoff))
  {
    var cell := WorkerCell(db, cutoff);
    forall j: nat | j < |db.jobs| ensures SumTo(|db.workers|, (w: nat) => cell(j, w)) == WorkerHit(db, cutoff)(j) {
      var hit := SilentWorker(db, cutoff, j);
      if hit.Some? {
        SumSingle(|db.workers|, (w: nat) => cell(j, w), hit.value);
      } else {
        SumConstant(|db.workers|, (w: nat) => cell(j, w), 0);
      }
    }
    CountByColumn(|db.jobs|, |db.workers|, cell, WorkerHit(db, cutoff));
    forall w: nat | w < |db.workers| ensures Column(|db.jobs|, cell)(w) == WorkerCharges(db, cutoff)(w) {
      SumSame(|db.jobs|, (j: nat) => cell(j, w), ChargesWorker(db, cutoff, w));
    }
    SumSame(|db.workers|, Column(|db.jobs|, cell), WorkerCharges(db, cutoff));
  }

  /** Every stale job has exactly one silent party, and that party has a profile. */
  lemma OneSilentParty(db: Db, cutoff: int, j: nat)
    requires Keys(db) && Unique(db) && Handshake(db.jobs, db.apps) && j < |db.jobs|
    ensures CustomerHit(db, cutoff)(j) + WorkerHit(db, cutoff)(j) == StaleOne(db.jobs, cutoff)(j)
  {
    if IsStale(db.jobs[j], cutoff) {
      var a := WinnerIsFound(db, j);
    }
  }

  /** The silent parties with a profile are as many as the stale jobs. */
  predicate HasProfilesForAll(db: Db, cutoff: int) {
    SumTo(|db.jobs|, CustomerHit(db, cutoff)) + SumTo(|db.jobs|, WorkerHit(db, cutoff)) == StaleCount(db.jobs, cutoff)
  }

  lemma SilentPartiesAddUp(db: Db, cutoff: int)
    requires Keys(db) && Unique(db) && Handshake(db.jobs, db.apps)
    ensures HasProfilesForAll(db, cutoff)
  {
    forall j: nat | j < |db.jobs|
      ensures StaleOne(db.jobs, cutoff)(j) == CustomerHit(db, cutoff)(j) + WorkerHit(db, cutoff)(j)
    {
      OneSilentParty(db, cutoff, j);
    }
    SumPlus(|db.jobs|, CustomerHit(db, cutoff), WorkerHit(db, cutoff), StaleOne(db.jobs, cutoff));
  }

  /** The completion sweep raises the total of all no-show counters by exactly what it returns. */
  lemma CompletionSweepCharges(cfg: Settings, db: Db)
    requires HasProfilesForAll(db, db.now - cfg.timeout)
    ensures TotalNoShows(SweepCompletions(cfg, db)) == TotalNoShows(db) + StaleCount(db.jobs, db.now - cfg.timeout)
  {
    var cutoff := db.now - cfg.timeout;
    ChargedWorkersTotal(db.workers, WorkerCharges(db, cutoff));
    ChargedCustomersTotal(db.customers, CustomerCharges(db, cutoff));
    CustomerChargesAddUp(db, cutoff);
    WorkerChargesAddUp(db, cutoff);
  }
}
