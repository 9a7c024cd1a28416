/** Who asked for what a run did: behind every acceptance, confirmation and start stands a successful call of the
    party it is up to. */
module Provenance {
  import opened Prelude
  import opened Tables
  import opened Invariant
  import opened Jobs
  import opened Lifecycle
  import opened Timeouts
  import opened Reviewing
  import opened Billings
  import opened Marketplace

  /** The step occurs in the run and succeeds there. */
  predicate Succeeds(cfg: Settings, db: Db, steps: seq<Step>, step: Step)
    decreases |steps|
  {
    steps != [] &&
    ((steps[0] == step && Next(cfg, db, step).Ok?) || Succeeds(cfg, Following(cfg, db, steps[0]), steps[1..], step))
  }

  predicate IsConfirmed(db: Db, a: nat) { a < |db.apps| && db.apps[a].confirmedAt.Some? }

  predicate IsTaken(db: Db, a: nat) { a < |db.apps| && db.apps[a].status == Accepted }

  predicate IsUnderWay(db: Db, j: nat) {
    j < |db.jobs| && (db.jobs[j].status == InProgress || db.jobs[j].status == Completed)
  }

  /** The confirmation by the user of the application's worker profile. */
  function ConfirmationOf(db: Db, a: nat): Step
    requires Keys(db) && a < |db.apps|
  {
    DoConfirm(db.workers[db.apps[a].worker].user, db.apps[a].job, a)
  }

  /** The acceptance by the owner of the application's job. */
  function AcceptanceOf(db: Db, a: nat): Step
    requires Keys(db) && a < |db.apps|
  {
    DoUpdateApplication(db.jobs[db.apps[a].job].owner, db.apps[a].job, a, Accepted, None)
  }

  // ─── One step ───────────────────────────────────────────────────────────────

  lemma StepConfirms(cfg: Settings, db: Db, step: Step, a: nat)
    requires Keys(db) && !IsConfirmed(db, a) && IsConfirmed(Following(cfg, db, step), a)
    ensures a < |db.apps| && step == ConfirmationOf(db, a) && Next(cfg, db, step).Ok?
  {
  }

  lemma StepAccepts(cfg: Settings, db: Db, step: Step, a: nat)
    requires Keys(db) && !IsTaken(db, a) && IsTaken(Following(cfg, db, step), a)
    ensures a < |db.apps| && step == AcceptanceOf(db, a) && Next(cfg, db, step).Ok?
  {
  }

  lemma StepStarts(cfg: Settings, db: Db, step: Step, j: nat)
    requires IsSafe(step) && !IsUnderWay(db, j) && IsUnderWay(Following(cfg, db, step), j)
    ensures step.DoStart? && step.job == j && AcceptedUser(db, j) == Some(step.user) && Next(cfg, db, step).Ok?
    ensures j < |db.jobs| && IsSettled(db.jobs[j].status)
  {
  }

  /** Whose application it is, and whose job, never changes. */
  lemma PartiesStay(db: Db, db': Db, a: nat)
    requires Keys(db) && Keys(db') && Evolves(db, db') && a < |db.apps|
    ensures a < |db'.apps| && ConfirmationOf(db', a) == ConfirmationOf(db, a)
            && AcceptanceOf(db', a) == AcceptanceOf(db, a)
  {
    assert JobEvolves(db.jobs[db.apps[a].job], db'.jobs[db.apps[a].job]);
  }

  // ─── A run ──────────────────────────────────────────────────────────────────

  lemma {:induction false} ConfirmationsComeFromWorkers(cfg: Settings, db: Db, steps: seq<Step>, a: nat)
    requires Inv(db) && AllSafe(steps) && !IsConfirmed(db, a) && IsConfirmed(Run(cfg, db, steps), a)
    ensures Keys(Run(cfg, db, steps)) && Succeeds(cfg, db, steps, ConfirmationOf(Run(cfg, db, steps), a))
    decreases |steps|
  {
    var mid, rest := Following(cfg, db, steps[0]), steps[1..];
    assert Inv(mid) by { FollowingKeeps(cfg, db, steps[0]); }
    if IsConfirmed(mid, a) {
      StepConfirms(cfg, db, steps[0], a);
      LaterParties(cfg, db, steps, a);
    } else {
      ConfirmationsComeFromWorkers(cfg, mid, rest, a);
    }
  }

  lemma {:induction false} AcceptancesComeFromOwners(cfg: Settings, db: Db, steps: seq<Step>, a: nat)
    requires Inv(db) && AllSafe(steps) && !IsTaken(db, a) && IsTaken(Run(cfg, db, steps), a)
    ensures Keys(Run(cfg, db, steps)) && Succeeds(cfg, db, steps, AcceptanceOf(Run(cfg, db, steps), a))
    decreases |steps|
  {
    var mid, rest := Following(cfg, db, steps[0]), steps[1..];
    assert Inv(mid) by { FollowingKeeps(cfg, db, steps[0]); }
    if IsTaken(mid, a) {
      StepAccepts(cfg, db, steps[0], a);
      LaterParties(cfg, db, steps, a);
    } else {
      AcceptancesComeFromOwners(cfg, mid, rest, a);
    }
  }

  lemma LaterParties(cfg: Settings, db: Db, steps: seq<Step>, a: nat)
    requires Inv(db) && AllSafe(steps) && a < |db.apps|
    ensures var db' := Run(cfg, db, steps);
            && Keys(db') && a < |db'.apps|
            && ConfirmationOf(db', a) == ConfirmationOf(db, a) && AcceptanceOf(db', a) == AcceptanceOf(db, a)
  {
    RunKeeps(cfg, db, steps);
    PartiesStay(db, Run(cfg, db, steps), a);
  }

  lemma {:induction false} StartsComeFromWorkers(cfg: Settings, db: Db, steps: seq<Step>, j: nat)
    requires Inv(db) && AllSafe(steps) && !IsUnderWay(db, j) && IsUnderWay(Run(cfg, db, steps), j)
    ensures AcceptedUser(Run(cfg, db, steps), j).Some?
    ensures Succeeds(cfg, db, steps, DoStart(AcceptedUser(Run(cfg, db, steps), j).value, j))
    decreases |steps|
  {
    var mid, rest := Following(cfg, db, steps[0]), steps[1..];
    assert Inv(mid) by { FollowingKeeps(cfg, db, steps[0]); }
    if IsUnderWay(mid, j) {
      StartedFirst(cfg, db, steps, j);
    } else {
      StartsComeFromWorkers(cfg, mid, rest, j);
    }
  }

  lemma StartedFirst(cfg: Settings, db: Db, steps: seq<Step>, j: nat)
    requires Inv(db) && AllSafe(steps) && steps != []
    requires !IsUnderWay(db, j) && IsUnderWay(Following(cfg, db, steps[0]), j)
    ensures AcceptedUser(Run(cfg, db, steps), j).Some?
    ensures Succeeds(cfg, db, steps, DoStart(AcceptedUser(Run(cfg, db, steps), j).value, j))
  {
    StepStarts(cfg, db, steps[0], j);
    LaterWorker(cfg, db, steps, j);
  }

  lemma LaterWorker(cfg: Settings, db: Db, steps: seq<Step>, j: nat)
    requires Inv(db) && AllSafe(steps) && j < |db.jobs| && IsSettled(db.jobs[j].status)
    ensures AcceptedUser(Run(cfg, db, steps), j) == AcceptedUser(db, j)
  {
    RunKeeps(cfg, db, steps);
    AcceptedUserIsFixed(db, Run(cfg, db, steps), j);
  }

  /** In every reachable state each half of the handshake was asked for by its own party: the owner accepted the winning
      application, its worker confirmed it, and that worker started the job before it ran or was completed. */
  lemma EachHalfWasAsked(cfg: Settings, steps: seq<Step>, job: nat, a: nat)
    requires AllSafe(steps) && job < |Run(cfg, EMPTY, steps).jobs| && IsWinner(Run(cfg, EMPTY, steps).apps, job, a)
    ensures var db := Run(cfg, EMPTY, steps);
            && db.apps[a].worker < |db.workers|
            && var owner, worker := db.jobs[job].owner, db.workers[db.apps[a].worker].user;
            && owner != worker
            && Succeeds(cfg, EMPTY, steps, DoUpdateApplication(owner, job, a, Accepted, None))
            && Succeeds(cfg, EMPTY, steps, DoConfirm(worker, job, a))
            && (db.jobs[job].status == InProgress || db.jobs[job].status == Completed ==>
                  Succeeds(cfg, EMPTY, steps, DoStart(worker, job)))
  {
    var db := Run(cfg, EMPTY, steps);
    EmptyIsSound();
    AcceptancesComeFromOwners(cfg, EMPTY, steps, a);
    ConfirmationsComeFromWorkers(cfg, EMPTY, steps, a);
    WinnersUser(cfg, steps, job, a);
    if IsUnderWay(db, job) { StartsComeFromWorkers(cfg, EMPTY, steps, job); }
  }

  lemma WinnersUser(cfg: Settings, steps: seq<Step>, job: nat, a: nat)
    requires AllSafe(steps) && job < |Run(cfg, EMPTY, steps).jobs| && IsWinner(Run(cfg, EMPTY, steps).apps, job, a)
    ensures var db := Run(cfg, EMPTY, steps);
            && db.apps[a].worker < |db.workers| && db.jobs[job].owner != db.workers[db.apps[a].worker].user
            && AcceptedUser(db, job) == Some(db.workers[db.apps[a].worker].user)
  {
    ReachableIsSound(cfg, steps);
    var db := Run(cfg, EMPTY, steps);
    var b := WinnerIsFound(db, job);
  }
}
