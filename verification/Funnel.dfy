/** The admin conversion funnel (analytics_service.get_conversion_funnel). */
module Funnel {
  import opened Prelude
  import opened Tables
  import opened Invariant
  import opened Marketplace

  /** Optional bounds on the day a job was posted. */
  datatype Range = Range(from: Option<int>, to: Option<int>)

  predicate InRange(job: Job, range: Range) {
    && !job.deleted
    && (range.from.Some? ==> range.from.value <= job.createdAt)
    && (range.to.Some? ==> job.createdAt <= range.to.value)
  }

  function Posted(db: Db, range: Range): set<nat> {
    set j: nat | j < |db.jobs| && InRange(db.jobs[j], range)
  }

  /** COUNT(DISTINCT jobs.id) over the join with the applications. */
  function Applied(db: Db, range: Range): set<nat> {
    set a: nat | a < |db.apps| && db.apps[a].job < |db.jobs| && InRange(db.jobs[db.apps[a].job], range) ::
        db.apps[a].job
  }

  function Assigned(db: Db, range: Range): set<nat> {
    set j: nat | j < |db.jobs| && InRange(db.jobs[j], range) && IsSettled(db.jobs[j].status)
  }

  function Finished(db: Db, range: Range): set<nat> {
    set j: nat | j < |db.jobs| && InRange(db.jobs[j], range) && db.jobs[j].status.Completed?
  }

  /** Each stage in terms of the rows: the undeleted jobs posted in the range, those with an application, those that
      got as far as ASSIGNED without being cancelled, and the completed ones. */
  lemma StagesMean(db: Db, range: Range, j: nat)
    requires forall a: nat | a < |db.apps| :: db.apps[a].job < |db.jobs|
    ensures j in Posted(db, range)
            <==> && j < |db.jobs| && !db.jobs[j].deleted
                 && (range.from == None || range.from.value <= db.jobs[j].createdAt)
                 && (range.to == None || db.jobs[j].createdAt <= range.to.value)
    ensures j in Applied(db, range) <==> j in Posted(db, range) && exists a: nat :: a < |db.apps| && db.apps[a].job == j
    ensures j in Assigned(db, range)
            <==> j in Posted(db, range) && db.jobs[j].status != Open && db.jobs[j].status != Cancelled
    ensures j in Finished(db, range) <==> j in Posted(db, range) && db.jobs[j].status == Completed
  {
  }

  lemma Smaller(s: set<nat>, t: set<nat>)
    requires s <= t
    ensures |s| <= |t|
  {
    assert t == s + (t - s);
  }

  /** The four stages are nested for every range, so the counts never increase along the funnel. */
  lemma StagesAreNested(db: Db, range: Range)
    requires Handshake(db.jobs, db.apps)
    ensures Finished(db, range) <= Assigned(db, range) <= Applied(db, range) <= Posted(db, range)
    ensures |Finished(db, range)| <= |Assigned(db, range)| <= |Applied(db, range)| <= |Posted(db, range)|
  {
    forall j: nat | j in Assigned(db, range) ensures j in Applied(db, range) {
      var a: nat :| IsWinner(db.apps, j, a);
      assert db.apps[a].job == j;
    }
    Smaller(Finished(db, range), Assigned(db, range));
    Smaller(Assigned(db, range), Applied(db, range));
    Smaller(Applied(db, range), Posted(db, range));
  }

  /** The same in every reachable state. */
  lemma StagesInEveryRun(cfg: Settings, steps: seq<Step>, range: Range)
    requires AllSafe(steps)
    ensures var db := Run(cfg, EMPTY, steps);
            && Finished(db, range) <= Assigned(db, range) <= Applied(db, range) <= Posted(db, range)
            && |Finished(db, range)| <= |Assigned(db, range)| <= |Applied(db, range)| <= |Posted(db, range)|
  {
    ReachableIsSound(cfg, steps);
    StagesAreNested(Run(cfg, EMPTY, steps), range);
  }

  /** A stage is strict exactly when some job of the range stopped there; nothing makes one stop. */
  lemma StrictExactlyWhen(db: Db, range: Range)
    requires Handshake(db.jobs, db.apps)
    ensures Finished(db, range) < Assigned(db, range)
            <==> exists j: nat :: j in Assigned(db, range) && !db.jobs[j].status.Completed?
    ensures Assigned(db, range) < Applied(db, range)
            <==> exists j: nat :: j in Applied(db, range) && !IsSettled(db.jobs[j].status)
    ensures Applied(db, range) < Posted(db, range)
            <==> exists j: nat :: j in Posted(db, range) && forall a: nat | a < |db.apps| :: db.apps[a].job != j
  {
    StagesAreNested(db, range);
  }

  /** So no stage is strict while there are no jobs. */
  lemma EmptyStagesAreEqual(range: Range)
    ensures Finished(EMPTY, range) == Assigned(EMPTY, range) == Applied(EMPTY, range) == Posted(EMPTY, range) == {}
  {
  }
}
