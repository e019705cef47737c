/** Pausing and resuming over whole runs. */
module WorkloadHistory {
  import opened Stores
  import opened WorkloadSpec
  import opened WorkloadInvariants
  import opened WorkloadSafety
  import opened WorkloadRuns

  // ----- pause and resume -----

  predicate Targets(op: Op, wid: WorkloadId) { !op.OpCreate? && op.wid == wid }

  predicate PauseOrResume(op: Op) { op.OpPause? || op.OpResume? }

  /** n replicas are remembered, and the count is n or 0. */
  ghost predicate Remembers(db: World, wid: WorkloadId, n: nat) {
    && wid in db.workloads
    && db.workloads[wid].previous == n
    && (db.workloads[wid].replicas == n || db.workloads[wid].replicas == 0)
  }

  /** A scale changes the count only when it succeeds, and never what a pause
      remembered. */
  lemma ScaleCount(db: World, wid: WorkloadId, n: nat, db': World, ok: bool)
    requires wid in db.workloads && Scaled(db, wid, n, db', ok)
    ensures wid in db'.workloads && db'.workloads[wid].previous == db.workloads[wid].previous
    ensures db'.workloads[wid].replicas == if ok then n else db.workloads[wid].replicas
  {}

  lemma PauseRemembers(db: World, wid: WorkloadId, n: nat, db': World, ok: bool)
    requires n > 0 && Paused(db, wid, db', ok)
    requires Remembers(db, wid, n) || (wid in db.workloads && db.workloads[wid].replicas == n)
    ensures Remembers(db', wid, n)
  {
    ScaleCount(Stamped(db, wid), wid, 0, db', ok);
  }

  lemma ResumeRemembers(db: World, wid: WorkloadId, n: nat, db': World, ok: bool)
    requires n > 0 && Resumed(db, wid, db', ok) && Remembers(db, wid, n)
    ensures Remembers(db', wid, n) && (ok ==> db'.workloads[wid].replicas == n)
  {
    ScaleCount(db, wid, n, db', ok);
  }

  lemma OthersLeaveRow(db: World, op: Op, db': World, ok: bool, wid: WorkloadId)
    requires WorkloadsSound(db) && Step(db, op, db', ok) && wid in db.workloads && !Targets(op, wid)
    ensures wid in db'.workloads && db'.workloads[wid] == db.workloads[wid]
  {}

  ghost predicate Remembering(db: World, wid: WorkloadId, n: nat) { Sound(db) && Remembers(db, wid, n) }

  /** A step that does nothing to the workload but pause or resume it. */
  ghost predicate PausingStep(db: World, op: Op, db': World, ok: bool, wid: WorkloadId) {
    Step(db, op, db', ok) && (Targets(op, wid) ==> PauseOrResume(op))
  }

  lemma PausingStepRemembers(db: World, op: Op, db': World, ok: bool, wid: WorkloadId, n: nat)
    requires n > 0 && Remembering(db, wid, n) && PausingStep(db, op, db', ok, wid)
    ensures Remembering(db', wid, n)
  {
    StepKeepsSound(db, op, db', ok);
    if !Targets(op, wid) {
      OthersLeaveRow(db, op, db', ok, wid);
    } else if op.OpPause? {
      PauseRemembers(db, wid, n, db', ok);
    } else {
      ResumeRemembers(db, wid, n, db', ok);
    }
  }

  /** From n > 0 replicas, after a first Pause, any sequence of further Pause
      and Resume attempts, interleaved with any operations on other
      workloads and failing at will, keeps n remembered and the count at n
      or 0. */
  lemma PauseResumeRun(start: World, dbs: seq<World>, ops: seq<Op>, oks: seq<bool>, wid: WorkloadId, n: nat, ok: bool)
    requires Sound(start) && wid in start.workloads && start.workloads[wid].replicas == n > 0
    requires |dbs| > 0 && Paused(start, wid, dbs[0], ok)
    requires Chained((db, op, db', ok) => PausingStep(db, op, db', ok, wid), dbs, ops, oks)
    ensures Sound(dbs[|ops|]) && Remembers(dbs[|ops|], wid, n)
  {
    PauseKeeps(start, wid, dbs[0], ok);
    PauseRemembers(start, wid, n, dbs[0], ok);
    forall db, op, db', ok | Remembering(db, wid, n) && PausingStep(db, op, db', ok, wid) ensures Remembering(db', wid, n) {
      PausingStepRemembers(db, op, db', ok, wid, n);
    }
    Inductive(db => Remembering(db, wid, n), (db, op, db', ok) => PausingStep(db, op, db', ok, wid), dbs, ops, oks);
  }

  /** So a final successful Resume brings back the n replicas. */
  lemma ResumeRestores(start: World, dbs: seq<World>, ops: seq<Op>, oks: seq<bool>, wid: WorkloadId, n: nat, ok: bool, db': World)
    requires Calm(start) && wid in start.workloads && start.workloads[wid].replicas == n > 0
    requires |dbs| > 0 && Paused(start, wid, dbs[0], ok)
    requires Chained((db, op, db', ok) => PausingStep(db, op, db', ok, wid), dbs, ops, oks) && Chained(RoomyStep, dbs, ops, oks)
    requires Resumed(dbs[|ops|], wid, db', true)
    ensures wid in db'.workloads && db'.workloads[wid].state == StateActive
    ensures db'.workloads[wid].replicas == n == |Owned(db'.fleet, wid)|
  {
    var db := dbs[|ops|];
    PauseResumeRun(start, dbs, ops, oks, wid, n, ok);
    StepKeepsCalm(start, OpPause(wid), dbs[0], ok);
    RunCalms(dbs, ops, oks);
    ResumedRestores(db, wid, n, db');
  }

  lemma ResumedRestores(db: World, wid: WorkloadId, n: nat, db': World)
    requires Calm(db) && n > 0 && Remembers(db, wid, n) && Resumed(db, wid, db', true)
    ensures wid in db'.workloads && db'.workloads[wid].state == StateActive
    ensures db'.workloads[wid].replicas == n == |Owned(db'.fleet, wid)|
  {
    ResumeRemembers(db, wid, n, db', true);
    StepKeepsCalm(db, OpResume(wid), db', true);
    assert AtRest(db', wid);
  }
}
