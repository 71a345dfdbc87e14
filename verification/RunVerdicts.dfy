/**
 How a run is judged and what the sweep leaves, said about rows: which tasks ended how, what their last succeeded
 attempts put out, what was observed and which limits were noted.
 */
module RunVerdicts {
  import opened Common
  import opened CrawlPolicy
  import opened TaskModel
  import opened TaskStore

  // ----- The verdict ----------------------------------------------------------------------------------

  /** The task's latest succeeded attempt. */
  predicate LastSuccess(db: Db, t: TaskId, no: nat)
    requires t in db.tasks
  {
    && 1 <= no <= db.tasks[t].attemptCount && AttemptKey(t, no) in db.attempts
    && db.attempts[AttemptKey(t, no)].status == AttemptSucceeded
    && forall later :: no < later <= db.tasks[t].attemptCount && AttemptKey(t, later) in db.attempts ==>
         db.attempts[AttemptKey(t, later)].status != AttemptSucceeded
  }

  /** The output names a resource or at least one record. */
  predicate Fruitful(o: Output) {
    o.Output? && (o.resourceId > 0 || exists i :: 0 <= i < |o.results| && o.results[i].recordId > 0)
  }

  ghost predicate FruitfulTask(db: Db, t: TaskId)
    requires t in db.tasks
  {
    db.tasks[t].status == TaskSucceeded
        && exists no :: LastSuccess(db, t, no) && Fruitful(db.attempts[AttemptKey(t, no)].output)
  }

  /** The run was worth something: a record was observed, or a task succeeded with a fruitful output. */
  ghost predicate Fruits(db: Db, run: RunId) {
    || (exists k :: k in db.observations && k.task in db.tasks && db.tasks[k.task].run == run)
    || (exists t :: t in db.tasks && db.tasks[t].run == run && FruitfulTask(db, t))
  }

  predicate IsLimited(o: Output) {
    o.Output? && o.limited
  }

  ghost predicate CutTask(db: Db, t: TaskId)
    requires t in db.tasks
  {
    || db.tasks[t].status == TaskLimited
    || (db.tasks[t].status == TaskSucceeded
        && exists no :: LastSuccess(db, t, no) && IsLimited(db.attempts[AttemptKey(t, no)].output))
  }

  /** A limit made itself felt: a task or an output is limited, or an event was noted. */
  ghost predicate Limits(db: Db, run: RunId) {
    || (exists t :: t in db.tasks && db.tasks[t].run == run && CutTask(db, t))
    || (exists e :: e in db.limits && e.run == run)
  }

  /** Which output counts. */
  lemma {:induction false} LastOutputIs(db: Db, t: TaskId, bound: nat)
    requires t in db.tasks && bound <= db.tasks[t].attemptCount
    requires forall no :: bound < no <= db.tasks[t].attemptCount && AttemptKey(t, no) in db.attempts ==>
               db.attempts[AttemptKey(t, no)].status != AttemptSucceeded
    ensures forall no :: LastSuccess(db, t, no) ==> LastOutput(db, t, bound) == db.attempts[AttemptKey(t, no)].output
    ensures (forall no :: !LastSuccess(db, t, no)) ==> LastOutput(db, t, bound) == NoOutput
    decreases bound
  {
    if bound > 0 {
      if AttemptKey(t, bound) in db.attempts && db.attempts[AttemptKey(t, bound)].status == AttemptSucceeded {
        assert LastSuccess(db, t, bound);
      } else {
        LastOutputIs(db, t, bound - 1);
      }
    }
  }

  lemma FruitfulIsProduced(db: Db, t: TaskId)
    requires t in db.tasks
    ensures FruitfulTask(db, t) <==> Produced(db, t)
    ensures CutTask(db, t) <==> CutShort(db, t)
  {
    LastOutputIs(db, t, db.tasks[t].attemptCount);
    hide LastSuccess;
  }

  lemma FruitsAreResults(db: Db, run: RunId)
    ensures Fruits(db, run) <==> HasResult(db, run)
    ensures Limits(db, run) <==> WasLimited(db, run)
  {
    forall t | t in db.tasks
      ensures FruitfulTask(db, t) <==> Produced(db, t)
      ensures CutTask(db, t) <==> CutShort(db, t)
    {
      FruitfulIsProduced(db, t);
    }
    hide FruitfulTask, CutTask, Produced, CutShort;
  }

  /** The run's last task has ended and somebody looks at it. */
  predicate Judged(db: Db, id: TaskId) {
    id in db.tasks && RunIsActive(db, db.tasks[id].run) && ActiveTasksOf(db, db.tasks[id].run) == {}
  }

  /**
   The verdict on a workflow run all of whose tasks have ended: cancelled if a task was; otherwise failed without
   fruits; otherwise limited if a limit made itself felt, whatever has failed; otherwise partial if something failed.
   */
  lemma WorkflowVerdictIff(db: Db, id: TaskId)
    requires Judged(db, id) && IsWorkflowRun(db, db.tasks[id].run)
    ensures var run := db.tasks[id].run;
            var status := TryFinishRun(db, id).runs[run].status;
            var cancelled := HasStatus(db, run, TaskCancelled);
            var failed := HasStatus(db, run, TaskFailed) || HasStatus(db, run, TaskDeadLetter);
            && (status == RunCancelled <==> cancelled)
            && (status == RunFailed <==> !cancelled && !Fruits(db, run))
            && (status == RunLimited <==> !cancelled && Fruits(db, run) && Limits(db, run))
            && (status == RunPartial <==> !cancelled && Fruits(db, run) && !Limits(db, run) && failed)
            && (status == RunSucceeded <==> !cancelled && Fruits(db, run) && !Limits(db, run) && !failed)
  {
    FruitsAreResults(db, db.tasks[id].run);
    hide Fruits, Limits, HasStatus, IsWorkflowRun, HasResult, WasLimited;
  }

  /** Without workflow tasks a failure comes before a cancel, and results and limits do not matter. */
  lemma PlainVerdictIff(db: Db, id: TaskId)
    requires Judged(db, id) && !IsWorkflowRun(db, db.tasks[id].run)
    ensures var run := db.tasks[id].run;
            var status := TryFinishRun(db, id).runs[run].status;
            var cancelled := HasStatus(db, run, TaskCancelled);
            var failed := HasStatus(db, run, TaskFailed) || HasStatus(db, run, TaskDeadLetter);
            && (status == RunFailed <==> failed)
            && (status == RunCancelled <==> !failed && cancelled)
            && (status == RunSucceeded <==> !failed && !cancelled)
  {
    hide HasStatus, IsWorkflowRun;
  }

  /** Looking at a run changes nothing but the status of the run, and nothing at all unless it is judged. */
  lemma LookChangesOnlyTheVerdict(db: Db, id: TaskId)
    ensures var n := TryFinishRun(db, id);
            && n == db.(runs := n.runs)
            && (!Judged(db, id) ==> n == db)
            && (Judged(db, id) ==>
                  && !RunActive(n.runs[db.tasks[id].run].status)
                  && n.runs == db.runs[db.tasks[id].run := db.runs[db.tasks[id].run].(
                                      status := n.runs[db.tasks[id].run].status)])
  {
    assert id in db.tasks ==> !RunActive(FinalStatus(db, db.tasks[id].run));
    hide FinalStatus;
  }

  // ----- An expired lease -----------------------------------------------------------------------------

  /** The task's worker has lost its lease. */
  predicate Lost(db: Db, t: TaskId) {
    t in db.tasks && db.tasks[t].status == TaskRunning && db.tasks[t].leaseUntil.Some?
        && db.tasks[t].leaseUntil.value < db.now
  }

  predicate AttemptsLeft(row: Task) {
    row.attemptCount < row.maxAttempts
  }

  /** The running attempts of the task are closed like this and no other attempt changes. */
  ghost predicate EndsAttempts(o: map<AttemptKey, Attempt>, n: map<AttemptKey, Attempt>, t: TaskId,
                               status: AttemptStatus) {
    n.Keys == o.Keys && forall k :: k in o ==>
      n[k] == if k.task == t && o[k].status == AttemptRunning then o[k].(status := status) else o[k]
  }

  /**
   Recovering a task: exactly if its lease is lost it goes back to the queue while it has attempts left and is given
   up otherwise; in both cases it is free at once and its attempt is interrupted.
   */
  lemma RecoveryIff(db: Db, t: TaskId)
    ensures var r := TaskModel.RecoverTask(db, t);
            && (r.reply <==> Lost(db, t))
            && (!Lost(db, t) ==> r.db == db)
            && (Lost(db, t) ==>
                  && t in r.db.tasks
                  && var row := r.db.tasks[t];
                  && r.db == db.(tasks := db.tasks[t := row], attempts := r.db.attempts)
                  && (row.status == TaskQueued <==> AttemptsLeft(db.tasks[t]))
                  && (row.status == TaskDeadLetter <==> !AttemptsLeft(db.tasks[t]))
                  && row.nextRetry == Some(db.now) && row.owner == "" && row.leaseUntil.None?
                  && row == db.tasks[t].(status := row.status, nextRetry := row.nextRetry, owner := "",
                                         leaseUntil := None)
                  && EndsAttempts(db.attempts, r.db.attempts, t, AttemptInterrupted))
  {
  }

  // ----- The sweep ------------------------------------------------------------------------------------

  function Sweep(db: Db): Db {
    ExpireBelow(RecoverBelow(db, db.nextTask).db, db.nextRun)
  }

  /** The run's time is up and it has not ended. */
  predicate TimeIsUp(db: Db, run: RunId) {
    && run in db.runs && (db.runs[run].status == RunQueued || db.runs[run].status == RunRunning)
    && db.runs[run].budget.Some?
    && db.now >= db.runs[run].createdAt + db.runs[run].budget.value.maxDurationSeconds
  }

  lemma OverdueIsLate(db: Db, run: RunId)
    ensures Overdue(db, run) <==> TimeIsUp(db, run)
  {
  }

  predicate Open(row: Task) {
    row.status == TaskQueued || row.status == TaskRunning
  }

  /** Where the recovery of the leases leaves a task. */
  predicate Recovered(db: Db, t: TaskId, row: Task)
    requires t in db.tasks
  {
    if Lost(db, t) then
      row == db.tasks[t].(status := if AttemptsLeft(db.tasks[t]) then TaskQueued else TaskDeadLetter,
                          nextRetry := Some(db.now), owner := "", leaseUntil := None)
    else row == db.tasks[t]
  }

  /** What recovering the tasks below `bound` has done to the tasks. */
  ghost predicate RecoveredBelow(db: Db, n: Db, bound: TaskId) {
    && n.now == db.now && n.tasks.Keys == db.tasks.Keys
    && (forall t :: t in db.tasks ==> if t < bound then Recovered(db, t, n.tasks[t]) else n.tasks[t] == db.tasks[t])
  }

  /** A run with an open task is what it was, and no run gets late. */
  ghost predicate RunsStand(db: Db, n: Db) {
    && n.now == db.now && n.runs.Keys == db.runs.Keys && n.nextRun == db.nextRun && n.tasks.Keys == db.tasks.Keys
    && (forall t :: t in db.tasks ==> n.tasks[t].run == db.tasks[t].run)
    && (forall t :: t in db.tasks && Open(n.tasks[t]) && db.tasks[t].run in db.runs ==>
          n.runs[db.tasks[t].run] == db.runs[db.tasks[t].run])
    && (forall r :: TimeIsUp(n, r) ==> TimeIsUp(db, r))
  }

  lemma RecoversRow(db: Db, n: Db, t: TaskId)
    requires RecoveredBelow(db, n, t)
    ensures RecoveredBelow(db, TaskModel.RecoverTask(n, t).db, t + 1)
  {
    RecoveryIff(n, t);
    hide TaskModel.RecoverTask, EndsAttempts;
  }

  lemma RecoveryKeepsRuns(db: Db, n: Db, t: TaskId)
    requires RunsStand(db, n)
    ensures RunsStand(db, TaskModel.RecoverTask(n, t).db)
  {
    var m := TaskModel.RecoverTask(n, t).db;
    RecoveryIff(n, t);
    assert m.runs == n.runs && m.now == n.now && m.nextRun == n.nextRun && m.tasks.Keys == n.tasks.Keys;
    assert forall u :: u in n.tasks ==> m.tasks[u].run == n.tasks[u].run && (Open(m.tasks[u]) ==> Open(n.tasks[u]));
    hide TaskModel.RecoverTask, EndsAttempts;
  }

  lemma LookKeepsRuns(db: Db, n: Db, t: TaskId)
    requires RunsStand(db, n)
    ensures RunsStand(db, TryFinishRun(n, t)) && TryFinishRun(n, t).tasks == n.tasks
  {
    LookChangesOnlyTheVerdict(n, t);
    hide TryFinishRun;
    if Judged(n, t) {
      forall u | u in n.tasks && Open(n.tasks[u]) ensures n.tasks[u].run != n.tasks[t].run {
        assert u !in ActiveTasksOf(n, n.tasks[t].run);
      }
    }
  }

  lemma RecoversOne(db: Db, n: Db, t: TaskId)
    requires RecoveredBelow(db, n, t) && RunsStand(db, n)
    ensures var r := TaskModel.RecoverTask(n, t);
            var m := if r.reply then TryFinishRun(r.db, t) else n;
            RecoveredBelow(db, m, t + 1) && RunsStand(db, m)
  {
    var r := TaskModel.RecoverTask(n, t);
    hide TaskModel.RecoverTask, TryFinishRun, RunsStand, RecoveredBelow;
    RecoversRow(db, n, t);
    RecoveryKeepsRuns(db, n, t);
    LookKeepsRuns(db, r.db, t);
    LookKeepsTasks(db, r.db, t, t + 1);
    NoRecovery(n, t);
  }

  lemma LookKeepsTasks(db: Db, n: Db, t: TaskId, bound: TaskId)
    requires RecoveredBelow(db, n, bound)
    ensures RecoveredBelow(db, TryFinishRun(n, t), bound)
  {
    LookChangesOnlyTheVerdict(n, t);
    hide TryFinishRun;
  }

  lemma NoRecovery(db: Db, t: TaskId)
    ensures !TaskModel.RecoverTask(db, t).reply ==> TaskModel.RecoverTask(db, t).db == db
  {
  }

  lemma {:induction false} RecoversAll(db: Db, bound: TaskId)
    ensures RecoveredBelow(db, RecoverBelow(db, bound).db, bound) && RunsStand(db, RecoverBelow(db, bound).db)
  {
    hide RecoveredBelow, RunsStand, TaskModel.RecoverTask, TryFinishRun;
    if bound == 0 {
      NothingRecovered(db);
    } else {
      RecoversAll(db, bound - 1);
      RecoversOne(db, RecoverBelow(db, bound - 1).db, bound - 1);
    }
  }

  lemma NothingRecovered(db: Db)
    ensures RecoveredBelow(db, db, 0) && RunsStand(db, db)
  {
  }

  /** Where the expiry of the runs leaves a task. */
  predicate Expired(db: Db, t: TaskId, row: Task)
    requires t in db.tasks
  {
    if Open(db.tasks[t]) && TimeIsUp(db, db.tasks[t].run) then
      row == db.tasks[t].(status := TaskLimited, owner := "", leaseUntil := None)
    else row == db.tasks[t]
  }

  ghost predicate ExpiredRuns(db: Db, n: Db, bound: RunId) {
    && n.now == db.now && n.tasks.Keys == db.tasks.Keys && n.runs.Keys == db.runs.Keys
    && (forall t :: t in db.tasks ==>
          if db.tasks[t].run < bound then Expired(db, t, n.tasks[t]) else n.tasks[t] == db.tasks[t])
    && (forall r :: r in db.runs && r >= bound ==> n.runs[r] == db.runs[r])
  }

  lemma ExpiresOne(db: Db, n: Db, run: RunId)
    requires ExpiredRuns(db, n, run)
    ensures ExpiredRuns(db, ExpireAndFinish(n, run), run + 1)
  {
    ExpiryOfRun(n, run);
    hide ExpireAndFinish;
  }

  /** Expiring a run limits its open tasks, if its time is up, and leaves other runs alone. */
  lemma ExpiryOfRun(db: Db, run: RunId)
    ensures var n := ExpireAndFinish(db, run);
            && n.now == db.now && n.tasks.Keys == db.tasks.Keys && n.runs.Keys == db.runs.Keys
            && (forall t :: t in db.tasks ==>
                  if db.tasks[t].run == run then Expired(db, t, n.tasks[t]) else n.tasks[t] == db.tasks[t])
            && (forall r :: r in db.runs && r != run ==> n.runs[r] == db.runs[r])
  {
    hide FinalStatus, ExpireEvents, CloseAttempts;
  }

  lemma {:induction false} ExpiresAll(db: Db, bound: RunId)
    ensures ExpiredRuns(db, ExpireBelow(db, bound), bound)
  {
    hide ExpiredRuns, ExpireAndFinish;
    if bound == 0 {
      NothingExpired(db);
    } else {
      ExpiresAll(db, bound - 1);
      ExpiresOne(db, ExpireBelow(db, bound - 1), bound - 1);
    }
  }

  lemma NothingExpired(db: Db)
    ensures ExpiredRuns(db, db, 0)
  {
  }

  /**
   The sweep, task by task.  A lost lease without attempts left ends the task as a dead letter; any other open task of
   a run whose time is up is limited; a lost lease with attempts left otherwise goes back to the queue; nothing else
   is touched.
   */
  lemma SweepIff(db: Db, t: TaskId)
    requires IdsInUse(db) && t in db.tasks && db.tasks[t].run in db.runs && db.tasks[t].run < db.nextRun
    ensures t in Sweep(db).tasks
    ensures var o, n := db.tasks[t], Sweep(db).tasks[t];
            && (n.status != o.status <==> Lost(db, t) || (Open(o) && TimeIsUp(db, o.run)))
            && (Lost(db, t) ==>
                  && (n.status == TaskDeadLetter <==> !AttemptsLeft(o))
                  && (n.status == TaskLimited <==> AttemptsLeft(o) && TimeIsUp(db, o.run))
                  && (n.status == TaskQueued <==> AttemptsLeft(o) && !TimeIsUp(db, o.run))
                  && n == o.(status := n.status, nextRetry := Some(db.now), owner := "", leaseUntil := None))
            && (!Lost(db, t) && Open(o) && TimeIsUp(db, o.run) ==>
                  n == o.(status := TaskLimited, owner := "", leaseUntil := None))
            && (!Lost(db, t) && !(Open(o) && TimeIsUp(db, o.run)) ==> n == o)
  {
    var mid := RecoverBelow(db, db.nextTask).db;
    RecoversAll(db, db.nextTask);
    ExpiresAll(mid, db.nextRun);
    hide RecoverBelow, ExpireBelow;
    assert Recovered(db, t, mid.tasks[t]) && Expired(mid, t, Sweep(db).tasks[t]);
  }

  function LostBelow(db: Db, bound: TaskId): set<TaskId> {
    set t | t in db.tasks && t < bound && Lost(db, t)
  }

  /** The sweep replies how many leases were lost. */
  lemma {:induction false} SweepCountsLostLeases(db: Db, bound: TaskId)
    ensures RecoverBelow(db, bound).reply == |LostBelow(db, bound)|
  {
    if bound == 0 {
      assert LostBelow(db, 0) == {};
    } else {
      hide TaskModel.RecoverTask, TryFinishRun, Lost;
      SweepCountsLostLeases(db, bound - 1);
      StillLost(db, bound - 1);
      if Lost(db, bound - 1) {
        LostIsTask(db, bound - 1);
        assert LostBelow(db, bound) == LostBelow(db, bound - 1) + {bound - 1};
      } else {
        assert LostBelow(db, bound) == LostBelow(db, bound - 1);
      }
    }
  }

  /** Whether a lease is lost does not depend on what was recovered before. */
  lemma StillLost(db: Db, t: TaskId)
    ensures TaskModel.RecoverTask(RecoverBelow(db, t).db, t).reply <==> Lost(db, t)
  {
    RecoversAll(db, t);
    RecoveryIff(RecoverBelow(db, t).db, t);
    hide TaskModel.RecoverTask, RecoverBelow, RunsStand, EndsAttempts;
  }

  lemma LostIsTask(db: Db, t: TaskId)
    requires Lost(db, t)
    ensures t in db.tasks
  {
  }
}
