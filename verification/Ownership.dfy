/**
 What every transaction keeps: rows refer to each other properly, a running task belongs to exactly
 one running attempt, and a run that has ended has no open task.
 */
module Ownership {
  import opened Common
  import opened CrawlPolicy
  import opened TaskModel
  import opened TaskSystem

  /** References between rows: a child is younger than its parent and belongs to the same run. */
  ghost predicate Referenced(db: Db) {
    && (forall r :: r in db.runs ==> r < db.nextRun)
    && (forall t :: t in db.tasks ==> t < db.nextTask && db.tasks[t].run in db.runs)
    && (forall t {:trigger db.tasks[t].parent} :: t in db.tasks && db.tasks[t].parent.Some? ==>
          var p := db.tasks[t].parent.value; p < t && p in db.tasks && db.tasks[p].run == db.tasks[t].run)
    && (forall k :: k in db.attempts ==> k.task in db.tasks)
  }

  /**
   Attempts are numbered 1..attempt_count.  The task is running exactly when one of them is; that one
   is the latest and its worker holds the lease.  Otherwise nobody does.
   */
  ghost predicate Owned(db: Db, t: TaskId)
    requires t in db.tasks
  {
    var row := db.tasks[t];
    && (forall n: nat :: AttemptKey(t, n) in db.attempts <==> 1 <= n <= row.attemptCount)
    && (forall n: nat :: AttemptKey(t, n) in db.attempts && db.attempts[AttemptKey(t, n)].status == AttemptRunning <==>
          row.status == TaskRunning && n == row.attemptCount)
    && (row.status == TaskRunning ==>
          row.leaseUntil.Some? && AttemptKey(t, row.attemptCount) in db.attempts
          && row.owner == db.attempts[AttemptKey(t, row.attemptCount)].worker)
    && (row.status != TaskRunning ==> row.owner == "" && row.leaseUntil.None?)
  }

  ghost predicate AllOwned(db: Db) {
    forall t :: t in db.tasks ==> Owned(db, t)
  }

  /** A run that has ended has no queued or running task. */
  ghost predicate Quiet(db: Db) {
    forall t :: t in db.tasks && TaskActive(db.tasks[t].status) ==> RunIsActive(db, db.tasks[t].run)
  }

  ghost predicate DbInv(db: Db) {
    Referenced(db) && AllOwned(db) && Quiet(db)
  }

  // ----- One transaction ----------------------------------------------------------------

  lemma KeptKeepsOwned(o: Db, n: Db)
    requires Referenced(o) && AllOwned(o) && OnlyKept(o, n)
    ensures AllOwned(n)
  {
    forall t | t in n.tasks ensures Owned(n, t) {
      if t in o.tasks {
        assert Owned(o, t);
      } else {
        assert forall k: nat :: AttemptKey(t, k) !in o.attempts;
      }
    }
  }

  lemma StartKeeps(db: Db, budget: Option<Budget>, input: TaskInput)
    requires DbInv(db)
    ensures DbInv(TaskModel.StartRun(db, budget, input).db)
  {
    hide DbInv;
    RootKeeps(db, budget, NewTask(db, db.nextRun, None, "trigger", Workflow, input, 0, 5));
  }

  lemma RerunKeeps(db: Db, run: RunId)
    requires DbInv(db)
    ensures DbInv(TaskModel.RerunRun(db, run).db)
  {
    hide DbInv;
    if run in db.runs && FindRoot(db, run, 0).Some? {
      var root := db.tasks[FindRoot(db, run, 0).value];
      RootKeeps(db, db.runs[run].budget, NewTask(db, db.nextRun, None, root.step, root.kind, root.input, 0, 5));
    }
    hide FindRoot;
  }

  /** A new run with its root task. */
  lemma RootKeeps(db: Db, budget: Option<Budget>, row: Task)
    requires DbInv(db) && FreshTask(row) && row.run == db.nextRun && row.parent.None?
    ensures var withRun := db.(runs := db.runs[db.nextRun := Run(RunQueued, budget, db.now)],
                               nextRun := db.nextRun + 1);
            DbInv(InsertTask(withRun, row))
  {
    var n := InsertTask(db.(runs := db.runs[db.nextRun := Run(RunQueued, budget, db.now)], nextRun := db.nextRun + 1),
                        row);
    forall t | t in n.tasks ensures Owned(n, t) {
      InsertOwned(db, n, row, t);
    }
    hide AllOwned;
  }

  /** A new task of an active run, below a task of the same run. */
  lemma InsertKeeps(db: Db, row: Task)
    requires DbInv(db) && RunIsActive(db, row.run) && FreshTask(row)
    requires row.parent.Some? ==> row.parent.value in db.tasks && db.tasks[row.parent.value].run == row.run
    ensures DbInv(MarkRunning(InsertTask(db, row), row.run))
  {
    var n := MarkRunning(InsertTask(db, row), row.run);
    assert n.tasks == db.tasks[db.nextTask := row] && n.attempts == db.attempts;
    InsertRefers(db, n, row);
    InsertQuiet(db, n, row);
    forall t | t in n.tasks ensures Owned(n, t) {
      hide MarkRunning, InsertTask, Referenced, Quiet, AllOwned;
      InsertOwned(db, n, row, t);
    }
  }

  lemma InsertRefers(db: Db, n: Db, row: Task)
    requires Referenced(db) && row.run in db.runs && n.tasks == db.tasks[db.nextTask := row]
    requires n.attempts == db.attempts
    requires row.parent.Some? ==> row.parent.value in db.tasks && db.tasks[row.parent.value].run == row.run
    requires n.runs.Keys == db.runs.Keys && n.nextRun == db.nextRun && n.nextTask == db.nextTask + 1
    ensures Referenced(n)
  {
  }

  lemma InsertQuiet(db: Db, n: Db, row: Task)
    requires Quiet(db) && db.nextTask !in db.tasks && n.tasks == db.tasks[db.nextTask := row] && RunIsActive(n, row.run)
    requires forall r :: RunIsActive(db, r) ==> RunIsActive(n, r)
    ensures Quiet(n)
  {
  }

  lemma InsertOwned(db: Db, n: Db, row: Task, t: TaskId)
    requires DbInv(db) && FreshTask(row) && n.tasks == db.tasks[db.nextTask := row] && n.attempts == db.attempts
    requires t in n.tasks
    ensures Owned(n, t)
  {
    if t in db.tasks {
      assert Owned(db, t);
    } else {
      assert forall k: nat :: AttemptKey(t, k) !in db.attempts;
    }
  }

  lemma CreateChildKeeps(db: Db, c: Claim, step: string, input: TaskInput)
    requires DbInv(db)
    ensures DbInv(TaskModel.CreateChild(db, c, step, input).db)
  {
    CreateChildShape(db, c, step, input);
    var r := TaskModel.CreateChild(db, c, step, input);
    if r.reply.TaskCreated? {
      InsertKeeps(db, r.db.tasks[db.nextTask]);
    } else {
      KeptKeeps(db, r.db);
    }
  }

  /** Transactions that add no row and leave every run alone. */
  lemma KeptKeeps(o: Db, n: Db)
    requires DbInv(o) && OnlyKept(o, n) && SameRows(o, n)
    ensures DbInv(n)
  {
    KeptKeepsOwned(o, n);
  }

  lemma FinishKeeps(db: Db, id: TaskId)
    requires DbInv(db) && OnlyKept(db, TryFinishRun(db, id)) && TryFinishRun(db, id).tasks == db.tasks
    ensures DbInv(TryFinishRun(db, id))
  {
    KeptKeepsOwned(db, TryFinishRun(db, id));
    forall t | t in db.tasks && TaskActive(db.tasks[t].status)
      ensures RunIsActive(TryFinishRun(db, id), db.tasks[t].run)
    {
      assert t in ActiveTasksOf(db, db.tasks[t].run);
    }
  }

  /** References only look at the run and the parent of a row. */
  lemma ReferencedTransfers(o: Db, n: Db)
    requires Referenced(o)
    requires n.tasks.Keys == o.tasks.Keys && n.runs.Keys == o.runs.Keys
    requires forall k :: k in n.attempts ==> k.task in n.tasks
    requires n.nextRun == o.nextRun && n.nextTask == o.nextTask
    requires forall t :: t in o.tasks ==> n.tasks[t].run == o.tasks[t].run && n.tasks[t].parent == o.tasks[t].parent
    ensures Referenced(n)
  {
  }

  lemma QuietTransfers(o: Db, n: Db)
    requires Quiet(o) && n.tasks.Keys == o.tasks.Keys
    requires forall r :: RunIsActive(o, r) ==> RunIsActive(n, r)
    requires forall t :: t in o.tasks && TaskActive(n.tasks[t].status) ==>
               n.tasks[t].run == o.tasks[t].run && (TaskActive(o.tasks[t].status) || RunIsActive(o, o.tasks[t].run))
    ensures Quiet(n)
  {
  }

  lemma NextAttemptIsNew(db: Db, id: TaskId)
    requires AllOwned(db) && id in db.tasks
    ensures AttemptKey(id, db.tasks[id].attemptCount + 1) !in db.attempts
  {
    assert Owned(db, id);
  }

  lemma ClaimKeeps(db: Db, id: TaskId, worker: string, lease: int, kind: Option<TaskKind>)
    requires DbInv(db)
    ensures DbInv(TaskModel.ClaimTask(db, id, worker, lease, kind).db)
    ensures Claimable(db, id, kind) ==> TaskModel.ClaimTask(db, id, worker, lease, kind).reply.Some?
  {
    hide CloseAttempts, Referenced, AllOwned, Quiet, Owned;
    if Claimable(db, id, kind) {
      var n := TaskModel.ClaimTask(db, id, worker, lease, kind).db;
      NextAttemptIsNew(db, id);
      ClaimShape(db, id, worker, lease, kind);
      hide TaskModel.ClaimTask;
      ClaimOwned(db, n, id, worker, db.tasks[id].attemptCount + 1);
      ReferencedTransfers(db, n);
      QuietTransfers(db, n);
    }
  }

  /** What a claim writes: one row, its attempt, and the interruption of the attempt before. */
  lemma ClaimShape(db: Db, id: TaskId, worker: string, lease: int, kind: Option<TaskKind>)
    requires Claimable(db, id, kind) && AttemptKey(id, db.tasks[id].attemptCount + 1) !in db.attempts
    ensures var n, no := TaskModel.ClaimTask(db, id, worker, lease, kind).db, db.tasks[id].attemptCount + 1;
            && TaskModel.ClaimTask(db, id, worker, lease, kind).reply.Some?
            && id in n.tasks && n.tasks == db.tasks[id := n.tasks[id]] && n.tasks.Keys == db.tasks.Keys
            && n.tasks[id].leaseUntil.Some?
            && n.tasks[id] == db.tasks[id].(status := TaskRunning, attemptCount := no, owner := worker,
                                            leaseUntil := n.tasks[id].leaseUntil)
            && n.attempts
               == CloseAttempts(db.attempts, {id}, AttemptInterrupted)
                    [AttemptKey(id, no) := Attempt(worker, AttemptRunning, NoOutput)]
            && n.runs.Keys == db.runs.Keys && n.nextRun == db.nextRun && n.nextTask == db.nextTask
            && forall r :: RunIsActive(db, r) ==> RunIsActive(n, r)
  {
  }

  lemma ClaimOwned(o: Db, n: Db, id: TaskId, worker: string, no: nat)
    requires Referenced(o) && AllOwned(o) && id in o.tasks && id in n.tasks && no == o.tasks[id].attemptCount + 1
    requires n.tasks == o.tasks[id := n.tasks[id]]
    requires n.tasks[id] == o.tasks[id].(status := TaskRunning, attemptCount := no, owner := worker,
                                         leaseUntil := n.tasks[id].leaseUntil)
    requires n.tasks[id].leaseUntil.Some?
    requires n.attempts
             == CloseAttempts(o.attempts, {id}, AttemptInterrupted)
                  [AttemptKey(id, no) := Attempt(worker, AttemptRunning, NoOutput)]
    ensures AllOwned(n) && forall k :: k in n.attempts ==> k.task in n.tasks
  {
    forall t | t in n.tasks ensures Owned(n, t) {
      assert Owned(o, t);
    }
  }

  /** One task is given back together with the attempt that ran it. */
  lemma ReleaseKeeps(o: Db, n: Db, id: TaskId)
    requires DbInv(o) && id in o.tasks && id in n.tasks && o.tasks[id].status == TaskRunning
    requires n.runs == o.runs && n.nextRun == o.nextRun && n.nextTask == o.nextTask
    requires n.tasks == o.tasks[id := n.tasks[id]] && n.tasks[id].status != TaskRunning
    requires n.tasks[id] == Release(o.tasks[id], n.tasks[id].status).(nextRetry := n.tasks[id].nextRetry)
    requires n.attempts.Keys == o.attempts.Keys
    requires forall k :: k in o.attempts ==>
               if k.task == id && o.attempts[k].status == AttemptRunning then n.attempts[k].status != AttemptRunning
                   else n.attempts[k] == o.attempts[k]
    ensures DbInv(n)
  {
    hide Referenced, AllOwned, Quiet;
    ReleaseRefers(o, n, id);
    ReleaseQuiet(o, n, id);
    ReleaseAllOwned(o, n, id);
  }

  lemma ReleaseRefers(o: Db, n: Db, id: TaskId)
    requires Referenced(o) && id in o.tasks && id in n.tasks
    requires n.runs == o.runs && n.nextRun == o.nextRun && n.nextTask == o.nextTask
    requires n.tasks == o.tasks[id := n.tasks[id]]
    requires n.tasks[id] == Release(o.tasks[id], n.tasks[id].status).(nextRetry := n.tasks[id].nextRetry)
    requires n.attempts.Keys == o.attempts.Keys
    ensures Referenced(n)
  {
    assert n.tasks.Keys == o.tasks.Keys;
    ReferencedTransfers(o, n);
  }

  lemma ReleaseQuiet(o: Db, n: Db, id: TaskId)
    requires Quiet(o) && id in o.tasks && id in n.tasks && n.runs == o.runs && TaskActive(o.tasks[id].status)
    requires n.tasks == o.tasks[id := n.tasks[id]] && n.tasks[id].run == o.tasks[id].run
    ensures Quiet(n)
  {
  }

  lemma ReleaseAllOwned(o: Db, n: Db, id: TaskId)
    requires AllOwned(o) && id in o.tasks && id in n.tasks
    requires n.tasks == o.tasks[id := n.tasks[id]] && n.tasks[id].status != TaskRunning
    requires n.tasks[id] == Release(o.tasks[id], n.tasks[id].status).(nextRetry := n.tasks[id].nextRetry)
    requires n.attempts.Keys == o.attempts.Keys
    requires forall k :: k in o.attempts ==>
               if k.task == id && o.attempts[k].status == AttemptRunning then n.attempts[k].status != AttemptRunning
                   else n.attempts[k] == o.attempts[k]
    ensures AllOwned(n)
  {
    forall t | t in n.tasks ensures Owned(n, t) {
      ReleaseOwned(o, n, id, t);
    }
  }

  lemma ReleaseOwned(o: Db, n: Db, id: TaskId, t: TaskId)
    requires AllOwned(o) && id in o.tasks && id in n.tasks && t in o.tasks
    requires n.tasks == o.tasks[id := n.tasks[id]] && n.tasks[id].status != TaskRunning
    requires n.tasks[id] == Release(o.tasks[id], n.tasks[id].status).(nextRetry := n.tasks[id].nextRetry)
    requires n.attempts.Keys == o.attempts.Keys
    requires forall k :: k in o.attempts ==>
               if k.task == id && o.attempts[k].status == AttemptRunning then n.attempts[k].status != AttemptRunning
                   else n.attempts[k] == o.attempts[k]
    ensures Owned(n, t)
  {
    assert Owned(o, t);
  }

  lemma CompleteKeeps(db: Db, c: Claim, output: Output, status: TaskStatus)
    requires DbInv(db) && !TaskActive(status)
    ensures DbInv(TaskModel.CommitComplete(db, c, output, status).db)
  {
    var r := TaskModel.CommitComplete(db, c, output, status);
    if r.reply {
      assert Owned(db, c.task);
      ReleaseKeeps(db, r.db, c.task);
    }
  }

  lemma FailKeeps(db: Db, c: Claim, willRetry: bool, retryAt: Time)
    requires DbInv(db)
    ensures DbInv(TaskModel.CommitFail(db, c, willRetry, retryAt).db)
  {
    var r := TaskModel.CommitFail(db, c, willRetry, retryAt);
    if r.reply {
      assert Owned(db, c.task);
      ReleaseKeeps(db, r.db, c.task);
    }
  }

  lemma RecoverKeeps(db: Db, id: TaskId)
    requires DbInv(db)
    ensures DbInv(TaskModel.RecoverTask(db, id).db)
  {
    var r := TaskModel.RecoverTask(db, id);
    if r.reply {
      ReleaseKeeps(db, r.db, id);
    }
  }

  /** Bulk closing ends whole subtrees or whole runs at once. */
  lemma ClosingKeeps(o: Db, n: Db, ids: set<TaskId>, status: TaskStatus, attemptStatus: AttemptStatus)
    requires Referenced(o) && AllOwned(o) && !TaskActive(status) && attemptStatus != AttemptRunning
    requires n.tasks == CloseTasks(o.tasks, ids, status) && n.attempts == CloseAttempts(o.attempts, ids, attemptStatus)
    requires n.runs.Keys == o.runs.Keys && n.nextRun == o.nextRun && n.nextTask == o.nextTask
    ensures Referenced(n) && AllOwned(n)
  {
    ClosingReferenced(o, n, ids, status, attemptStatus);
    forall t | t in n.tasks ensures Owned(n, t) {
      assert Owned(o, t);
      ClosingOwned(o, n, ids, status, attemptStatus, t);
    }
  }

  lemma ClosingReferenced(o: Db, n: Db, ids: set<TaskId>, status: TaskStatus, attemptStatus: AttemptStatus)
    requires Referenced(o)
    requires n.tasks == CloseTasks(o.tasks, ids, status) && n.attempts == CloseAttempts(o.attempts, ids, attemptStatus)
    requires n.runs.Keys == o.runs.Keys && n.nextRun == o.nextRun && n.nextTask == o.nextTask
    ensures Referenced(n)
  {
    forall t | t in o.tasks
      ensures t in n.tasks && n.tasks[t].run == o.tasks[t].run && n.tasks[t].parent == o.tasks[t].parent
    {
    }
    ReferencedTransfers(o, n);
  }

  lemma ClosingOwned(o: Db, n: Db, ids: set<TaskId>, status: TaskStatus, attemptStatus: AttemptStatus, t: TaskId)
    requires t in o.tasks && Owned(o, t) && !TaskActive(status) && attemptStatus != AttemptRunning
    requires n.tasks == CloseTasks(o.tasks, ids, status) && n.attempts == CloseAttempts(o.attempts, ids, attemptStatus)
    ensures Owned(n, t)
  {
    assert forall k: nat :: AttemptKey(t, k) in n.attempts <==> AttemptKey(t, k) in o.attempts;
    if t in ids {
      assert forall k: nat :: AttemptKey(t, k) in n.attempts ==> n.attempts[AttemptKey(t, k)].status != AttemptRunning;
    } else {
      assert forall k: nat ::
            AttemptKey(t, k) in n.attempts ==> n.attempts[AttemptKey(t, k)] == o.attempts[AttemptKey(t, k)];
    }
  }

  lemma CancelKeeps(db: Db, id: TaskId)
    requires DbInv(db)
    ensures DbInv(TaskModel.CancelTask(db, id).db)
  {
    var r := TaskModel.CancelTask(db, id);
    if r.reply == Cancelled {
      ClosingKeeps(db, r.db, Subtree(db, id), TaskCancelled, AttemptCancelled);
    }
  }

  lemma CancelRunKeeps(db: Db, run: RunId)
    requires DbInv(db)
    ensures DbInv(TaskModel.CancelRun(db, run).db)
  {
    var r := TaskModel.CancelRun(db, run);
    if r.reply {
      ClosingKeeps(db, r.db, TasksOf(db, run), TaskCancelled, AttemptCancelled);
    }
  }

  lemma ExpireKeeps(db: Db, run: RunId)
    requires DbInv(db)
    ensures DbInv(TaskModel.ExpireRun(db, run).db)
  {
    var n := TaskModel.ExpireRun(db, run).db;
    if n != db {
      ClosingKeeps(db, n, TasksOf(db, run), TaskLimited, AttemptLimited);
    }
  }

  lemma RetryKeeps(db: Db, id: TaskId, limit: int)
    requires DbInv(db)
    ensures DbInv(TaskModel.CommitRetry(db, id, limit).db)
  {
    var r := TaskModel.CommitRetry(db, id, limit);
    if r.reply {
      forall t | t in r.db.tasks ensures Owned(r.db, t) {
        assert Owned(db, t);
      }
    }
  }
}
